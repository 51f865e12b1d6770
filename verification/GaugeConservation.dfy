/** Any number of failure trackers on one gauge, under any interleaving. */
module GaugeConservation {
  import opened FailureTracking

  /** A tracker and the gauge step it still owes. The tracker's lock is held
      from the change of the set until that step, so the debt is at most one. */
  datatype Tracker<!K> = Tracker(failed: set<K>, owed: int)

  /** `last` remembers, per tracker, what each key was last marked as. */
  datatype Accounts<!K> = Accounts(trackers: seq<Tracker<K>>, gauge: int, last: seq<map<K, bool>>)

  datatype Move<K> =
    | Mark(tracker: nat, key: K, failure: bool)
    | StepGauge(tracker: nat)

  /** One atomic step; a marking waits while the tracker's lock is held. */
  function Next<K>(s: Accounts<K>, m: Move<K>): Accounts<K>
    requires |s.last| == |s.trackers|
    ensures |Next(s, m).last| == |Next(s, m).trackers|
  {
    if m.tracker >= |s.trackers| then s
    else
      var t := s.trackers[m.tracker];
      match m
      case Mark(i, key, failure) =>
        if t.owed != 0 then s
        else
          var now := Marked(t.failed, key, failure);
          s.(trackers := s.trackers[i := Tracker(now, |now| - |t.failed|)],
             last := s.last[i := s.last[i][key := failure]])
      case StepGauge(i) =>
        s.(trackers := s.trackers[i := t.(owed := 0)], gauge := s.gauge + t.owed)
  }

  function Run<K>(s: Accounts<K>, moves: seq<Move<K>>): Accounts<K>
    requires |s.last| == |s.trackers|
    ensures |Run(s, moves).last| == |Run(s, moves).trackers|
  {
    if moves == [] then s else Next(Run(s, moves[..|moves| - 1]), moves[|moves| - 1])
  }

  function Start<K>(n: nat): Accounts<K>
    ensures |Start<K>(n).last| == |Start<K>(n).trackers| == n
  {
    Accounts(seq(n, i => Tracker({}, 0)), 0, seq(n, i => map[]))
  }

  function Sizes<K>(ts: seq<Tracker<K>>): nat {
    if ts == [] then 0 else Sizes(ts[..|ts| - 1]) + |ts[|ts| - 1].failed|
  }

  function Owed<K>(ts: seq<Tracker<K>>): int {
    if ts == [] then 0 else Owed(ts[..|ts| - 1]) + ts[|ts| - 1].owed
  }

  ghost predicate TrackerFits<K(!new)>(t: Tracker<K>, last: map<K, bool>) {
    && -1 <= t.owed <= 1 && t.owed <= |t.failed|
    && forall k :: k in t.failed <==> k in last && last[k]
  }

  ghost predicate Balanced<K(!new)>(s: Accounts<K>) {
    && |s.last| == |s.trackers|
    && s.gauge + Owed(s.trackers) == Sizes(s.trackers)
    && forall i | 0 <= i < |s.trackers| :: TrackerFits(s.trackers[i], s.last[i])
  }

  lemma {:induction false} SumsAfterUpdate<K>(ts: seq<Tracker<K>>, i: nat, t: Tracker<K>)
    requires i < |ts|
    ensures Sizes(ts[i := t]) == Sizes(ts) - |ts[i].failed| + |t.failed|
    ensures Owed(ts[i := t]) == Owed(ts) - ts[i].owed + t.owed
  {
    var n := |ts| - 1;
    if i < n {
      SumsAfterUpdate(ts[..n], i, t);
      assert ts[i := t][..n] == ts[..n][i := t];
    } else {
      assert ts[i := t][..n] == ts[..n];
    }
  }

  lemma {:induction false} OwedAtMostSizes<K>(ts: seq<Tracker<K>>)
    requires forall i | 0 <= i < |ts| :: ts[i].owed <= |ts[i].failed|
    ensures Owed(ts) <= Sizes(ts)
    ensures (forall i | 0 <= i < |ts| :: ts[i].owed == 0) ==> Owed(ts) == 0
  {
    if ts != [] {
      OwedAtMostSizes(ts[..|ts| - 1]);
    }
  }

  lemma MarkedSize<K>(failed: set<K>, key: K, failure: bool)
    ensures -1 <= |Marked(failed, key, failure)| - |failed| <= 1
    ensures |Marked(failed, key, failure)| - |failed| <= |Marked(failed, key, failure)|
  {
    if key in failed {
      assert failed + {key} == failed;
    } else {
      assert failed - {key} == failed;
    }
  }

  lemma MarkFits<K(!new)>(t: Tracker<K>, last: map<K, bool>, key: K, failure: bool)
    requires TrackerFits(t, last)
    ensures var now := Marked(t.failed, key, failure);
            TrackerFits(Tracker(now, |now| - |t.failed|), last[key := failure])
  {
    MarkedSize(t.failed, key, failure);
  }

  lemma NextBalanced<K(!new)>(s: Accounts<K>, m: Move<K>)
    requires Balanced(s)
    ensures Balanced(Next(s, m))
  {
    if m.tracker < |s.trackers| {
      var i := m.tracker;
      var t := s.trackers[i];
      if m.Mark? {
        var now := Marked(t.failed, m.key, m.failure);
        MarkFits(t, s.last[i], m.key, m.failure);
        SumsAfterUpdate(s.trackers, i, Tracker(now, |now| - |t.failed|));
      } else {
        SumsAfterUpdate(s.trackers, i, t.(owed := 0));
      }
    }
  }

  lemma StartBalanced<K(!new)>(n: nat)
    ensures Balanced(Start<K>(n))
  {
    ZeroSums(Start<K>(n).trackers);
  }

  lemma {:induction false} ZeroSums<K>(ts: seq<Tracker<K>>)
    requires forall i | 0 <= i < |ts| :: ts[i] == Tracker({}, 0)
    ensures Sizes(ts) == 0 && Owed(ts) == 0
  {
    if ts != [] {
      ZeroSums(ts[..|ts| - 1]);
    }
  }

  lemma {:induction false} RunBalanced<K(!new)>(n: nat, moves: seq<Move<K>>)
    ensures Balanced(Run(Start<K>(n), moves))
  {
    if moves == [] {
      StartBalanced<K>(n);
    } else {
      RunBalanced(n, moves[..|moves| - 1]);
      NextBalanced(Run(Start<K>(n), moves[..|moves| - 1]), moves[|moves| - 1]);
    }
  }

  /** Conservation: over every interleaving of markings by any number of
      trackers, the gauge is never negative, it equals the number of failing
      keys of all trackers whenever no gauge step is outstanding, and a key is in
      a tracker exactly when its last marking there was a failure. */
  lemma GaugeIsConserved<K(!new)>(n: nat, moves: seq<Move<K>>)
    ensures var s := Run(Start<K>(n), moves);
            && s.gauge >= 0
            && ((forall i | 0 <= i < |s.trackers| :: s.trackers[i].owed == 0) ==> s.gauge == Sizes(s.trackers))
            && (forall i, k | 0 <= i < |s.trackers| ::
                  k in s.trackers[i].failed <==> k in s.last[i] && s.last[i][k])
  {
    RunBalanced(n, moves);
    var s := Run(Start<K>(n), moves);
    OwedAtMostSizes(s.trackers);
    forall i, k | 0 <= i < |s.trackers|
      ensures k in s.trackers[i].failed <==> k in s.last[i] && s.last[i][k]
    {
      assert TrackerFits(s.trackers[i], s.last[i]);
    }
  }
}
