/** What the failed set and the queue of the controller mean over a whole run, read off
    its events; and that an attempt running alone is one call of Reconcile. */
module Verdicts {
  import opened Wrappers
  import opened Json
  import opened Destinations
  import opened Attempts
  import opened Jobs
  import opened Runs
  import opened Passes
  import opened FailureTracking
  import opened Convergence
  import opened Quiescence

  // ---- Readings of one event ----

  /** Whether the event ends a read or an attempt of its key, and whether in failure.
      A failed List of the syncers is neither. */
  function Verdict(s: Controller, e: Event): Option<bool> {
    match e
    case ReadFails(k) => if IsTaken(s, k) then Some(true) else None
    case Finish(k) =>
      if IsRunning(s, k) && s.inflight[k].attempt.todo == [] then Some(s.inflight[k].attempt.errors != []) else None
    case _ => None
  }

  /** The n-th event of a run ends a read or an attempt of the key like this. */
  ghost predicate EndsAt(cfg: Config, start: Controller, events: seq<Event>, n: int, k: Request, failed: bool) {
    0 <= n < |events| && events[n].key == k && Verdict(Exec(cfg, start, events[..n]), events[n]) == Some(failed)
  }

  /** The n-th event is a successful read, with which an attempt begins. */
  ghost predicate ReadsAt(cfg: Config, start: Controller, events: seq<Event>, n: int, k: Request) {
    && 0 <= n < |events| && events[n].ReadSucceeds? && events[n].key == k
    && var s := Exec(cfg, start, events[..n]);
       IsTaken(s, k) && SeenOf(s, k) <= events[n].version <= Current(s, k)
  }

  lemma PrefixReadings(cfg: Config, start: Controller, events: seq<Event>, n: int, k: Request, failed: bool)
    requires events != [] && n < |events| - 1
    ensures EndsAt(cfg, start, events[..|events| - 1], n, k, failed) <==> EndsAt(cfg, start, events, n, k, failed)
    ensures ReadsAt(cfg, start, events[..|events| - 1], n, k) <==> ReadsAt(cfg, start, events, n, k)
  {
    if 0 <= n {
      assert events[..|events| - 1][..n] == events[..n];
    }
  }

  // ---- The failed set ----

  ghost predicate NoSuccessAfter(cfg: Config, start: Controller, events: seq<Event>, n: int, k: Request) {
    forall m | n < m < |events| :: !EndsAt(cfg, start, events, m, k, false)
  }

  /** The latest read or attempt of the key that ended was a failure. */
  ghost predicate FailedLast(cfg: Config, start: Controller, events: seq<Event>, k: Request) {
    exists n :: EndsAt(cfg, start, events, n, k, true) && NoSuccessAfter(cfg, start, events, n, k)
  }

  lemma MarkingStep(cfg: Config, s: Controller, e: Event, k: Request)
    ensures k in Next(cfg, s, e).failed
            <==> if e.key == k && Verdict(s, e).Some? then Verdict(s, e).value else k in s.failed
  {
  }

  lemma NoSuccessOneMore(cfg: Config, start: Controller, events: seq<Event>, n: int, k: Request)
    requires events != [] && n < |events| - 1
    ensures NoSuccessAfter(cfg, start, events, n, k)
            <==> NoSuccessAfter(cfg, start, events[..|events| - 1], n, k) && !EndsAt(cfg, start, events, |events| - 1, k, false)
  {
    var l := |events| - 1;
    forall m | n < m < l ensures EndsAt(cfg, start, events[..l], m, k, false) <==> EndsAt(cfg, start, events, m, k, false) {
      PrefixReadings(cfg, start, events, m, k, false);
    }
  }

  lemma FailedLastStep(cfg: Config, start: Controller, events: seq<Event>, k: Request)
    requires events != []
    ensures var n := |events| - 1;
            FailedLast(cfg, start, events, k)
            <==> EndsAt(cfg, start, events, n, k, true)
                 || (FailedLast(cfg, start, events[..n], k) && !EndsAt(cfg, start, events, n, k, false))
  {
    var l := |events| - 1;
    if FailedLast(cfg, start, events[..l], k) && !EndsAt(cfg, start, events, l, k, false) {
      var n :| EndsAt(cfg, start, events[..l], n, k, true) && NoSuccessAfter(cfg, start, events[..l], n, k);
      PrefixReadings(cfg, start, events, n, k, true);
      NoSuccessOneMore(cfg, start, events, n, k);
    }
    if FailedLast(cfg, start, events, k) && !EndsAt(cfg, start, events, l, k, true) {
      var n :| EndsAt(cfg, start, events, n, k, true) && NoSuccessAfter(cfg, start, events, n, k);
      PrefixReadings(cfg, start, events, n, k, true);
      NoSuccessOneMore(cfg, start, events, n, k);
    }
    if EndsAt(cfg, start, events, l, k, true) {
      assert NoSuccessAfter(cfg, start, events, l, k);
    }
  }

  /** Over every run, a key is in the failed set if and only if the latest of its reads
      and attempts that ended was a failure; an attempt cut short because the syncers
      could not be listed does not count. */
  lemma {:induction false} FailedMeansFailedLast(cfg: Config, source: map<Request, Fields>, fleet: Fleet, events: seq<Event>,
                                                 k: Request)
    ensures k in Exec(cfg, Start(source, fleet), events).failed <==> FailedLast(cfg, Start(source, fleet), events, k)
    decreases |events|
  {
    var start := Start(source, fleet);
    if events != [] {
      var n := |events| - 1;
      FailedMeansFailedLast(cfg, source, fleet, events[..n], k);
      FailedLastStep(cfg, start, events, k);
      MarkingStep(cfg, Exec(cfg, start, events[..n]), events[n], k);
    }
  }

  // ---- The queue ----

  /** The event asks for the key to be synced: the informer shows a change, a resync
      covers the key, or an attempt ended early or in failure. */
  predicate AsksFor(s: Controller, e: Event, k: Request) {
    && e.key == k
    && match e
       case Deliver(_, v) => IsNext(s, k, v) && (VersionAt(s, k, SeenOf(s, k)).Some? || VersionAt(s, k, v).Some?)
       case Enqueue(_) => k in s.delivered && VersionAt(s, k, SeenOf(s, k)).Some?
       case ListFails(_) => IsTaken(s, k)
       case _ => Verdict(s, e) == Some(true)
  }

  lemma AskingQueues(cfg: Config, s: Controller, e: Event, k: Request)
    requires AsksFor(s, e, k)
    ensures k in Next(cfg, s, e).queued
  {
  }

  /** The attempt that began with this read has not ended. */
  ghost predicate Unended(cfg: Config, start: Controller, events: seq<Event>, m: int, k: Request) {
    ReadsAt(cfg, start, events, m, k)
    && forall x | m < x < |events| :: !EndsAt(cfg, start, events, x, k, true) && !EndsAt(cfg, start, events, x, k, false)
  }

  /** An attempt that read the source after the n-th event is under way. */
  ghost predicate UnderWaySince(cfg: Config, start: Controller, events: seq<Event>, n: int, k: Request) {
    IsRunning(Exec(cfg, start, events), k) && exists m :: n < m && Unended(cfg, start, events, m, k)
  }

  /** An attempt that read the source after the n-th event has ended without error. */
  ghost predicate ServedSince(cfg: Config, start: Controller, events: seq<Event>, n: int, k: Request) {
    exists m: nat, f: nat ::
      n < m < f < |events| && Unended(cfg, start, events[..f], m, k) && EndsAt(cfg, start, events, f, k, false)
  }

  /** The key waits in the queue or is just being taken up, or an attempt that reads the
      source after the n-th event is under way or has succeeded. */
  ghost predicate Attended(cfg: Config, start: Controller, events: seq<Event>, n: int, k: Request) {
    var s := Exec(cfg, start, events);
    || k in s.queued || IsTaken(s, k)
    || UnderWaySince(cfg, start, events, n, k) || ServedSince(cfg, start, events, n, k)
  }

  lemma ServedStays(cfg: Config, start: Controller, events: seq<Event>, n: int, k: Request)
    requires events != [] && ServedSince(cfg, start, events[..|events| - 1], n, k)
    ensures ServedSince(cfg, start, events, n, k)
  {
    var l := |events| - 1;
    var m: nat, f: nat :| n < m < f < l && Unended(cfg, start, events[..l][..f], m, k)
                          && EndsAt(cfg, start, events[..l], f, k, false);
    assert events[..l][..f] == events[..f];
    PrefixReadings(cfg, start, events, f, k, false);
  }

  lemma AttemptGoesOn(cfg: Config, start: Controller, events: seq<Event>, m: int, k: Request)
    requires events != [] && m < |events| - 1 && Unended(cfg, start, events[..|events| - 1], m, k)
    requires events[|events| - 1].key == k ==> Verdict(Exec(cfg, start, events[..|events| - 1]), events[|events| - 1]).None?
    ensures Unended(cfg, start, events, m, k)
  {
    PrefixReadings(cfg, start, events, m, k, true);
    forall x | m < x < |events|
      ensures !EndsAt(cfg, start, events, x, k, true) && !EndsAt(cfg, start, events, x, k, false)
    {
      if x < |events| - 1 {
        PrefixReadings(cfg, start, events, x, k, true);
        PrefixReadings(cfg, start, events, x, k, false);
      }
    }
  }

  lemma OtherKeysStep(cfg: Config, s: Controller, e: Event, k: Request)
    requires e.key != k
    ensures var s' := Next(cfg, s, e);
            && (k in s'.queued <==> k in s.queued) && (k in s'.inflight <==> k in s.inflight)
            && (k in s.inflight ==> s'.inflight[k] == s.inflight[k])
  {
  }

  /** An attempt under way goes on, unless this step ends it. */
  lemma RunningStep(cfg: Config, s: Controller, e: Event, k: Request)
    requires IsRunning(s, k)
    ensures e.key == k && Verdict(s, e) == Some(true) ==> k in Next(cfg, s, e).queued
    ensures !(e.key == k && Verdict(s, e).Some?) ==> IsRunning(Next(cfg, s, e), k)
  {
    if e.key != k {
      OtherKeysStep(cfg, s, e, k);
    } else if e.Call? && s.inflight[k].attempt.todo != [] {
      StepPhased(State(s.fleet, s.inflight[k].attempt), e.outcome);
    }
  }

  lemma WaitingStep(cfg: Config, s: Controller, e: Event, k: Request)
    requires k in s.queued || IsTaken(s, k)
    ensures var s' := Next(cfg, s, e);
            || k in s'.queued || IsTaken(s', k)
            || (IsRunning(s', k) && e.ReadSucceeds? && e.key == k && IsTaken(s, k)
                && SeenOf(s, k) <= e.version <= Current(s, k))
  {
    if e.key != k {
      OtherKeysStep(cfg, s, e, k);
    }
  }

  lemma AttendedStep(cfg: Config, start: Controller, events: seq<Event>, n: int, k: Request)
    requires 0 <= n < |events| - 1 && Attended(cfg, start, events[..|events| - 1], n, k)
    ensures Attended(cfg, start, events, n, k)
  {
    var l := |events| - 1;
    var s, e := Exec(cfg, start, events[..l]), events[l];
    if ServedSince(cfg, start, events[..l], n, k) {
      ServedStays(cfg, start, events, n, k);
    } else if UnderWaySince(cfg, start, events[..l], n, k) {
      var m :| n < m && Unended(cfg, start, events[..l], m, k);
      RunningStep(cfg, s, e, k);
      if e.key == k && Verdict(s, e) == Some(false) {
        assert EndsAt(cfg, start, events, l, k, false);
      } else if !(e.key == k && Verdict(s, e).Some?) {
        AttemptGoesOn(cfg, start, events, m, k);
      }
    } else {
      WaitingStep(cfg, s, e, k);
      if e.ReadSucceeds? && e.key == k && IsTaken(s, k) && SeenOf(s, k) <= e.version <= Current(s, k) {
        assert ReadsAt(cfg, start, events, l, k);
        assert Unended(cfg, start, events, l, k);
      }
    }
  }

  /** No request is lost. Over every run: once the informer has shown a change of a key, a
      resync has covered it or an attempt for it has failed, the key is queued, taken or
      under attempt until an attempt that read the source after that has ended without
      error. */
  lemma {:induction false} NoRequestIsLost(cfg: Config, source: map<Request, Fields>, fleet: Fleet, events: seq<Event>,
                                           n: nat, k: Request)
    requires n < |events| && AsksFor(Exec(cfg, Start(source, fleet), events[..n]), events[n], k)
    ensures Attended(cfg, Start(source, fleet), events, n, k)
    decreases |events|
  {
    var l := |events| - 1;
    if n < l {
      assert events[..l][..n] == events[..n];
      NoRequestIsLost(cfg, source, fleet, events[..l], n, k);
      AttendedStep(cfg, Start(source, fleet), events, n, k);
    } else {
      AskingQueues(cfg, Exec(cfg, Start(source, fleet), events[..n]), events[n], k);
    }
  }

  // ---- An attempt alone ----

  lemma FinishMarks(cfg: Config, s: Controller, k: Request, z: State)
    requires k in s.inflight && s.inflight[k].Running? && Phased(z.attempt) && z.attempt.todo == []
    ensures var end := Next(cfg, WithAttempt(s, k, z), Finish(k));
            && end.fleet == z.fleet && k !in end.inflight
            && end.failed == Marked(s.failed, k, z.attempt.errors != [])
            && (k in end.queued <==> k in s.queued || z.attempt.errors != [])
  {
  }

  lemma ReadMarks(cfg: Config, s: Controller, k: Request)
    requires IsTaken(s, k)
    ensures Next(cfg, s, ReadFails(k)).failed == Marked(s.failed, k, true)
    ensures Next(cfg, s, ListFails(k)).failed == s.failed
  {
  }

  lemma BeginsAttempt(cfg: Config, s: Controller, k: Request, v: nat)
    requires IsTaken(s, k) && SeenOf(s, k) <= v <= Current(s, k)
    ensures var s1 := Next(cfg, s, ReadSucceeds(k, v));
            && IsRunning(s1, k) && s1.fleet == s.fleet && s1.failed == s.failed && s1.queued == s.queued
            && s1.inflight[k].attempt == Begin(KeyOf(cfg.watcher, k), WorksFor(cfg.watcher, cfg.syncers, k, VersionAt(s, k, v)))
  {
  }

  /** An attempt that no other step interrupts is one call of Reconcile: whatever the API
      calls do, it leaves the clusters as the pass does, and marks the key as Reconcile
      does; a failed read marks it failed, and a failed List marks nothing. */
  lemma AttemptIsPass(cfg: Config, s: Controller, k: Request, v: nat, faults: Faults) returns (calls: seq<Event>)
    requires IsTaken(s, k) && SeenOf(s, k) <= v <= Current(s, k)
    ensures forall e | e in calls :: e.Call? && e.key == k
    ensures var z := Pass(s.fleet, cfg.watcher, cfg.syncers, k, VersionAt(s, k, v), faults);
            var end := Exec(cfg, s, [ReadSucceeds(k, v)] + (calls + [Finish(k)]));
            && end.fleet == z.fleet && k !in end.inflight
            && end.failed == Marked(s.failed, k, z.attempt.errors != [])
            && (k in end.queued <==> k in s.queued || z.attempt.errors != [])
    ensures Next(cfg, s, ReadFails(k)).failed == Marked(s.failed, k, true)
    ensures Next(cfg, s, ListFails(k)).failed == s.failed
  {
    var s1 := Next(cfg, s, ReadSucceeds(k, v));
    BeginsAttempt(cfg, s, k, v);
    calls := CallsRun(cfg, s1, k, faults);
    var begun := State(s.fleet, s1.inflight[k].attempt);
    RunEnds(begun, faults);
    FinishMarks(cfg, s1, k, Run(begun, faults));
    ReadMarks(cfg, s, k);
    ExecFirst(cfg, s, ReadSucceeds(k, v), calls + [Finish(k)]);
    ExecAppend(cfg, s1, calls, [Finish(k)]);
    ExecOne(cfg, WithAttempt(s1, k, Run(begun, faults)), Finish(k));
  }
}
