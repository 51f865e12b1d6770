/** How old the settings of a request may be: bounded when threads go on promptly
    between lookup, refresh and send, and not bounded at all when one is delayed. */
module RequestFreshness {
  import opened Wrappers
  import opened Remotes
  import opened GkeConnections
  import opened ConnectionThreads
  import opened ConnectionFreshness

  /** A thread that has a record refreshes within `lag`, and one whose refresh has
      succeeded sends within `lag`. */
  predicate IsPrompt(t: Thread, now: int, lag: int) {
    match t.phase
    case Got(_, at) => now <= at + lag
    case Ready(at, refreshed) => refreshed ==> now <= at + lag
    case _ => true
  }

  ghost predicate Prompt(s: State, lag: int) {
    forall th | th in s.threads :: IsPrompt(s.threads[th], s.now, lag)
  }

  ghost predicate PromptRun(p: Params, bound: int, api: Api, events: seq<Event>, lag: int) {
    forall n | 0 <= n <= |events| :: Prompt(Run(p, bound, api, events[..n]), lag)
  }

  // ---- The invariant of prompt runs ----

  function MaxAge(p: Params, bound: int): int {
    ClusterTtl(p) + bound
  }

  /** The record was seen for the cluster of this name, after a time. */
  ghost predicate RecordSince(sightings: set<Sighting>, ref: GkeRef, record: GkeCluster, from: int) {
    exists x :: x in sightings && ClusterName(Some(RefOf(x.id))) == ClusterName(Some(ref)) && x.record == record && x.at > from
  }

  /** A record with this target was seen for the cluster, after a time. */
  ghost predicate TargetSince(p: Params, sightings: set<Sighting>, ref: GkeRef, target: Target, from: int) {
    exists x :: x in sightings && ClusterName(Some(RefOf(x.id))) == ClusterName(Some(ref))
                && TargetOf(p, x.record, ref.endpoint) == Some(target) && x.at > from
  }

  ghost predicate ThreadFresh(p: Params, bound: int, t: Thread, sightings: set<Sighting>, transports: seq<Rotating>) {
    match t.phase
    case Got(record, at) => RecordSince(sightings, t.ref, record, at - MaxAge(p, bound))
    case Ready(at, refreshed) =>
      refreshed ==> t.job.Using? && t.job.transport < |transports| && at <= transports[t.job.transport].refreshedAt
    case _ => true
  }

  ghost predicate RotatingFresh(p: Params, bound: int, lag: int, t: Rotating, sightings: set<Sighting>, now: int) {
    && t.refreshedAt <= now
    && TargetSince(p, sightings, t.ref, Target(t.used.host, t.used.caData), t.refreshedAt - lag - MaxAge(p, bound))
  }

  ghost predicate SentFresh(p: Params, bound: int, lag: int, x: Sent, sightings: set<Sighting>, transports: seq<Rotating>) {
    x.refreshed ==>
      && x.transport < |transports| && x.rt.Some?
      && TargetSince(p, sightings, transports[x.transport].ref, Target(x.host, x.rt.value.caData),
                     x.at - 2 * lag - MaxAge(p, bound))
  }

  ghost predicate FreshInv(p: Params, bound: int, lag: int, s: State) {
    && (forall th | th in s.threads :: ThreadFresh(p, bound, s.threads[th], s.sightings, s.transports))
    && (forall i | 0 <= i < |s.transports| :: RotatingFresh(p, bound, lag, s.transports[i], s.sightings, s.now))
    && (forall i | 0 <= i < |s.sent| :: SentFresh(p, bound, lag, s.sent[i], s.sightings, s.transports))
  }

  lemma BeginIsFresh(p: Params, bound: nat, lag: nat, s: State, th: nat, ref: GkeRef, job: Job)
    requires Inv(p, bound, s) && FreshInv(p, bound, lag, s) && ClusterName(Some(ref)).Some?
    ensures FreshInv(p, bound, lag, Begin(p, s, th, ref, job))
  {
    var name := NameOf(ref);
    var s' := Begin(p, s, th, ref, job);
    if Hit(p, s.cache, name, s.now).Some? {
      var c := s.cache[name];
      assert CachedOk(name, c, s.sightings, s.now, bound);
      var x :| x in s.sightings && ClusterName(Some(RefOf(x.id))) == Some(name) && x.record == c.record
               && c.fetchedAt - bound <= x.at <= c.fetchedAt;
      assert RecordSince(s.sightings, ref, c.record, s.now - MaxAge(p, bound));
    }
    assert ThreadFresh(p, bound, s'.threads[th], s'.sightings, s'.transports);
  }

  lemma ObserveIsFresh(p: Params, bound: nat, lag: nat, s: State, th: nat)
    requires FreshInv(p, bound, lag, s) && Enabled(s, bound, Observe(th))
    ensures FreshInv(p, bound, lag, Observed(s, th))
  {
    var s' := Observed(s, th);
    forall ref, record, from | RecordSince(s.sightings, ref, record, from)
      ensures RecordSince(s'.sightings, ref, record, from)
    {
      var x :| x in s.sightings && ClusterName(Some(RefOf(x.id))) == ClusterName(Some(ref)) && x.record == record && x.at > from;
      assert x in s'.sightings;
    }
    forall ref, target, from | TargetSince(p, s.sightings, ref, target, from)
      ensures TargetSince(p, s'.sightings, ref, target, from)
    {
      var x :| x in s.sightings && ClusterName(Some(RefOf(x.id))) == ClusterName(Some(ref))
               && TargetOf(p, x.record, ref.endpoint) == Some(target) && x.at > from;
      assert x in s'.sightings;
    }
  }

  lemma StoreIsFresh(p: Params, bound: nat, lag: nat, s: State, th: nat)
    requires Inv(p, bound, s) && FreshInv(p, bound, lag, s) && Enabled(s, bound, Store(th))
    ensures FreshInv(p, bound, lag, StoredBy(s, th))
  {
    var t, s' := s.threads[th], StoredBy(s, th);
    assert ThreadOk(t, s.sightings, s.transports, s.now, bound);
    var x :| x in s.sightings && ClusterName(Some(RefOf(x.id))) == Some(NameOf(t.ref)) && x.record == t.phase.record
             && t.phase.since <= x.at <= s.now;
    assert RecordSince(s.sightings, t.ref, t.phase.record, s.now - MaxAge(p, bound));
    assert ThreadFresh(p, bound, s'.threads[th], s'.sightings, s'.transports);
  }

  /** A successful refresh with a record seen recently. */
  lemma RefreshIsFresh(p: Params, used: Settings, ref: GkeRef, record: GkeCluster, builds: bool, sightings: set<Sighting>,
                       from: int)
    requires RecordSince(sightings, ref, record, from)
    requires used.rt.Some? ==> used.rt.value.caData == used.caData
    ensures var (used', failed) := Refreshed(p, used, ref.endpoint, Some(record), builds);
            !failed ==> TargetSince(p, sightings, ref, Target(used'.host, used'.caData), from)
  {
    RefreshedIs(p, used, ref.endpoint, Some(record), builds);
    var x :| x in sightings && ClusterName(Some(RefOf(x.id))) == ClusterName(Some(ref)) && x.record == record && x.at > from;
  }

  lemma TargetSinceEarlier(p: Params, sightings: set<Sighting>, ref: GkeRef, target: Target, from: int, earlier: int)
    requires TargetSince(p, sightings, ref, target, from) && earlier <= from
    ensures TargetSince(p, sightings, ref, target, earlier)
  {
    var x :| x in sightings && ClusterName(Some(RefOf(x.id))) == ClusterName(Some(ref))
             && TargetOf(p, x.record, ref.endpoint) == Some(target) && x.at > from;
  }

  /** Refreshes only move the time of a transport's last refresh forward. */
  lemma TransportsFresh(p: Params, bound: nat, lag: nat, s: State, s': State)
    requires FreshInv(p, bound, lag, s)
    requires s' == s.(transports := s'.transports, threads := s'.threads) && |s.transports| <= |s'.transports|
    requires forall i | 0 <= i < |s.transports| ::
               s'.transports[i].ref == s.transports[i].ref && s.transports[i].refreshedAt <= s'.transports[i].refreshedAt
    requires forall i | 0 <= i < |s'.transports| :: RotatingFresh(p, bound, lag, s'.transports[i], s.sightings, s.now)
    requires forall th | th in s'.threads ::
               (th in s.threads && s'.threads[th] == s.threads[th])
               || ThreadFresh(p, bound, s'.threads[th], s.sightings, s'.transports)
    ensures FreshInv(p, bound, lag, s')
  {
    forall th | th in s'.threads ensures ThreadFresh(p, bound, s'.threads[th], s'.sightings, s'.transports) {
      assert th in s.threads ==> ThreadFresh(p, bound, s.threads[th], s.sightings, s.transports);
    }
    forall i | 0 <= i < |s'.sent| ensures SentFresh(p, bound, lag, s'.sent[i], s'.sightings, s'.transports) {
      assert SentFresh(p, bound, lag, s.sent[i], s.sightings, s.transports);
    }
  }

  lemma ApplyIsFresh(p: Params, bound: nat, lag: nat, s: State, th: nat, builds: bool)
    requires Inv(p, bound, s) && FreshInv(p, bound, lag, s) && Prompt(s, lag) && Enabled(s, bound, Apply(th, builds))
    ensures FreshInv(p, bound, lag, Applied(p, s, th, builds))
  {
    var t := s.threads[th];
    assert ThreadOk(t, s.sightings, s.transports, s.now, bound);
    assert ThreadFresh(p, bound, t, s.sightings, s.transports) && IsPrompt(t, s.now, lag);
    match t.job
    case Using(i) =>
      assert RotatingOk(p, s.transports[i], s.sightings) && RotatingFresh(p, bound, lag, s.transports[i], s.sightings, s.now);
      ApplyUsing(p, bound, lag, s, th, i, builds);
    case Opening => ApplyOpening(p, bound, lag, s, th, builds);
  }

  lemma ApplyUsing(p: Params, bound: nat, lag: nat, s: State, th: nat, i: nat, builds: bool)
    requires FreshInv(p, bound, lag, s) && th in s.threads && i < |s.transports|
    requires var t := s.threads[th];
             && t.phase.Got? && t.job == Using(i) && s.transports[i].ref == t.ref && s.now - lag <= t.phase.at
             && RecordSince(s.sightings, t.ref, t.phase.record, t.phase.at - MaxAge(p, bound))
    requires s.transports[i].used.rt.Some? && s.transports[i].used.rt.value.caData == s.transports[i].used.caData
    ensures FreshInv(p, bound, lag, Applied(p, s, th, builds))
  {
    var t, s' := s.threads[th], Applied(p, s, th, builds);
    var from := t.phase.at - MaxAge(p, bound);
    assert RotatingFresh(p, bound, lag, s.transports[i], s.sightings, s.now);
    RefreshIsFresh(p, s.transports[i].used, t.ref, t.phase.record, builds, s.sightings, from);
    RefreshedIs(p, s.transports[i].used, t.ref.endpoint, Some(t.phase.record), builds);
    RotatingApplied(p, bound, lag, s, s'.transports[i], t.ref, from);
    TransportsFresh(p, bound, lag, s, s');
  }

  lemma ApplyOpening(p: Params, bound: nat, lag: nat, s: State, th: nat, builds: bool)
    requires FreshInv(p, bound, lag, s) && th in s.threads
    requires var t := s.threads[th];
             && t.phase.Got? && t.job.Opening? && s.now - lag <= t.phase.at
             && RecordSince(s.sightings, t.ref, t.phase.record, t.phase.at - MaxAge(p, bound))
    ensures FreshInv(p, bound, lag, Applied(p, s, th, builds))
  {
    var t, s' := s.threads[th], Applied(p, s, th, builds);
    var from := t.phase.at - MaxAge(p, bound);
    RefreshIsFresh(p, UNSET, t.ref, t.phase.record, builds, s.sightings, from);
    if |s'.transports| > |s.transports| {
      RotatingApplied(p, bound, lag, s, s'.transports[|s.transports|], t.ref, from);
    }
    TransportsFresh(p, bound, lag, s, s');
  }

  lemma RotatingApplied(p: Params, bound: nat, lag: nat, s: State, t: Rotating, ref: GkeRef, from: int)
    requires t.ref == ref && s.now - lag - MaxAge(p, bound) <= from
    requires RotatingFresh(p, bound, lag, t, s.sightings, s.now)
             || (t.refreshedAt == s.now && TargetSince(p, s.sightings, ref, Target(t.used.host, t.used.caData), from))
    ensures RotatingFresh(p, bound, lag, t, s.sightings, s.now)
  {
    if !RotatingFresh(p, bound, lag, t, s.sightings, s.now) {
      TargetSinceEarlier(p, s.sightings, ref, Target(t.used.host, t.used.caData), from, s.now - lag - MaxAge(p, bound));
    }
  }

  lemma SendIsFresh(p: Params, bound: nat, lag: nat, s: State, th: nat)
    requires Inv(p, bound, s) && FreshInv(p, bound, lag, s) && Prompt(s, lag) && Enabled(s, bound, Send(th))
    ensures FreshInv(p, bound, lag, SentBy(s, th))
  {
    var i := s.threads[th].job.transport;
    var t, x := s.transports[i], SentBy(s, th).sent[|s.sent|];
    assert ThreadFresh(p, bound, s.threads[th], s.sightings, s.transports) && IsPrompt(s.threads[th], s.now, lag);
    assert RotatingOk(p, t, s.sightings) && RotatingFresh(p, bound, lag, t, s.sightings, s.now);
    if x.refreshed {
      TargetSinceEarlier(p, s.sightings, t.ref, Target(t.used.host, t.used.caData), t.refreshedAt - lag - MaxAge(p, bound),
                         s.now - 2 * lag - MaxAge(p, bound));
    }
    assert SentFresh(p, bound, lag, x, s.sightings, s.transports);
  }

  lemma TickIsFresh(p: Params, bound: nat, lag: nat, s: State, dt: nat)
    requires FreshInv(p, bound, lag, s)
    ensures FreshInv(p, bound, lag, s.(now := s.now + dt))
  {
    var s' := s.(now := s.now + dt);
    forall i | 0 <= i < |s'.transports| ensures RotatingFresh(p, bound, lag, s'.transports[i], s'.sightings, s'.now) {
      assert RotatingFresh(p, bound, lag, s.transports[i], s.sightings, s.now);
    }
  }

  lemma NextIsFresh(p: Params, bound: nat, lag: nat, s: State, e: Event)
    requires Inv(p, bound, s) && FreshInv(p, bound, lag, s) && Prompt(s, lag)
    ensures FreshInv(p, bound, lag, Next(p, bound, s, e))
  {
    if Enabled(s, bound, e) {
      match e
      case Tick(dt) => TickIsFresh(p, bound, lag, s, dt);
      case ApiChanges(_, _) =>
      case Open(th, ref) => BeginIsFresh(p, bound, lag, s, th, ref, Opening);
      case Request(th, t) => BeginIsFresh(p, bound, lag, s, th, s.transports[t].ref, Using(t));
      case Observe(th) => ObserveIsFresh(p, bound, lag, s, th);
      case FetchFails(th) => TransportsFresh(p, bound, lag, s, Failed(s, th));
      case Store(th) => StoreIsFresh(p, bound, lag, s, th);
      case Apply(th, builds) => ApplyIsFresh(p, bound, lag, s, th, builds);
      case Send(th) => SendIsFresh(p, bound, lag, s, th);
    }
  }

  lemma {:induction false} RunIsFresh(p: Params, bound: nat, lag: nat, api: Api, events: seq<Event>)
    requires PromptRun(p, bound, api, events, lag)
    ensures FreshInv(p, bound, lag, Run(p, bound, api, events))
  {
    if events != [] {
      var n := |events| - 1;
      forall m | 0 <= m <= n ensures Prompt(Run(p, bound, api, events[..n][..m]), lag) {
        assert events[..n][..m] == events[..m];
      }
      RunIsFresh(p, bound, lag, api, events[..n]);
      RunKeeps(p, bound, api, events[..n]);
      NextIsFresh(p, bound, lag, Run(p, bound, api, events[..n]), events[n]);
    }
  }

  // ---- The theorems ----

  /** In a prompt run, a request whose own refresh succeeded is sent to the host,
      and trusting the CA, of a record that was at the API less than TTL plus one
      fetch plus twice the lag before, whatever other threads did to the settings. */
  lemma RefreshedRequestsAreFresh(p: Params, bound: nat, lag: nat, api: Api, events: seq<Event>, i: nat)
    requires PromptRun(p, bound, api, events, lag)
    requires i < |Run(p, bound, api, events).sent| && Run(p, bound, api, events).sent[i].refreshed
    ensures var s := Run(p, bound, api, events);
            var m := s.sent[i];
            && m.transport < |s.transports| && m.rt.Some?
            && exists x :: x in s.sightings
                 && ClusterName(Some(RefOf(x.id))) == ClusterName(Some(s.transports[m.transport].ref))
                 && TargetOf(p, x.record, s.transports[m.transport].ref.endpoint) == Some(Target(m.host, m.rt.value.caData))
                 && m.at < x.at + ClusterTtl(p) + bound + 2 * lag
  {
    RunIsFresh(p, bound, lag, api, events);
    var s := Run(p, bound, api, events);
    var m := s.sent[i];
    assert SentFresh(p, bound, lag, m, s.sightings, s.transports);
    var ref := s.transports[m.transport].ref;
    var x :| x in s.sightings && ClusterName(Some(RefOf(x.id))) == ClusterName(Some(ref))
             && TargetOf(p, x.record, ref.endpoint) == Some(Target(m.host, m.rt.value.caData))
             && x.at > m.at - 2 * lag - MaxAge(p, bound);
  }

  /** So connections follow a change: in a prompt run, every request sent TTL plus one
      fetch plus twice the lag or more after the last change of its cluster, and
      whose own refresh succeeded, goes to the new host and trusts the new CA. */
  lemma RefreshedRequestsFollowChange(p: Params, bound: nat, lag: nat, api: Api, events: seq<Event>, n: nat, id: ClusterId,
                                      record: GkeCluster, i: nat)
    requires PromptRun(p, bound, api, events, lag)
    requires SlashFreeOpens(events) && LastChange(events, n, id, record) && SlashFree(RefOf(id))
    requires i < |Run(p, bound, api, events).sent| && Run(p, bound, api, events).sent[i].refreshed
    requires var s := Run(p, bound, api, events);
             var m := s.sent[i];
             && m.transport < |s.transports| && IdOf(s.transports[m.transport].ref) == id
             && m.at >= Run(p, bound, api, events[..n]).now + ClusterTtl(p) + bound + 2 * lag
    ensures var s := Run(p, bound, api, events);
            var m := s.sent[i];
            m.rt.Some? && TargetOf(p, record, s.transports[m.transport].ref.endpoint) == Some(Target(m.host, m.rt.value.caData))
  {
    var s := Run(p, bound, api, events);
    var m := s.sent[i];
    var ref := s.transports[m.transport].ref;
    RefreshedRequestsAreFresh(p, bound, lag, api, events, i);
    RunKeeps(p, bound, api, events);
    SlashFreeRun(p, bound, api, events);
    SightingsAreNew(p, bound, api, events, n, id, record);
    assert RotatingOk(p, s.transports[m.transport], s.sightings);
    var x :| x in s.sightings && ClusterName(Some(RefOf(x.id))) == ClusterName(Some(ref))
             && TargetOf(p, x.record, ref.endpoint) == Some(Target(m.host, m.rt.value.caData))
             && m.at < x.at + ClusterTtl(p) + bound + 2 * lag;
    NameIsCluster(ref, x.id);
  }
}
