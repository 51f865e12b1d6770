/** Many threads at once: cluster lookups that release the lock during the fetch,
    and requests that refresh and use shared rotating transports, under a clock. */
module ConnectionThreads {
  import opened Wrappers
  import opened Remotes
  import opened GkeConnections

  datatype ClusterId = ClusterId(project: string, location: string, name: string)

  function IdOf(g: GkeRef): ClusterId { ClusterId(g.project, g.location, g.name) }
  function RefOf(id: ClusterId): GkeRef { GkeRef(id.project, id.location, id.name, "") }

  /** RESTConfig building a new transport, or a request on an existing one. */
  datatype Job = Opening | Using(transport: nat)

  /** Where a thread stands: its fetch is out, its fetch has read the API, it has a
      record (since when), it is about to read the settings (since when, and
      whether its own refresh succeeded). */
  datatype Phase =
    | Fetching(since: int)
    | Fetched(since: int, record: GkeCluster)
    | Got(record: GkeCluster, at: int)
    | Ready(at: int, refreshed: bool)

  datatype Thread = Thread(ref: GkeRef, job: Job, phase: Phase)

  /** A transport, its settings and the time of its last successful refresh. */
  datatype Rotating = Rotating(ref: GkeRef, used: Settings, refreshedAt: int)

  /** The API held this record at this time. */
  datatype Sighting = Sighting(id: ClusterId, record: GkeCluster, at: int)

  /** A successful `cluster` call. */
  datatype Returned = Returned(name: string, record: GkeCluster, at: int)

  /** The host and transport a request was sent with, when, and whether its own
      refresh had succeeded. */
  datatype Sent = Sent(transport: nat, host: string, rt: Option<Transport>, at: int, refreshed: bool)

  datatype State = State(
    now: int, api: map<ClusterId, GkeCluster>, sightings: set<Sighting>, cache: Cache, threads: map<nat, Thread>,
    transports: seq<Rotating>, returned: seq<Returned>, sent: seq<Sent>)

  datatype Event =
    | Tick(dt: nat)
    | ApiChanges(id: ClusterId, record: GkeCluster)
    | Open(thread: nat, ref: GkeRef)
    | Request(thread: nat, transport: nat)
    | Observe(thread: nat)
    | FetchFails(thread: nat)
    | Store(thread: nat)
    | Apply(thread: nat, builds: bool)
    | Send(thread: nat)

  function InitialState(api: map<ClusterId, GkeCluster>): State {
    State(0, api, {}, map[], map[], [], [], [])
  }

  function NameOf(g: GkeRef): string
    requires ClusterName(Some(g)).Some?
  {
    ClusterName(Some(g)).value
  }

  predicate InPhase(s: State, th: nat, want: Phase -> bool) {
    th in s.threads && want(s.threads[th].phase)
  }

  /** A fetch, from the release of the lock to its store, takes at most `bound`. */
  predicate WithinBound(t: Thread, now: int, bound: int) {
    match t.phase
    case Fetching(since) => now <= since + bound
    case Fetched(since, _) => now <= since + bound
    case _ => true
  }

  ghost predicate Enabled(s: State, bound: int, e: Event) {
    match e
    case Tick(dt) => forall th | th in s.threads :: WithinBound(s.threads[th], s.now + dt, bound)
    case ApiChanges(_, _) => true
    case Open(th, ref) => th !in s.threads && ClusterName(Some(ref)).Some?
    case Request(th, t) => th !in s.threads && t < |s.transports| && ClusterName(Some(s.transports[t].ref)).Some?
    case Observe(th) => InPhase(s, th, (x: Phase) => x.Fetching?) && IdOf(s.threads[th].ref) in s.api
    case FetchFails(th) => InPhase(s, th, (x: Phase) => x.Fetching? || x.Fetched?)
    case Store(th) => InPhase(s, th, (x: Phase) => x.Fetched?) && ClusterName(Some(s.threads[th].ref)).Some?
    case Apply(th, _) =>
      && InPhase(s, th, (x: Phase) => x.Got?)
      && (s.threads[th].job.Using? ==> s.threads[th].job.transport < |s.transports|)
    case Send(th) =>
      && InPhase(s, th, (x: Phase) => x.Ready?)
      && s.threads[th].job.Using? && s.threads[th].job.transport < |s.transports|
  }

  // ---- Steps ----

  /** The locked first part of `cluster`. */
  function Begin(p: Params, s: State, th: nat, ref: GkeRef, job: Job): State
    requires ClusterName(Some(ref)).Some?
  {
    match Hit(p, s.cache, NameOf(ref), s.now)
    case Some(record) =>
      s.(threads := s.threads[th := Thread(ref, job, Got(record, s.now))],
         returned := s.returned + [Returned(NameOf(ref), record, s.now)])
    case None => s.(threads := s.threads[th := Thread(ref, job, Fetching(s.now))])
  }

  function At(s: State, th: nat, phase: Phase): map<nat, Thread>
    requires th in s.threads
  {
    s.threads[th := s.threads[th].(phase := phase)]
  }

  /** The API answers with what it holds now. */
  function Observed(s: State, th: nat): State
    requires th in s.threads && s.threads[th].phase.Fetching? && IdOf(s.threads[th].ref) in s.api
  {
    var id := IdOf(s.threads[th].ref);
    s.(sightings := s.sightings + {Sighting(id, s.api[id], s.now)},
       threads := At(s, th, Fetched(s.threads[th].phase.since, s.api[id])))
  }

  /** A request whose lookup failed goes on with the last known settings. */
  function Failed(s: State, th: nat): State
    requires th in s.threads
  {
    if s.threads[th].job.Using? then s.(threads := At(s, th, Ready(s.now, false))) else s.(threads := s.threads - {th})
  }

  /** The locked last part of `cluster`. */
  function StoredBy(s: State, th: nat): State
    requires th in s.threads && s.threads[th].phase.Fetched? && ClusterName(Some(s.threads[th].ref)).Some?
  {
    var name, record := NameOf(s.threads[th].ref), s.threads[th].phase.record;
    s.(cache := Stored(s.cache, name, record, s.now), threads := At(s, th, Got(record, s.now)),
       returned := s.returned + [Returned(name, record, s.now)])
  }

  /** restConfig and update: on the shared settings, or on those of a new
      transport, which only exists when this succeeds. */
  function Applied(p: Params, s: State, th: nat, builds: bool): State
    requires th in s.threads && s.threads[th].phase.Got?
    requires s.threads[th].job.Using? ==> s.threads[th].job.transport < |s.transports|
  {
    var t := s.threads[th];
    match t.job
    case Using(i) =>
      var (used, failed) := Refreshed(p, s.transports[i].used, s.transports[i].ref.endpoint, Some(t.phase.record), builds);
      var refreshedAt := if failed then s.transports[i].refreshedAt else s.now;
      s.(transports := s.transports[i := s.transports[i].(used := used, refreshedAt := refreshedAt)],
         threads := At(s, th, Ready(s.now, !failed)))
    case Opening =>
      var (used, failed) := Refreshed(p, UNSET, t.ref.endpoint, Some(t.phase.record), builds);
      s.(transports := if failed then s.transports else s.transports + [Rotating(t.ref, used, s.now)], threads := s.threads - {th})
  }

  /** Reads host and transport together and sends the request. */
  function SentBy(s: State, th: nat): State
    requires th in s.threads && s.threads[th].job.Using? && s.threads[th].job.transport < |s.transports|
    requires s.threads[th].phase.Ready?
  {
    var i := s.threads[th].job.transport;
    var used, refreshed := s.transports[i].used, s.threads[th].phase.refreshed;
    s.(sent := s.sent + [Sent(i, used.host, used.rt, s.now, refreshed)], threads := s.threads - {th})
  }

  ghost function Next(p: Params, bound: int, s: State, e: Event): State {
    if !Enabled(s, bound, e) then s
    else match e
      case Tick(dt) => s.(now := s.now + dt)
      case ApiChanges(id, record) => s.(api := s.api[id := record])
      case Open(th, ref) => Begin(p, s, th, ref, Opening)
      case Request(th, t) => Begin(p, s, th, s.transports[t].ref, Using(t))
      case Observe(th) => Observed(s, th)
      case FetchFails(th) => Failed(s, th)
      case Store(th) => StoredBy(s, th)
      case Apply(th, builds) => Applied(p, s, th, builds)
      case Send(th) => SentBy(s, th)
  }

  /** Any interleaving; a step that is not possible does nothing. */
  ghost function Run(p: Params, bound: int, api: map<ClusterId, GkeCluster>, events: seq<Event>): State {
    if events == [] then InitialState(api)
    else Next(p, bound, Run(p, bound, api, events[..|events| - 1]), events[|events| - 1])
  }

  // ---- The invariant ----

  /** The record was seen at the API, for a cluster of this name, in a time span. */
  ghost predicate Seen(sightings: set<Sighting>, name: string, record: GkeCluster, from: int, to: int) {
    exists x :: x in sightings && ClusterName(Some(RefOf(x.id))) == Some(name) && x.record == record && from <= x.at <= to
  }

  ghost predicate EverSeen(sightings: set<Sighting>, name: string, record: GkeCluster) {
    exists x :: x in sightings && ClusterName(Some(RefOf(x.id))) == Some(name) && x.record == record
  }

  ghost predicate ThreadOk(t: Thread, sightings: set<Sighting>, transports: seq<Rotating>, now: int, bound: int) {
    && ClusterName(Some(t.ref)).Some? && WithinBound(t, now, bound)
    && (t.job.Using? ==> t.job.transport < |transports| && transports[t.job.transport].ref == t.ref)
    && match t.phase
       case Fetching(since) => since <= now
       case Fetched(since, record) => Seen(sightings, NameOf(t.ref), record, since, now)
       case Got(record, _) => EverSeen(sightings, NameOf(t.ref), record)
       case Ready(_, _) => t.job.Using?
  }

  ghost predicate CachedOk(name: string, c: Cached, sightings: set<Sighting>, now: int, bound: int) {
    c.fetchedAt <= now && Seen(sightings, name, c.record, c.fetchedAt - bound, c.fetchedAt)
  }

  /** Host and CA come from one record that was seen for the transport's cluster. */
  ghost predicate FromOneRecord(p: Params, sightings: set<Sighting>, ref: GkeRef, target: Target) {
    exists x :: x in sightings && ClusterName(Some(RefOf(x.id))) == ClusterName(Some(ref))
                && TargetOf(p, x.record, ref.endpoint) == Some(target)
  }

  ghost predicate SettingsOk(p: Params, ref: GkeRef, used: Settings, sightings: set<Sighting>) {
    && ClusterName(Some(ref)).Some?
    && used.rt.Some? && used.rt.value.caData == used.caData
    && FromOneRecord(p, sightings, ref, Target(used.host, used.caData))
  }

  ghost predicate RotatingOk(p: Params, t: Rotating, sightings: set<Sighting>) {
    SettingsOk(p, t.ref, t.used, sightings)
  }

  ghost predicate ReturnedOk(p: Params, r: Returned, sightings: set<Sighting>, bound: int) {
    Seen(sightings, r.name, r.record, r.at - ClusterTtl(p) - bound + 1, r.at)
  }

  ghost predicate SentOk(p: Params, x: Sent, transports: seq<Rotating>, sightings: set<Sighting>) {
    && x.transport < |transports| && x.rt.Some?
    && FromOneRecord(p, sightings, transports[x.transport].ref, Target(x.host, x.rt.value.caData))
  }

  ghost predicate Inv(p: Params, bound: int, s: State) {
    && (forall th | th in s.threads :: ThreadOk(s.threads[th], s.sightings, s.transports, s.now, bound))
    && (forall n | n in s.cache :: CachedOk(n, s.cache[n], s.sightings, s.now, bound))
    && (forall i | 0 <= i < |s.transports| :: RotatingOk(p, s.transports[i], s.sightings))
    && (forall i | 0 <= i < |s.returned| :: ReturnedOk(p, s.returned[i], s.sightings, bound))
    && (forall i | 0 <= i < |s.sent| :: SentOk(p, s.sent[i], s.transports, s.sightings))
  }

  // ---- Every step keeps it ----

  lemma BeginKeeps(p: Params, bound: nat, s: State, th: nat, ref: GkeRef, job: Job)
    requires Inv(p, bound, s) && ClusterName(Some(ref)).Some?
    requires job.Using? ==> job.transport < |s.transports| && s.transports[job.transport].ref == ref
    ensures Inv(p, bound, Begin(p, s, th, ref, job))
  {
    var name := NameOf(ref);
    var s' := Begin(p, s, th, ref, job);
    if Hit(p, s.cache, name, s.now).Some? {
      var c := s.cache[name];
      assert CachedOk(name, c, s.sightings, s.now, bound);
      var x :| x in s.sightings && ClusterName(Some(RefOf(x.id))) == Some(name) && x.record == c.record
               && c.fetchedAt - bound <= x.at <= c.fetchedAt;
      assert ReturnedOk(p, Returned(name, c.record, s.now), s'.sightings, bound);
    }
    assert ThreadOk(s'.threads[th], s'.sightings, s'.transports, s'.now, bound);
  }

  lemma MoreSightings(p: Params, bound: nat, s: State, x: Sighting)
    requires Inv(p, bound, s)
    ensures Inv(p, bound, s.(sightings := s.sightings + {x}))
  {
    var s' := s.(sightings := s.sightings + {x});
    forall n, r, from, to | Seen(s.sightings, n, r, from, to) ensures Seen(s'.sightings, n, r, from, to) {
      var y :| y in s.sightings && ClusterName(Some(RefOf(y.id))) == Some(n) && y.record == r && from <= y.at <= to;
      assert y in s'.sightings;
    }
    forall n, r | EverSeen(s.sightings, n, r) ensures EverSeen(s'.sightings, n, r) {
      var y :| y in s.sightings && ClusterName(Some(RefOf(y.id))) == Some(n) && y.record == r;
      assert y in s'.sightings;
    }
    forall ref, t | FromOneRecord(p, s.sightings, ref, t) ensures FromOneRecord(p, s'.sightings, ref, t) {
      var y :| y in s.sightings && ClusterName(Some(RefOf(y.id))) == ClusterName(Some(ref))
               && TargetOf(p, y.record, ref.endpoint) == Some(t);
      assert y in s'.sightings;
    }
  }

  lemma ObserveKeeps(p: Params, bound: nat, s: State, th: nat)
    requires Inv(p, bound, s) && Enabled(s, bound, Observe(th))
    ensures Inv(p, bound, Observed(s, th))
  {
    var t := s.threads[th];
    var id := IdOf(t.ref);
    var x := Sighting(id, s.api[id], s.now);
    MoreSightings(p, bound, s, x);
    var s' := Observed(s, th);
    assert x in s'.sightings && ClusterName(Some(RefOf(id))) == ClusterName(Some(t.ref));
    assert ThreadOk(t, s.sightings, s.transports, s.now, bound);
    assert ThreadOk(s'.threads[th], s'.sightings, s'.transports, s'.now, bound);
  }

  /** A sound record is cached and returned to its thread. */
  lemma ReturnKeeps(p: Params, bound: nat, s: State, th: nat, t: Thread, name: string, c: Cached)
    requires Inv(p, bound, s) && ThreadOk(t, s.sightings, s.transports, s.now, bound)
    requires CachedOk(name, c, s.sightings, s.now, bound) && c.fetchedAt == s.now
    ensures Inv(p, bound, s.(cache := s.cache[name := c], threads := s.threads[th := t],
                             returned := s.returned + [Returned(name, c.record, s.now)]))
  {
    var r := Returned(name, c.record, s.now);
    assert ReturnedOk(p, r, s.sightings, bound);
    forall i | 0 <= i < |s.returned + [r]| ensures ReturnedOk(p, (s.returned + [r])[i], s.sightings, bound) {
      assert i < |s.returned| ==> (s.returned + [r])[i] == s.returned[i];
    }
  }

  lemma StoreKeeps(p: Params, bound: nat, s: State, th: nat)
    requires Inv(p, bound, s) && Enabled(s, bound, Store(th))
    ensures Inv(p, bound, StoredBy(s, th))
  {
    var t := s.threads[th];
    var name, record := NameOf(t.ref), t.phase.record;
    assert ThreadOk(t, s.sightings, s.transports, s.now, bound);
    var x :| x in s.sightings && ClusterName(Some(RefOf(x.id))) == Some(name) && x.record == record
             && t.phase.since <= x.at <= s.now;
    ReturnKeeps(p, bound, s, th, t.(phase := Got(record, s.now)), name, Cached(record, s.now));
  }

  /** Settings refreshed from a seen record, from unset or sound settings. */
  lemma RefreshIsFromOneRecord(p: Params, used: Settings, ref: GkeRef, record: GkeCluster, builds: bool,
                               sightings: set<Sighting>)
    requires ClusterName(Some(ref)).Some? && EverSeen(sightings, NameOf(ref), record)
    requires used == UNSET || SettingsOk(p, ref, used, sightings)
    ensures var (used', failed) := Refreshed(p, used, ref.endpoint, Some(record), builds);
            (failed && used == UNSET) || SettingsOk(p, ref, used', sightings)
  {
    RefreshedIs(p, used, ref.endpoint, Some(record), builds);
    var x :| x in sightings && ClusterName(Some(RefOf(x.id))) == Some(NameOf(ref)) && x.record == record;
  }

  lemma ApplyKeeps(p: Params, bound: nat, s: State, th: nat, builds: bool)
    requires Inv(p, bound, s) && Enabled(s, bound, Apply(th, builds))
    ensures Inv(p, bound, Applied(p, s, th, builds))
  {
    var t := s.threads[th];
    assert ThreadOk(t, s.sightings, s.transports, s.now, bound);
    var s' := Applied(p, s, th, builds);
    match t.job
    case Using(i) =>
      assert RotatingOk(p, s.transports[i], s.sightings);
      RefreshIsFromOneRecord(p, s.transports[i].used, t.ref, t.phase.record, builds, s.sightings);
      TransportsKeep(p, bound, s, s');
    case Opening =>
      RefreshIsFromOneRecord(p, UNSET, t.ref, t.phase.record, builds, s.sightings);
      TransportsKeep(p, bound, s, s');
  }

  /** Changing settings soundly, and adding transports, disturbs nothing else. */
  lemma TransportsKeep(p: Params, bound: nat, s: State, s': State)
    requires Inv(p, bound, s)
    requires s' == s.(transports := s'.transports, threads := s'.threads)
    requires |s.transports| <= |s'.transports|
    requires forall i | 0 <= i < |s.transports| :: s'.transports[i].ref == s.transports[i].ref
    requires forall i | 0 <= i < |s'.transports| :: RotatingOk(p, s'.transports[i], s.sightings)
    requires forall th | th in s'.threads :: th in s.threads && (s'.threads[th] == s.threads[th]
               || (s.threads[th].job.Using? && s'.threads[th].phase.Ready?
                   && s'.threads[th] == s.threads[th].(phase := s'.threads[th].phase)))
    ensures Inv(p, bound, s')
  {
    forall th | th in s'.threads ensures ThreadOk(s'.threads[th], s'.sightings, s'.transports, s'.now, bound) {
      assert ThreadOk(s.threads[th], s.sightings, s.transports, s.now, bound);
    }
    forall i | 0 <= i < |s'.sent| ensures SentOk(p, s'.sent[i], s'.transports, s'.sightings) {
      assert SentOk(p, s.sent[i], s.transports, s.sightings);
    }
  }

  lemma SendKeeps(p: Params, bound: nat, s: State, th: nat)
    requires Inv(p, bound, s) && Enabled(s, bound, Send(th))
    ensures Inv(p, bound, SentBy(s, th))
  {
    var i := s.threads[th].job.transport;
    assert RotatingOk(p, s.transports[i], s.sightings);
    var sent := SentBy(s, th).sent;
    assert SentOk(p, sent[|sent| - 1], s.transports, s.sightings);
  }

  lemma TickKeeps(p: Params, bound: nat, s: State, dt: nat)
    requires Inv(p, bound, s) && Enabled(s, bound, Tick(dt))
    ensures Inv(p, bound, s.(now := s.now + dt))
  {
    var s' := s.(now := s.now + dt);
    forall th | th in s'.threads ensures ThreadOk(s'.threads[th], s'.sightings, s'.transports, s'.now, bound) {
      var t := s.threads[th];
      assert ThreadOk(t, s.sightings, s.transports, s.now, bound);
      if t.phase.Fetched? {
        var x :| x in s.sightings && ClusterName(Some(RefOf(x.id))) == Some(NameOf(t.ref)) && x.record == t.phase.record
                 && t.phase.since <= x.at <= s.now;
      }
    }
    forall n | n in s'.cache ensures CachedOk(n, s'.cache[n], s'.sightings, s'.now, bound) {
      assert CachedOk(n, s.cache[n], s.sightings, s.now, bound);
    }
  }

  lemma NextKeeps(p: Params, bound: nat, s: State, e: Event)
    requires Inv(p, bound, s)
    ensures Inv(p, bound, Next(p, bound, s, e))
  {
    if Enabled(s, bound, e) {
      match e
      case Tick(dt) => TickKeeps(p, bound, s, dt);
      case ApiChanges(_, _) =>
      case Open(th, ref) => BeginKeeps(p, bound, s, th, ref, Opening);
      case Request(th, t) => BeginKeeps(p, bound, s, th, s.transports[t].ref, Using(t));
      case Observe(th) => ObserveKeeps(p, bound, s, th);
      case FetchFails(th) => TransportsKeep(p, bound, s, Failed(s, th));
      case Store(th) => StoreKeeps(p, bound, s, th);
      case Apply(th, builds) => ApplyKeeps(p, bound, s, th, builds);
      case Send(th) => SendKeeps(p, bound, s, th);
    }
  }

  lemma {:induction false} RunKeeps(p: Params, bound: nat, api: map<ClusterId, GkeCluster>, events: seq<Event>)
    ensures Inv(p, bound, Run(p, bound, api, events))
  {
    if events != [] {
      RunKeeps(p, bound, api, events[..|events| - 1]);
      NextKeeps(p, bound, Run(p, bound, api, events[..|events| - 1]), events[|events| - 1]);
    }
  }

  // ---- The theorems ----

  /** Bounded age: whatever the interleaving, a record that `cluster` returned was
      at the API less than TTL, ten minutes unless it is overridden, plus the bound of
      one fetch before. Times are in nanoseconds. */
  lemma ReturnedRecordsAreYoung(p: Params, bound: nat, api: map<ClusterId, GkeCluster>, events: seq<Event>, i: nat)
    requires i < |Run(p, bound, api, events).returned|
    ensures var s := Run(p, bound, api, events);
            var r := s.returned[i];
            exists x :: x in s.sightings && ClusterName(Some(RefOf(x.id))) == Some(r.name) && x.record == r.record
                        && x.at <= r.at < x.at + (if p.ttl > 0 then p.ttl else 600 * 1_000_000_000) + bound
  {
    RunKeeps(p, bound, api, events);
    var s := Run(p, bound, api, events);
    var r := s.returned[i];
    assert ReturnedOk(p, r, s.sightings, bound);
    var x :| x in s.sightings && ClusterName(Some(RefOf(x.id))) == Some(r.name) && x.record == r.record
             && r.at - ClusterTtl(p) - bound + 1 <= x.at <= r.at;
  }

  /** No request is ever sent without a transport, or to one record's host with
      another record's CA: host and trusted CA are those of a single record, seen
      for the transport's own cluster at its own endpoint. */
  lemma RequestsUseOneRecord(p: Params, bound: nat, api: map<ClusterId, GkeCluster>, events: seq<Event>, i: nat)
    requires i < |Run(p, bound, api, events).sent|
    ensures var s := Run(p, bound, api, events);
            var m := s.sent[i];
            && m.transport < |s.transports| && m.rt.Some?
            && exists x :: x in s.sightings
                 && ClusterName(Some(RefOf(x.id))) == ClusterName(Some(s.transports[m.transport].ref))
                 && TargetOf(p, x.record, s.transports[m.transport].ref.endpoint) == Some(Target(m.host, m.rt.value.caData))
  {
    RunKeeps(p, bound, api, events);
    var s := Run(p, bound, api, events);
    assert SentOk(p, s.sent[i], s.transports, s.sightings);
  }

  lemma FetchedAtGrows(p: Params, bound: nat, s: State, e: Event, name: string)
    requires Inv(p, bound, s) && name in s.cache
    ensures name in Next(p, bound, s, e).cache && s.cache[name].fetchedAt <= Next(p, bound, s, e).cache[name].fetchedAt
  {
    assert CachedOk(name, s.cache[name], s.sightings, s.now, bound);
  }

  /** The stored fetch time of a cluster never decreases. */
  lemma {:induction false} FetchedAtNeverDecreases(p: Params, bound: nat, api: map<ClusterId, GkeCluster>,
                                                   events: seq<Event>, n: nat, name: string)
    requires n <= |events| && name in Run(p, bound, api, events[..n]).cache
    ensures name in Run(p, bound, api, events).cache
    ensures Run(p, bound, api, events[..n]).cache[name].fetchedAt <= Run(p, bound, api, events).cache[name].fetchedAt
    decreases |events| - n
  {
    if n == |events| {
      assert events[..n] == events;
    } else {
      assert events[..n + 1][..n] == events[..n];
      RunKeeps(p, bound, api, events[..n]);
      FetchedAtGrows(p, bound, Run(p, bound, api, events[..n]), events[n], name);
      FetchedAtNeverDecreases(p, bound, api, events, n + 1, name);
    }
  }

  lemma RunOneMore(p: Params, bound: int, api: map<ClusterId, GkeCluster>, events: seq<Event>, e: Event)
    ensures Run(p, bound, api, events + [e]) == Next(p, bound, Run(p, bound, api, events), e)
  {
    assert (events + [e])[..|events|] == events;
  }

  lemma FallsBack(p: Params, bound: nat, s: State, th: nat)
    requires Inv(p, bound, s) && th in s.threads && s.threads[th].job.Using?
    requires s.threads[th].phase.Fetching? || s.threads[th].phase.Fetched?
    ensures var after := Next(p, bound, Next(p, bound, s, FetchFails(th)), Send(th));
            var i := s.threads[th].job.transport;
            && i < |s.transports| && s.transports[i].used.rt.Some?
            && after.sent == s.sent + [Sent(i, s.transports[i].used.host, s.transports[i].used.rt, s.now, false)]
            && after.transports == s.transports && after.cache == s.cache && after.threads == s.threads - {th}
  {
    assert ThreadOk(s.threads[th], s.sightings, s.transports, s.now, bound);
    assert RotatingOk(p, s.transports[s.threads[th].job.transport], s.sightings);
    assert s.threads[th := s.threads[th].(phase := Ready(s.now, false))] - {th} == s.threads - {th};
  }

  /** Fallback: a request whose lookup fails, before or after the API has answered, is
      sent with the settings its transport has by then, and so never without a transport. */
  lemma FailedLookupsFallBack(p: Params, bound: nat, api: map<ClusterId, GkeCluster>, events: seq<Event>, th: nat)
    requires var s := Run(p, bound, api, events);
             && th in s.threads && s.threads[th].job.Using? && (s.threads[th].phase.Fetching? || s.threads[th].phase.Fetched?)
    ensures var s, after := Run(p, bound, api, events), Run(p, bound, api, events + [FetchFails(th)] + [Send(th)]);
            var i := s.threads[th].job.transport;
            && i < |s.transports| && s.transports[i].used.rt.Some?
            && after.sent == s.sent + [Sent(i, s.transports[i].used.host, s.transports[i].used.rt, s.now, false)]
            && after.transports == s.transports && after.cache == s.cache && after.threads == s.threads - {th}
  {
    RunKeeps(p, bound, api, events);
    FallsBack(p, bound, Run(p, bound, api, events), th);
    RunOneMore(p, bound, api, events, FetchFails(th));
    RunOneMore(p, bound, api, events + [FetchFails(th)], Send(th));
  }
}
