/** What the connection threads promise about a changing cluster: a change at the
    API is seen everywhere after TTL and one fetch, though not in order. */
module ConnectionFreshness {
  import opened Wrappers
  import opened Remotes
  import opened GkeConnections
  import opened ConnectionThreads

  type Api = map<ClusterId, GkeCluster>

  // ---- Names and clusters ----

  /** GKE names hold no slash. */
  ghost predicate SlashFreeOpens(events: seq<Event>) {
    forall i | 0 <= i < |events| :: events[i].Open? ==> SlashFree(events[i].ref)
  }

  ghost predicate SlashFreeState(s: State) {
    && (forall x | x in s.sightings :: SlashFree(RefOf(x.id)))
    && (forall th | th in s.threads :: SlashFree(s.threads[th].ref))
    && (forall i | 0 <= i < |s.transports| :: SlashFree(s.transports[i].ref))
  }

  lemma SlashFreeNext(p: Params, bound: int, s: State, e: Event)
    requires SlashFreeState(s) && (e.Open? ==> SlashFree(e.ref))
    ensures SlashFreeState(Next(p, bound, s, e))
  {
    if Enabled(s, bound, e) && e.Observe? {
      var ref := s.threads[e.thread].ref;
      assert SlashFree(ref) && RefOf(IdOf(ref)) == GkeRef(ref.project, ref.location, ref.name, "");
    }
  }

  lemma {:induction false} SlashFreeRun(p: Params, bound: int, api: Api, events: seq<Event>)
    requires SlashFreeOpens(events)
    ensures SlashFreeState(Run(p, bound, api, events))
  {
    if events != [] {
      var n := |events| - 1;
      assert forall i | 0 <= i < n :: events[..n][i] == events[i];
      SlashFreeRun(p, bound, api, events[..n]);
      SlashFreeNext(p, bound, Run(p, bound, api, events[..n]), events[n]);
    }
  }

  lemma NameIsCluster(a: GkeRef, id: ClusterId)
    requires ClusterName(Some(a)).Some? && SlashFree(a) && SlashFree(RefOf(id))
    requires ClusterName(Some(RefOf(id))) == ClusterName(Some(a))
    ensures id == IdOf(a)
  {
    ClusterNameIdentifies(a, RefOf(id));
  }

  /** With slash-free names, a request goes to a host that the API gave for the
      very cluster of its transport, trusting the CA of the same answer. */
  lemma RequestsReachTheirCluster(p: Params, bound: nat, api: Api, events: seq<Event>, i: nat)
    requires SlashFreeOpens(events) && i < |Run(p, bound, api, events).sent|
    ensures var s := Run(p, bound, api, events);
            var m := s.sent[i];
            && m.transport < |s.transports| && m.rt.Some?
            && exists x :: x in s.sightings && x.id == IdOf(s.transports[m.transport].ref)
                 && TargetOf(p, x.record, s.transports[m.transport].ref.endpoint) == Some(Target(m.host, m.rt.value.caData))
  {
    RequestsUseOneRecord(p, bound, api, events, i);
    RunKeeps(p, bound, api, events);
    SlashFreeRun(p, bound, api, events);
    var s := Run(p, bound, api, events);
    var m := s.sent[i];
    var t := s.transports[m.transport];
    assert RotatingOk(p, t, s.sightings);
    var x :| x in s.sightings && ClusterName(Some(RefOf(x.id))) == ClusterName(Some(t.ref))
             && TargetOf(p, x.record, t.ref.endpoint) == Some(Target(m.host, m.rt.value.caData));
    NameIsCluster(t.ref, x.id);
  }

  // ---- A change is picked up ----

  lemma {:induction false} SightingsArePast(p: Params, bound: int, api: Api, events: seq<Event>)
    ensures forall x | x in Run(p, bound, api, events).sightings :: x.at <= Run(p, bound, api, events).now
  {
    if events != [] {
      SightingsArePast(p, bound, api, events[..|events| - 1]);
    }
  }

  /** From event n on, the API keeps what that event set for a cluster. */
  ghost predicate LastChange(events: seq<Event>, n: nat, id: ClusterId, record: GkeCluster) {
    && n < |events| && events[n] == ApiChanges(id, record)
    && forall i | n < i < |events| :: events[i].ApiChanges? ==> events[i].id != id
  }

  ghost predicate NewSince(s: State, id: ClusterId, record: GkeCluster, since: int) {
    && id in s.api && s.api[id] == record
    && forall x | x in s.sightings && x.id == id && x.at > since :: x.record == record
  }

  lemma NextIsNew(p: Params, bound: int, s: State, e: Event, id: ClusterId, record: GkeCluster, since: int)
    requires NewSince(s, id, record, since) && !(e.ApiChanges? && e.id == id)
    ensures NewSince(Next(p, bound, s, e), id, record, since)
  {
  }

  lemma {:induction false} SightingsAreNew(p: Params, bound: int, api: Api, events: seq<Event>, n: nat, id: ClusterId,
                                           record: GkeCluster)
    requires LastChange(events, n, id, record)
    ensures NewSince(Run(p, bound, api, events), id, record, Run(p, bound, api, events[..n]).now)
  {
    var m := |events| - 1;
    if m == n {
      SightingsArePast(p, bound, api, events[..n]);
    } else {
      assert forall i | 0 <= i < m :: events[..m][i] == events[i];
      assert events[..m][..n] == events[..n];
      SightingsAreNew(p, bound, api, events[..m], n, id, record);
      NextIsNew(p, bound, Run(p, bound, api, events[..m]), events[m], id, record, Run(p, bound, api, events[..n]).now);
    }
  }

  /** A change of a cluster at the API is picked up: every record that a lookup
      returns TTL plus one fetch or more after the change is the new one, however
      many fetches overlapped it. */
  lemma ChangeIsPickedUp(p: Params, bound: nat, api: Api, events: seq<Event>, n: nat, id: ClusterId, record: GkeCluster,
                         i: nat)
    requires SlashFreeOpens(events) && LastChange(events, n, id, record) && SlashFree(RefOf(id))
    requires i < |Run(p, bound, api, events).returned|
    requires var r := Run(p, bound, api, events).returned[i];
             && Some(r.name) == ClusterName(Some(RefOf(id)))
             && r.at >= Run(p, bound, api, events[..n]).now + (if p.ttl > 0 then p.ttl else 600 * 1_000_000_000) + bound
    ensures Run(p, bound, api, events).returned[i].record == record
  {
    var s := Run(p, bound, api, events);
    var r := s.returned[i];
    ReturnedRecordsAreYoung(p, bound, api, events, i);
    SlashFreeRun(p, bound, api, events);
    SightingsAreNew(p, bound, api, events, n, id, record);
    var x :| x in s.sightings && ClusterName(Some(RefOf(x.id))) == Some(r.name) && x.record == r.record
             && x.at <= r.at < x.at + (if p.ttl > 0 then p.ttl else 600 * 1_000_000_000) + bound;
    NameIsCluster(RefOf(id), x.id);
  }

  /** A fetch that takes as long as it may, of a record that changes right away,
      and a lookup just before the cached record gets too old. */
  function SlowFetch(p: Params, bound: nat, ref: GkeRef, newer: GkeCluster): seq<Event> {
    [Open(0, ref), Observe(0), ApiChanges(IdOf(ref), newer), Tick(bound), Store(0), Tick(ClusterTtl(p) - 1), Open(1, ref)]
  }

  /** The bound is exact: one tick earlier, a lookup may still return the record
      from before the change. TTL alone is not enough as soon as a fetch takes time. */
  lemma ChangeMayBeMissedUntilThen(p: Params, bound: nat, ref: GkeRef, older: GkeCluster, newer: GkeCluster)
    requires ClusterName(Some(ref)).Some? && older != newer
    ensures var api: Api := map[IdOf(ref) := older];
            var es := SlowFetch(p, bound, ref, newer);
            var s := Run(p, bound, api, es);
            && LastChange(es, 2, IdOf(ref), newer)
            && s.returned != []
            && s.returned[|s.returned| - 1]
               == Returned(NameOf(ref), older, Run(p, bound, api, es[..2]).now
                                               + (if p.ttl > 0 then p.ttl else 600 * 1_000_000_000) + bound - 1)
  {
    var api: Api := map[IdOf(ref) := older];
    var es := SlowFetch(p, bound, ref, newer);
    SlowFetchObserved(p, bound, ref, older, newer);
    SlowFetchStored(p, bound, ref, older, newer);
    assert es[..6] == es[..5] + [Tick(ClusterTtl(p) - 1)];
    RunOneMore(p, bound, api, es[..5], Tick(ClusterTtl(p) - 1));
    assert es == es[..6] + [Open(1, ref)];
    RunOneMore(p, bound, api, es[..6], Open(1, ref));
  }

  lemma SlowFetchStored(p: Params, bound: nat, ref: GkeRef, older: GkeCluster, newer: GkeCluster)
    requires ClusterName(Some(ref)).Some?
    ensures var s := Run(p, bound, map[IdOf(ref) := older], SlowFetch(p, bound, ref, newer)[..5]);
            && s.now == bound && s.cache == map[NameOf(ref) := Cached(older, bound)]
            && s.threads == map[0 := Thread(ref, Opening, Got(older, bound))]
  {
    var api: Api := map[IdOf(ref) := older];
    var es := SlowFetch(p, bound, ref, newer);
    SlowFetchObserved(p, bound, ref, older, newer);
    assert es[..4] == es[..3] + [Tick(bound)];
    RunOneMore(p, bound, api, es[..3], Tick(bound));
    assert es[..5] == es[..4] + [Store(0)];
    RunOneMore(p, bound, api, es[..4], Store(0));
  }

  lemma SlowFetchObserved(p: Params, bound: nat, ref: GkeRef, older: GkeCluster, newer: GkeCluster)
    requires ClusterName(Some(ref)).Some?
    ensures var api: Api := map[IdOf(ref) := older];
            var es := SlowFetch(p, bound, ref, newer);
            var s := Run(p, bound, api, es[..3]);
            && Run(p, bound, api, es[..2]).now == 0 && s.now == 0 && s.cache == map[]
            && s.threads == map[0 := Thread(ref, Opening, Fetched(0, older))]
  {
    var api: Api := map[IdOf(ref) := older];
    var es := SlowFetch(p, bound, ref, newer);
    assert es[..0] == [] && es[..1] == es[..0] + [Open(0, ref)];
    RunOneMore(p, bound, api, es[..0], Open(0, ref));
    assert es[..2] == es[..1] + [Observe(0)];
    RunOneMore(p, bound, api, es[..1], Observe(0));
    assert es[..3] == es[..2] + [ApiChanges(IdOf(ref), newer)];
    RunOneMore(p, bound, api, es[..2], ApiChanges(IdOf(ref), newer));
  }

  // ---- But not in order ----

  /** Two overlapping fetches: the later answer is stored first. */
  function Overlap(ref: GkeRef, newer: GkeCluster): seq<Event> {
    [Open(0, ref), Observe(0), ApiChanges(IdOf(ref), newer), Open(1, ref), Observe(1), Store(1), Store(0)]
  }

  /** An older record can replace a newer one in the cache, with no time passing:
      versions are not monotone, only ages are bounded. */
  lemma OlderMayReplaceNewer(p: Params, bound: nat, ref: GkeRef, older: GkeCluster, newer: GkeCluster)
    requires ClusterName(Some(ref)).Some? && older != newer
    ensures var name := NameOf(ref);
            var early := Run(p, bound, map[IdOf(ref) := older], Overlap(ref, newer)[..6]);
            var late := Run(p, bound, map[IdOf(ref) := older], Overlap(ref, newer));
            && name in early.cache && early.cache[name].record == newer
            && name in late.cache && late.cache[name].record == older
            && IdOf(ref) in late.api && late.api[IdOf(ref)] == newer
  {
    var api := map[IdOf(ref) := older];
    var es := Overlap(ref, newer);
    var s1 := OverlapStart(p, bound, ref, older, newer);
    assert es[..6] == es[..5] + [Store(1)] && es == es[..6] + [Store(0)];
    RunOneMore(p, bound, api, es[..5], Store(1));
    RunOneMore(p, bound, api, es[..6], Store(0));
  }

  /** Before the stores: both fetches have their answers. */
  lemma OverlapStart(p: Params, bound: nat, ref: GkeRef, older: GkeCluster, newer: GkeCluster) returns (s: State)
    requires ClusterName(Some(ref)).Some? && older != newer
    ensures s == Run(p, bound, map[IdOf(ref) := older], Overlap(ref, newer)[..5])
    ensures s.cache == map[] && s.api == map[IdOf(ref) := newer]
    ensures s.threads == map[0 := Thread(ref, Opening, Fetched(0, older)), 1 := Thread(ref, Opening, Fetched(0, newer))]
  {
    var api := map[IdOf(ref) := older];
    var es := Overlap(ref, newer);
    assert es[..0] == [];
    s := Run(p, bound, api, es[..0]);
    assert es[..1] == es[..0] + [Open(0, ref)];
    RunOneMore(p, bound, api, es[..0], Open(0, ref));
    s := Run(p, bound, api, es[..1]);
    assert es[..2] == es[..1] + [Observe(0)];
    RunOneMore(p, bound, api, es[..1], Observe(0));
    s := Run(p, bound, api, es[..2]);
    assert es[..3] == es[..2] + [ApiChanges(IdOf(ref), newer)];
    RunOneMore(p, bound, api, es[..2], ApiChanges(IdOf(ref), newer));
    s := Run(p, bound, api, es[..3]);
    assert es[..4] == es[..3] + [Open(1, ref)];
    RunOneMore(p, bound, api, es[..3], Open(1, ref));
    s := Run(p, bound, api, es[..4]);
    assert es[..5] == es[..4] + [Observe(1)];
    RunOneMore(p, bound, api, es[..4], Observe(1));
    s := Run(p, bound, api, es[..5]);
  }
}
