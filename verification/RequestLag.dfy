/** Runs that show the bounds on the age of a request's settings to be exact. */
module RequestLag {
  import opened Wrappers
  import opened Remotes
  import opened GkeConnections
  import opened ConnectionThreads
  import opened ConnectionFreshness
  import opened RequestFreshness

  lemma Extend(p: Params, bound: int, api: Api, events: seq<Event>, n: nat)
    requires n < |events|
    ensures Run(p, bound, api, events[..n + 1]) == Next(p, bound, Run(p, bound, api, events[..n]), events[n])
  {
    assert events[..n + 1] == events[..n] + [events[n]];
    RunOneMore(p, bound, api, events[..n], events[n]);
  }

  function First(t: Target): Settings {
    Settings(t.host, t.caData, Some(Transport(t.caData, 0)), 1)
  }

  /** The parts of a state that the runs below depend on. */
  ghost predicate Looks(s: State, now: int, api: Api, cache: Cache, threads: map<nat, Thread>, transports: seq<Rotating>) {
    s.now == now && s.api == api && s.cache == cache && s.threads == threads && s.transports == transports && s.sent == []
  }

  /** One transport, opened with the old record. */
  function Opened(p: Params, ref: GkeRef, older: GkeCluster, at: int): seq<Rotating>
    requires TargetOf(p, older, ref.endpoint).Some?
  {
    [Rotating(ref, First(TargetOf(p, older, ref.endpoint).value), at)]
  }

  lemma RunStart(p: Params, bound: int, api: Api, events: seq<Event>)
    ensures Looks(Run(p, bound, api, events[..0]), 0, api, map[], map[], [])
  {
    assert events[..0] == [];
  }

  lemma FirstRefresh(p: Params, endpoint: string, c: GkeCluster)
    requires TargetOf(p, c, endpoint).Some?
    ensures Refreshed(p, UNSET, endpoint, Some(c), true) == (First(TargetOf(p, c, endpoint).value), false)
    ensures Refreshed(p, First(TargetOf(p, c, endpoint).value), endpoint, Some(c), true)
            == (First(TargetOf(p, c, endpoint).value), false)
  {
  }

  lemma SwitchRefresh(p: Params, used: Settings, endpoint: string, c: GkeCluster)
    requires TargetOf(p, c, endpoint).Some? && Target(used.host, used.caData) != TargetOf(p, c, endpoint).value
    ensures var t := TargetOf(p, c, endpoint).value;
            Refreshed(p, used, endpoint, Some(c), true)
            == (Settings(t.host, t.caData, Some(Transport(t.caData, used.built)), used.built + 1), false)
  {
  }

  // ---- A delayed thread sets the settings back ----

  /** Request 1 gets the old record and is delayed; the cluster changes; request 2
      looks the cluster up, refreshes, and sends after request 1 has refreshed. */
  function DelayedRefresh(ref: GkeRef, newer: GkeCluster, delay: nat): seq<Event> {
    [Open(0, ref), Observe(0), Store(0), Apply(0, true), Request(1, 0), ApiChanges(IdOf(ref), newer), Tick(delay),
     Request(2, 0), Observe(2), Store(2), Apply(2, true), Apply(1, true), Send(2)]
  }

  /** Without a bound on the delay of threads nothing bounds the age of settings: any
      time after a change, however long, a request whose own lookup returned the new
      record and whose own refresh succeeded can be sent to the old host, trusting
      the old CA, because another thread refreshed with its older record in between. */
  lemma SettingsCanBeSetBack(p: Params, bound: nat, ref: GkeRef, older: GkeCluster, newer: GkeCluster, delay: nat)
    requires ClusterName(Some(ref)).Some? && delay >= ClusterTtl(p)
    requires TargetOf(p, older, ref.endpoint).Some? && TargetOf(p, newer, ref.endpoint).Some?
    requires TargetOf(p, older, ref.endpoint) != TargetOf(p, newer, ref.endpoint)
    ensures var es := DelayedRefresh(ref, newer, delay);
            var s := Run(p, bound, map[IdOf(ref) := older], es);
            var t := TargetOf(p, older, ref.endpoint).value;
            && LastChange(es, 5, IdOf(ref), newer)
            && Run(p, bound, map[IdOf(ref) := older], es[..5]).now == 0
            && s.returned != [] && s.returned[|s.returned| - 1] == Returned(NameOf(ref), newer, delay)
            && s.sent == [Sent(0, t.host, Some(Transport(t.caData, 2)), delay, true)]
  {
    var api: Api := map[IdOf(ref) := older];
    var es := DelayedRefresh(ref, newer, delay);
    DelayedRefreshStart(p, bound, ref, older, newer, delay);
    DelayedRefreshSetBack(p, bound, ref, older, newer, delay);
    DelayedRefreshChange(ref, newer, delay);
    assert es[..13] == es;
    Extend(p, bound, api, es, 12);
    SentFrom(p, bound, Run(p, bound, api, es[..12]), 2);
  }

  lemma DelayedRefreshChange(ref: GkeRef, newer: GkeCluster, delay: nat)
    ensures LastChange(DelayedRefresh(ref, newer, delay), 5, IdOf(ref), newer)
  {
  }

  /** Both threads have refreshed, the one with the older record last. */
  lemma DelayedRefreshSetBack(p: Params, bound: nat, ref: GkeRef, older: GkeCluster, newer: GkeCluster, delay: nat)
    requires ClusterName(Some(ref)).Some? && delay >= ClusterTtl(p)
    requires TargetOf(p, older, ref.endpoint).Some? && TargetOf(p, newer, ref.endpoint).Some?
    requires TargetOf(p, older, ref.endpoint) != TargetOf(p, newer, ref.endpoint)
    ensures var s := Run(p, bound, map[IdOf(ref) := older], DelayedRefresh(ref, newer, delay)[..12]);
            var t := TargetOf(p, older, ref.endpoint).value;
            && s.now == delay && s.sent == [] && 2 in s.threads && s.threads[2] == Thread(ref, Using(0), Ready(delay, true))
            && |s.transports| == 1 && s.transports[0].used == Settings(t.host, t.caData, Some(Transport(t.caData, 2)), 3)
            && s.returned != [] && s.returned[|s.returned| - 1] == Returned(NameOf(ref), newer, delay)
  {
    var api: Api := map[IdOf(ref) := older];
    var es := DelayedRefresh(ref, newer, delay);
    var t, t' := TargetOf(p, older, ref.endpoint).value, TargetOf(p, newer, ref.endpoint).value;
    DelayedRefreshMiddle(p, bound, ref, older, newer, delay);
    var s10 := Run(p, bound, api, es[..10]);
    Extend(p, bound, api, es, 10);
    SwitchRefresh(p, First(t), ref.endpoint, newer);
    AppliedBy(p, bound, s10, 2, t', 1);
    var s11 := Run(p, bound, api, es[..11]);
    Extend(p, bound, api, es, 11);
    SwitchRefresh(p, s11.transports[0].used, ref.endpoint, older);
    AppliedBy(p, bound, s11, 1, t, 2);
  }

  /** A thread switches the only transport to a target. */
  lemma AppliedBy(p: Params, bound: nat, s: State, th: nat, t: Target, serial: nat)
    requires th in s.threads && s.threads[th].job == Using(0) && s.threads[th].phase.Got? && |s.transports| == 1
    requires Refreshed(p, s.transports[0].used, s.transports[0].ref.endpoint, Some(s.threads[th].phase.record), true)
             == (Settings(t.host, t.caData, Some(Transport(t.caData, serial)), serial + 1), false)
    ensures Next(p, bound, s, Apply(th, true))
            == s.(transports := [Rotating(s.transports[0].ref,
                                          Settings(t.host, t.caData, Some(Transport(t.caData, serial)), serial + 1), s.now)],
                  threads := s.threads[th := s.threads[th].(phase := Ready(s.now, true))])
  {
  }

  lemma SentFrom(p: Params, bound: nat, s: State, th: nat)
    requires th in s.threads && s.threads[th].job == Using(0) && s.threads[th].phase.Ready? && |s.transports| == 1
    ensures Next(p, bound, s, Send(th))
            == s.(sent := s.sent + [Sent(0, s.transports[0].used.host, s.transports[0].used.rt, s.now,
                                         s.threads[th].phase.refreshed)],
                  threads := s.threads - {th})
  {
  }

  lemma DelayedRefreshStored(p: Params, bound: nat, ref: GkeRef, older: GkeCluster, newer: GkeCluster, delay: nat)
    requires ClusterName(Some(ref)).Some?
    ensures Looks(Run(p, bound, map[IdOf(ref) := older], DelayedRefresh(ref, newer, delay)[..3]), 0, map[IdOf(ref) := older],
                  map[NameOf(ref) := Cached(older, 0)], map[0 := Thread(ref, Opening, Got(older, 0))], [])
  {
    var api: Api := map[IdOf(ref) := older];
    var es := DelayedRefresh(ref, newer, delay);
    RunStart(p, bound, api, es);
    Extend(p, bound, api, es, 0);
    Extend(p, bound, api, es, 1);
    Extend(p, bound, api, es, 2);
  }

  lemma DelayedRefreshStart(p: Params, bound: nat, ref: GkeRef, older: GkeCluster, newer: GkeCluster, delay: nat)
    requires ClusterName(Some(ref)).Some? && TargetOf(p, older, ref.endpoint).Some?
    ensures Looks(Run(p, bound, map[IdOf(ref) := older], DelayedRefresh(ref, newer, delay)[..5]), 0, map[IdOf(ref) := older],
                  map[NameOf(ref) := Cached(older, 0)], map[1 := Thread(ref, Using(0), Got(older, 0))],
                  Opened(p, ref, older, 0))
  {
    var api: Api := map[IdOf(ref) := older];
    var es := DelayedRefresh(ref, newer, delay);
    DelayedRefreshStored(p, bound, ref, older, newer, delay);
    Extend(p, bound, api, es, 3);
    Extend(p, bound, api, es, 4);
  }

  lemma DelayedRefreshWaited(p: Params, bound: nat, ref: GkeRef, older: GkeCluster, newer: GkeCluster, delay: nat)
    requires ClusterName(Some(ref)).Some? && TargetOf(p, older, ref.endpoint).Some?
    ensures Looks(Run(p, bound, map[IdOf(ref) := older], DelayedRefresh(ref, newer, delay)[..7]), delay,
                  map[IdOf(ref) := newer], map[NameOf(ref) := Cached(older, 0)],
                  map[1 := Thread(ref, Using(0), Got(older, 0))], Opened(p, ref, older, 0))
  {
    var api: Api := map[IdOf(ref) := older];
    var es := DelayedRefresh(ref, newer, delay);
    DelayedRefreshStart(p, bound, ref, older, newer, delay);
    Extend(p, bound, api, es, 5);
    Extend(p, bound, api, es, 6);
  }

  lemma DelayedRefreshLater(p: Params, bound: nat, ref: GkeRef, older: GkeCluster, newer: GkeCluster, delay: nat)
    requires ClusterName(Some(ref)).Some? && delay >= ClusterTtl(p) && TargetOf(p, older, ref.endpoint).Some?
    ensures Looks(Run(p, bound, map[IdOf(ref) := older], DelayedRefresh(ref, newer, delay)[..8]), delay,
                  map[IdOf(ref) := newer], map[NameOf(ref) := Cached(older, 0)],
                  map[1 := Thread(ref, Using(0), Got(older, 0)), 2 := Thread(ref, Using(0), Fetching(delay))],
                  Opened(p, ref, older, 0))
  {
    var api: Api := map[IdOf(ref) := older];
    var es := DelayedRefresh(ref, newer, delay);
    DelayedRefreshWaited(p, bound, ref, older, newer, delay);
    Extend(p, bound, api, es, 7);
  }

  lemma DelayedRefreshMiddle(p: Params, bound: nat, ref: GkeRef, older: GkeCluster, newer: GkeCluster, delay: nat)
    requires ClusterName(Some(ref)).Some? && delay >= ClusterTtl(p) && TargetOf(p, older, ref.endpoint).Some?
    ensures var s := Run(p, bound, map[IdOf(ref) := older], DelayedRefresh(ref, newer, delay)[..10]);
            && Looks(s, delay, map[IdOf(ref) := newer], map[NameOf(ref) := Cached(newer, delay)],
                     map[1 := Thread(ref, Using(0), Got(older, 0)), 2 := Thread(ref, Using(0), Got(newer, delay))],
                     Opened(p, ref, older, 0))
            && s.returned != [] && s.returned[|s.returned| - 1] == Returned(NameOf(ref), newer, delay)
  {
    var api: Api := map[IdOf(ref) := older];
    var es := DelayedRefresh(ref, newer, delay);
    DelayedRefreshLater(p, bound, ref, older, newer, delay);
    Extend(p, bound, api, es, 8);
    Extend(p, bound, api, es, 9);
  }

  // ---- The bound for prompt runs is exact ----

  /** Every step takes as long as it may. */
  function SlowRequest(p: Params, bound: nat, lag: nat, ref: GkeRef, newer: GkeCluster): seq<Event> {
    [Open(0, ref), Observe(0), ApiChanges(IdOf(ref), newer), Tick(bound), Store(0), Apply(0, true),
     Tick(ClusterTtl(p) - 1), Request(1, 0), Tick(lag), Apply(1, true), Tick(lag), Send(1)]
  }

  /** After n steps the run looks like this, and is prompt. */
  ghost predicate After(p: Params, bound: nat, lag: nat, ref: GkeRef, older: GkeCluster, newer: GkeCluster, n: nat, now: int,
                        api: Api, cache: Cache, threads: map<nat, Thread>, transports: seq<Rotating>)
    requires n <= 12
  {
    var s := Run(p, bound, map[IdOf(ref) := older], SlowRequest(p, bound, lag, ref, newer)[..n]);
    Looks(s, now, api, cache, threads, transports) && Prompt(s, lag)
  }

  /** The bound of RefreshedRequestsFollowChange is exact: in this prompt run a request
      is sent one tick earlier, its own refresh has succeeded, and it goes to the
      old host. */
  lemma RequestBoundIsExact(p: Params, bound: nat, lag: nat, ref: GkeRef, older: GkeCluster, newer: GkeCluster)
    requires ClusterName(Some(ref)).Some? && TargetOf(p, older, ref.endpoint).Some?
    ensures var api: Api := map[IdOf(ref) := older];
            var es := SlowRequest(p, bound, lag, ref, newer);
            var t := TargetOf(p, older, ref.endpoint).value;
            && PromptRun(p, bound, api, es, lag) && LastChange(es, 2, IdOf(ref), newer)
            && Run(p, bound, api, es).sent
               == [Sent(0, t.host, Some(Transport(t.caData, 0)),
                        Run(p, bound, api, es[..2]).now + ClusterTtl(p) + bound + 2 * lag - 1, true)]
  {
    var api: Api := map[IdOf(ref) := older];
    var es := SlowRequest(p, bound, lag, ref, newer);
    ApiRead(p, bound, lag, ref, older, newer);
    SentLate(p, bound, lag, ref, older, newer);
    assert es[..12] == es;
    forall n | 0 <= n <= 12 ensures Prompt(Run(p, bound, api, es[..n]), lag) {
      if n < 6 {
        PromptAtFirst(p, bound, lag, ref, older, newer, n);
      } else {
        PromptLater(p, bound, lag, ref, older, newer, n);
      }
    }
  }

  lemma PromptAtFirst(p: Params, bound: nat, lag: nat, ref: GkeRef, older: GkeCluster, newer: GkeCluster, n: nat)
    requires ClusterName(Some(ref)).Some? && n < 6
    ensures Prompt(Run(p, bound, map[IdOf(ref) := older], SlowRequest(p, bound, lag, ref, newer)[..n]), lag)
  {
    if n == 0 {
      AtStart(p, bound, lag, ref, older, newer);
    } else if n == 1 {
      OpenSent(p, bound, lag, ref, older, newer);
    } else if n == 2 {
      ApiRead(p, bound, lag, ref, older, newer);
    } else if n == 3 {
      ApiChanged(p, bound, lag, ref, older, newer);
    } else if n == 4 {
      FetchDelayed(p, bound, lag, ref, older, newer);
    } else {
      OldStored(p, bound, lag, ref, older, newer);
    }
  }

  lemma PromptLater(p: Params, bound: nat, lag: nat, ref: GkeRef, older: GkeCluster, newer: GkeCluster, n: nat)
    requires ClusterName(Some(ref)).Some? && TargetOf(p, older, ref.endpoint).Some? && 6 <= n <= 12
    ensures Prompt(Run(p, bound, map[IdOf(ref) := older], SlowRequest(p, bound, lag, ref, newer)[..n]), lag)
  {
    if n == 6 {
      OldOpened(p, bound, lag, ref, older, newer);
    } else if n == 7 {
      AlmostStale(p, bound, lag, ref, older, newer);
    } else if n == 8 {
      StillHit(p, bound, lag, ref, older, newer);
    } else if n == 9 {
      RefreshDelayed(p, bound, lag, ref, older, newer);
    } else if n == 10 {
      OldRefreshed(p, bound, lag, ref, older, newer);
    } else if n == 11 {
      SendDelayed(p, bound, lag, ref, older, newer);
    } else {
      SentLate(p, bound, lag, ref, older, newer);
    }
  }

  /** The last time at which the record stored at `bound` is still a hit. */
  function LastHit(p: Params, bound: nat): int { bound + ClusterTtl(p) - 1 }

  function Changed(ref: GkeRef, newer: GkeCluster): Api { map[IdOf(ref) := newer] }

  function StoredLate(ref: GkeRef, older: GkeCluster, bound: nat): Cache
    requires ClusterName(Some(ref)).Some?
  {
    map[NameOf(ref) := Cached(older, bound)]
  }

  lemma AtStart(p: Params, bound: nat, lag: nat, ref: GkeRef, older: GkeCluster, newer: GkeCluster)
    requires ClusterName(Some(ref)).Some?
    ensures After(p, bound, lag, ref, older, newer, 0, 0, map[IdOf(ref) := older], map[],
                  map[], [])
  {
    var api: Api := map[IdOf(ref) := older];
    var es := SlowRequest(p, bound, lag, ref, newer);
    RunStart(p, bound, api, es);
  }

  lemma OpenSent(p: Params, bound: nat, lag: nat, ref: GkeRef, older: GkeCluster, newer: GkeCluster)
    requires ClusterName(Some(ref)).Some?
    ensures After(p, bound, lag, ref, older, newer, 1, 0, map[IdOf(ref) := older], map[],
                  map[0 := Thread(ref, Opening, Fetching(0))], [])
  {
    var api: Api := map[IdOf(ref) := older];
    var es := SlowRequest(p, bound, lag, ref, newer);
    AtStart(p, bound, lag, ref, older, newer);
    Extend(p, bound, api, es, 0);
  }

  lemma ApiRead(p: Params, bound: nat, lag: nat, ref: GkeRef, older: GkeCluster, newer: GkeCluster)
    requires ClusterName(Some(ref)).Some?
    ensures After(p, bound, lag, ref, older, newer, 2, 0, map[IdOf(ref) := older], map[],
                  map[0 := Thread(ref, Opening, Fetched(0, older))], [])
  {
    var api: Api := map[IdOf(ref) := older];
    var es := SlowRequest(p, bound, lag, ref, newer);
    OpenSent(p, bound, lag, ref, older, newer);
    Extend(p, bound, api, es, 1);
  }

  lemma ApiChanged(p: Params, bound: nat, lag: nat, ref: GkeRef, older: GkeCluster, newer: GkeCluster)
    requires ClusterName(Some(ref)).Some?
    ensures After(p, bound, lag, ref, older, newer, 3, 0, Changed(ref, newer), map[],
                  map[0 := Thread(ref, Opening, Fetched(0, older))], [])
  {
    var api: Api := map[IdOf(ref) := older];
    var es := SlowRequest(p, bound, lag, ref, newer);
    ApiRead(p, bound, lag, ref, older, newer);
    Extend(p, bound, api, es, 2);
  }

  lemma FetchDelayed(p: Params, bound: nat, lag: nat, ref: GkeRef, older: GkeCluster, newer: GkeCluster)
    requires ClusterName(Some(ref)).Some?
    ensures After(p, bound, lag, ref, older, newer, 4, bound, Changed(ref, newer), map[],
                  map[0 := Thread(ref, Opening, Fetched(0, older))], [])
  {
    var api: Api := map[IdOf(ref) := older];
    var es := SlowRequest(p, bound, lag, ref, newer);
    ApiChanged(p, bound, lag, ref, older, newer);
    Extend(p, bound, api, es, 3);
  }

  lemma OldStored(p: Params, bound: nat, lag: nat, ref: GkeRef, older: GkeCluster, newer: GkeCluster)
    requires ClusterName(Some(ref)).Some?
    ensures After(p, bound, lag, ref, older, newer, 5, bound, Changed(ref, newer), StoredLate(ref, older, bound),
                  map[0 := Thread(ref, Opening, Got(older, bound))], [])
  {
    var api: Api := map[IdOf(ref) := older];
    var es := SlowRequest(p, bound, lag, ref, newer);
    FetchDelayed(p, bound, lag, ref, older, newer);
    Extend(p, bound, api, es, 4);
  }

  lemma OldOpened(p: Params, bound: nat, lag: nat, ref: GkeRef, older: GkeCluster, newer: GkeCluster)
    requires ClusterName(Some(ref)).Some? && TargetOf(p, older, ref.endpoint).Some?
    ensures After(p, bound, lag, ref, older, newer, 6, bound, Changed(ref, newer), StoredLate(ref, older, bound),
                  map[], Opened(p, ref, older, bound))
  {
    var api: Api := map[IdOf(ref) := older];
    var es := SlowRequest(p, bound, lag, ref, newer);
    OldStored(p, bound, lag, ref, older, newer);
    FirstRefresh(p, ref.endpoint, older);
    Extend(p, bound, api, es, 5);
  }

  lemma AlmostStale(p: Params, bound: nat, lag: nat, ref: GkeRef, older: GkeCluster, newer: GkeCluster)
    requires ClusterName(Some(ref)).Some? && TargetOf(p, older, ref.endpoint).Some?
    ensures After(p, bound, lag, ref, older, newer, 7, LastHit(p, bound), Changed(ref, newer), StoredLate(ref, older, bound),
                  map[], Opened(p, ref, older, bound))
  {
    var api: Api := map[IdOf(ref) := older];
    var es := SlowRequest(p, bound, lag, ref, newer);
    OldOpened(p, bound, lag, ref, older, newer);
    Extend(p, bound, api, es, 6);
  }

  lemma StillHit(p: Params, bound: nat, lag: nat, ref: GkeRef, older: GkeCluster, newer: GkeCluster)
    requires ClusterName(Some(ref)).Some? && TargetOf(p, older, ref.endpoint).Some?
    ensures After(p, bound, lag, ref, older, newer, 8, LastHit(p, bound), Changed(ref, newer), StoredLate(ref, older, bound),
                  map[1 := Thread(ref, Using(0), Got(older, LastHit(p, bound)))], Opened(p, ref, older, bound))
  {
    var api: Api := map[IdOf(ref) := older];
    var es := SlowRequest(p, bound, lag, ref, newer);
    AlmostStale(p, bound, lag, ref, older, newer);
    Extend(p, bound, api, es, 7);
  }

  lemma RefreshDelayed(p: Params, bound: nat, lag: nat, ref: GkeRef, older: GkeCluster, newer: GkeCluster)
    requires ClusterName(Some(ref)).Some? && TargetOf(p, older, ref.endpoint).Some?
    ensures After(p, bound, lag, ref, older, newer, 9, LastHit(p, bound) + lag, Changed(ref, newer),
                  StoredLate(ref, older, bound),
                  map[1 := Thread(ref, Using(0), Got(older, LastHit(p, bound)))], Opened(p, ref, older, bound))
  {
    var api: Api := map[IdOf(ref) := older];
    var es := SlowRequest(p, bound, lag, ref, newer);
    StillHit(p, bound, lag, ref, older, newer);
    Extend(p, bound, api, es, 8);
  }

  lemma OldRefreshed(p: Params, bound: nat, lag: nat, ref: GkeRef, older: GkeCluster, newer: GkeCluster)
    requires ClusterName(Some(ref)).Some? && TargetOf(p, older, ref.endpoint).Some?
    ensures After(p, bound, lag, ref, older, newer, 10, LastHit(p, bound) + lag, Changed(ref, newer),
                  StoredLate(ref, older, bound),
                  map[1 := Thread(ref, Using(0), Ready(LastHit(p, bound) + lag, true))],
                  Opened(p, ref, older, LastHit(p, bound) + lag))
  {
    var api: Api := map[IdOf(ref) := older];
    var es := SlowRequest(p, bound, lag, ref, newer);
    RefreshDelayed(p, bound, lag, ref, older, newer);
    FirstRefresh(p, ref.endpoint, older);
    AppliedBy(p, bound, Run(p, bound, api, es[..9]), 1, TargetOf(p, older, ref.endpoint).value, 0);
    Extend(p, bound, api, es, 9);
  }

  lemma SendDelayed(p: Params, bound: nat, lag: nat, ref: GkeRef, older: GkeCluster, newer: GkeCluster)
    requires ClusterName(Some(ref)).Some? && TargetOf(p, older, ref.endpoint).Some?
    ensures After(p, bound, lag, ref, older, newer, 11, LastHit(p, bound) + lag + lag, Changed(ref, newer),
                  StoredLate(ref, older, bound),
                  map[1 := Thread(ref, Using(0), Ready(LastHit(p, bound) + lag, true))],
                  Opened(p, ref, older, LastHit(p, bound) + lag))
  {
    var api: Api := map[IdOf(ref) := older];
    var es := SlowRequest(p, bound, lag, ref, newer);
    OldRefreshed(p, bound, lag, ref, older, newer);
    Extend(p, bound, api, es, 10);
  }

  lemma SentLate(p: Params, bound: nat, lag: nat, ref: GkeRef, older: GkeCluster, newer: GkeCluster)
    requires ClusterName(Some(ref)).Some? && TargetOf(p, older, ref.endpoint).Some?
    ensures var s := Run(p, bound, map[IdOf(ref) := older], SlowRequest(p, bound, lag, ref, newer)[..12]);
            var t := TargetOf(p, older, ref.endpoint).value;
            && Prompt(s, lag)
            && s.sent == [Sent(0, t.host, Some(Transport(t.caData, 0)), LastHit(p, bound) + 2 * lag, true)]
  {
    var api: Api := map[IdOf(ref) := older];
    var es := SlowRequest(p, bound, lag, ref, newer);
    SendDelayed(p, bound, lag, ref, older, newer);
    SentFrom(p, bound, Run(p, bound, api, es[..11]), 1);
    Extend(p, bound, api, es, 11);
  }
}
