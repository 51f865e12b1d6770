/** Watch setup of the KRMSyncerReconciler: the watches that KRMSyncers ask for,
    over any run of setups in which starting a watch may fail. */
module Watches {
  import opened Wrappers
  import opened Gvks
  import opened Remotes
  import opened Rules
  import opened Jobs

  datatype RemoteGvk = RemoteGvk(cluster: string, gvk: Gvk)

  /** WatchedGVKs, WatchedRemoteGVKs and RemoteClusters, each remote cluster with
      the reference it was built for; and, as they happened, the watchers that
      were started and the keys of the clusters that were built. */
  datatype Watches = Watches(
    local: set<Gvk>, remote: set<RemoteGvk>, clusters: map<string, GkeRef>, started: seq<Watcher>, built: seq<string>)

  const NO_WATCHES := Watches({}, {}, map[], [], [])

  datatype SetupError = DiscoveryError | InvalidRule | NoRemote | ClusterError(gvk: Gvk) | WatchError(gvk: Gvk)

  /** Whether the remote cluster can be built, and whether the watch starts. */
  datatype Start = Start(clusterUp: bool, watchUp: bool)

  /** The start of the watch for the j-th GVK of the i-th rule. */
  type Starts = (nat, nat) -> Start

  /** A setup on its way; `stopped` when it returned early. */
  datatype Setup = Setup(watches: Watches, errors: seq<SetupError>, stopped: bool)

  // ---- One watch ----

  function WithCluster(w: Watches, key: string, ref: GkeRef): Watches {
    if key in w.clusters then w else w.(clusters := w.clusters[key := ref], built := w.built + [key])
  }

  function WatchRemote(w: Watches, key: string, ref: GkeRef, gvk: Gvk, o: Start): (Watches, Option<SetupError>) {
    if RemoteGvk(key, gvk) in w.remote then (w, None)
    else if key !in w.clusters && !o.clusterUp then (w, Some(ClusterError(gvk)))
    else
      var w' := WithCluster(w, key, ref);
      if !o.watchUp then (w', Some(WatchError(gvk)))
      else (w'.(remote := w'.remote + {RemoteGvk(key, gvk)}, started := w'.started + [Watcher(gvk, PULL, key)]), None)
  }

  function WatchLocal(w: Watches, gvk: Gvk, o: Start): (Watches, Option<SetupError>) {
    if gvk in w.local then (w, None)
    else if !o.watchUp then (w, Some(WatchError(gvk)))
    else (w.(local := w.local + {gvk}, started := w.started + [Watcher(gvk, PUSH, "")]), None)
  }

  function WatchOne(w: Watches, s: KRMSyncer, gvk: Gvk, o: Start): (Watches, Option<SetupError>) {
    if EffectiveMode(s) != PULL then WatchLocal(w, gvk, o)
    else match Key(s.remote)
      case Some(key) => WatchRemote(w, key, s.remote.value, gvk, o)
      case None => (w, Some(NoRemote))
  }

  // ---- One setup ----

  function AddWatch(u: Setup, s: KRMSyncer, gvk: Gvk, o: Start): Setup {
    var (w, e) := WatchOne(u.watches, s, gvk, o);
    Setup(w, if e.Some? then u.errors + [e.value] else u.errors, u.stopped)
  }

  function WatchGvks(u: Setup, s: KRMSyncer, gvks: seq<Gvk>, i: nat, starts: Starts): Setup {
    if gvks == [] then u
    else
      var n := |gvks| - 1;
      AddWatch(WatchGvks(u, s, gvks[..n], i, starts), s, gvks[n], starts(i, n))
  }

  function WatchRules(u: Setup, s: KRMSyncer, rules: seq<ResourceRule>, lists: seq<ApiResourceList>, starts: Starts): Setup {
    if rules == [] then u
    else
      var n := |rules| - 1;
      var before := WatchRules(u, s, rules[..n], lists, starts);
      if before.stopped then before
      else match Expansion(rules[n], lists)
        case Some(gvks) => WatchGvks(before, s, gvks, n, starts)
        case None => Setup(before.watches, [InvalidRule], true)
  }

  ghost predicate NeedsExpansion(rules: seq<ResourceRule>) {
    exists i :: 0 <= i < |rules| && HasStar(rules[i])
  }

  /** The discovery results a setup works with; `None` when discovery fails. */
  ghost function ListsFor(s: KRMSyncer, discovery: Option<seq<ApiResourceList>>): Option<seq<ApiResourceList>> {
    if !NeedsExpansion(s.rules) then Some([])
    else if EffectiveMode(s) != PUSH && ClusterName(s.remote).None? then None
    else discovery
  }

  /** reconcile. */
  ghost function SetUp(w: Watches, s: KRMSyncer, discovery: Option<seq<ApiResourceList>>, starts: Starts): Setup {
    match ListsFor(s, discovery)
    case Some(lists) => WatchRules(Setup(w, [], false), s, s.rules, lists, starts)
    case None => Setup(w, [DiscoveryError], true)
  }

  // ---- What every step keeps ----

  predicate Distinct<T(==)>(xs: seq<T>) {
    forall i, j | 0 <= i < j < |xs| :: xs[i] != xs[j]
  }

  predicate IsRecorded(w: Watches, x: Watcher) {
    || (x == Watcher(x.gvk, PUSH, "") && x.gvk in w.local)
    || (x == Watcher(x.gvk, PULL, x.connection) && RemoteGvk(x.connection, x.gvk) in w.remote)
  }

  /** Nothing was started or built twice; the sets record exactly the started
      watchers; every watched remote GVK has its cluster, which was built for a
      reference with that very key. */
  ghost predicate Consistent(w: Watches) {
    && Distinct(w.started) && Distinct(w.built)
    && (forall x | x in w.started :: IsRecorded(w, x))
    && (forall g | g in w.local :: Watcher(g, PUSH, "") in w.started)
    && (forall r | r in w.remote :: Watcher(r.gvk, PULL, r.cluster) in w.started && r.cluster in w.clusters)
    && (forall k :: k in w.clusters <==> k in w.built)
    && (forall k | k in w.clusters :: Key(Some(w.clusters[k])) == Some(k))
  }

  ghost predicate Grows(w: Watches, w': Watches) {
    && w.local <= w'.local && w.remote <= w'.remote && w.started <= w'.started && w.built <= w'.built
    && forall k | k in w.clusters :: k in w'.clusters && w'.clusters[k] == w.clusters[k]
  }

  lemma DistinctOneMore<T>(xs: seq<T>, x: T)
    requires Distinct(xs) && x !in xs
    ensures Distinct(xs + [x])
  {
  }

  lemma WithClusterKeeps(w: Watches, key: string, ref: GkeRef)
    requires Consistent(w) && Key(Some(ref)) == Some(key)
    ensures Consistent(WithCluster(w, key, ref)) && Grows(w, WithCluster(w, key, ref))
  {
    if key !in w.clusters {
      DistinctOneMore(w.built, key);
    }
  }

  lemma StartKeeps(w: Watches, w': Watches, x: Watcher)
    requires Consistent(w) && x !in w.started
    requires || (x == Watcher(x.gvk, PUSH, "") && w' == w.(local := w.local + {x.gvk}, started := w.started + [x]))
             || (x == Watcher(x.gvk, PULL, x.connection) && x.connection in w.clusters
                 && w' == w.(remote := w.remote + {RemoteGvk(x.connection, x.gvk)}, started := w.started + [x]))
    ensures Consistent(w') && Grows(w, w')
  {
    DistinctOneMore(w.started, x);
  }

  lemma WatchOneKeeps(w: Watches, s: KRMSyncer, gvk: Gvk, o: Start)
    requires Consistent(w)
    ensures Consistent(WatchOne(w, s, gvk, o).0) && Grows(w, WatchOne(w, s, gvk, o).0)
  {
    if EffectiveMode(s) != PULL {
      if gvk !in w.local && o.watchUp {
        StartKeeps(w, WatchOne(w, s, gvk, o).0, Watcher(gvk, PUSH, ""));
      }
    } else if Key(s.remote).Some? {
      var key := Key(s.remote).value;
      if RemoteGvk(key, gvk) !in w.remote && (key in w.clusters || o.clusterUp) {
        WithClusterKeeps(w, key, s.remote.value);
        if o.watchUp {
          StartKeeps(WithCluster(w, key, s.remote.value), WatchOne(w, s, gvk, o).0, Watcher(gvk, PULL, key));
        }
      }
    }
  }

  lemma {:induction false} WatchGvksKeeps(u: Setup, s: KRMSyncer, gvks: seq<Gvk>, i: nat, starts: Starts)
    requires Consistent(u.watches)
    ensures var u' := WatchGvks(u, s, gvks, i, starts);
            Consistent(u'.watches) && Grows(u.watches, u'.watches) && u'.stopped == u.stopped && u.errors <= u'.errors
  {
    if gvks != [] {
      var n := |gvks| - 1;
      WatchGvksKeeps(u, s, gvks[..n], i, starts);
      WatchOneKeeps(WatchGvks(u, s, gvks[..n], i, starts).watches, s, gvks[n], starts(i, n));
    }
  }

  lemma {:induction false} WatchRulesKeeps(u: Setup, s: KRMSyncer, rules: seq<ResourceRule>, lists: seq<ApiResourceList>,
                                           starts: Starts)
    requires Consistent(u.watches)
    ensures var u' := WatchRules(u, s, rules, lists, starts);
            Consistent(u'.watches) && Grows(u.watches, u'.watches)
  {
    if rules != [] {
      var n := |rules| - 1;
      WatchRulesKeeps(u, s, rules[..n], lists, starts);
      var before := WatchRules(u, s, rules[..n], lists, starts);
      if !before.stopped && Expansion(rules[n], lists).Some? {
        WatchGvksKeeps(before, s, Expansion(rules[n], lists).value, n, starts);
      }
    }
  }

  lemma SetUpKeeps(w: Watches, s: KRMSyncer, discovery: Option<seq<ApiResourceList>>, starts: Starts)
    requires Consistent(w)
    ensures Consistent(SetUp(w, s, discovery, starts).watches) && Grows(w, SetUp(w, s, discovery, starts).watches)
  {
    if ListsFor(s, discovery).Some? {
      WatchRulesKeeps(Setup(w, [], false), s, s.rules, ListsFor(s, discovery).value, starts);
    }
  }

  // ---- Runs ----

  /** One call of the reconciler, with everything the outside decides. */
  datatype Event = Event(syncer: KRMSyncer, discovery: Option<seq<ApiResourceList>>, starts: Starts)

  /** A suspended syncer is not set up. */
  ghost function Handled(w: Watches, e: Event): Setup {
    if e.syncer.suspend then Setup(w, [], true) else SetUp(w, e.syncer, e.discovery, e.starts)
  }

  ghost function AfterAll(events: seq<Event>): Watches {
    if events == [] then NO_WATCHES
    else Handled(AfterAll(events[..|events| - 1]), events[|events| - 1]).watches
  }

  /** Over any run of reconciles, whatever fails: no watch is started twice for a
      local GVK or for a connection and GVK, no cluster is built twice, and every
      watched remote GVK has the cluster of its connection. */
  lemma {:induction false} RunsAreConsistent(events: seq<Event>)
    ensures Consistent(AfterAll(events))
  {
    if events != [] {
      var n := |events| - 1;
      RunsAreConsistent(events[..n]);
      SetUpKeeps(AfterAll(events[..n]), events[n].syncer, events[n].discovery, events[n].starts);
    }
  }

  /** Watches and clusters are never given up or replaced. */
  lemma {:induction false} RunsGrow(events: seq<Event>, n: nat)
    requires n <= |events|
    ensures Grows(AfterAll(events[..n]), AfterAll(events))
    decreases |events| - n
  {
    if n == |events| {
      assert events[..n] == events;
    } else {
      RunsGrow(events, n + 1);
      assert events[..n + 1][..n] == events[..n];
      RunsAreConsistent(events[..n]);
      SetUpKeeps(AfterAll(events[..n]), events[n].syncer, events[n].discovery, events[n].starts);
    }
  }

  // ---- What a setup without errors achieves ----

  /** The watcher that a setup starts for one GVK of a syncer. */
  function WatcherFor(s: KRMSyncer, g: Gvk): Option<Watcher> {
    if EffectiveMode(s) != PULL then Some(Watcher(g, PUSH, ""))
    else match Key(s.remote)
      case Some(key) => Some(Watcher(g, PULL, key))
      case None => None
  }

  ghost predicate Has(w: Watches, s: KRMSyncer, g: Gvk) {
    WatcherFor(s, g).Some? && WatcherFor(s, g).value in w.started
  }

  lemma WatchOneStarts(w: Watches, s: KRMSyncer, g: Gvk, o: Start)
    requires Consistent(w)
    ensures WatchOne(w, s, g, o).1.None? <==> Has(WatchOne(w, s, g, o).0, s, g)
    ensures o.clusterUp && o.watchUp && WatcherFor(s, g).Some? ==> WatchOne(w, s, g, o).1.None?
  {
    WatchOneKeeps(w, s, g, o);
  }

  /** The setup met no error, or at least this watch could be started. */
  predicate Spared(errors: seq<SetupError>, s: KRMSyncer, g: Gvk, o: Start) {
    errors == [] || (WatcherFor(s, g).Some? && o == Start(true, true))
  }

  lemma AddWatchStarts(u: Setup, s: KRMSyncer, g: Gvk, o: Start)
    requires Consistent(u.watches) && Spared(AddWatch(u, s, g, o).errors, s, g, o)
    ensures Has(AddWatch(u, s, g, o).watches, s, g)
  {
    WatchOneStarts(u.watches, s, g, o);
  }

  lemma AddWatchKeeps(u: Setup, s: KRMSyncer, g: Gvk, o: Start, h: Gvk)
    requires Consistent(u.watches)
    ensures AddWatch(u, s, g, o).errors == [] ==> u.errors == []
    ensures Has(u.watches, s, h) ==> Has(AddWatch(u, s, g, o).watches, s, h)
  {
    WatchOneKeeps(u.watches, s, g, o);
  }

  lemma ConsistentAfterGvks(u: Setup, s: KRMSyncer, gvks: seq<Gvk>, i: nat, starts: Starts)
    requires Consistent(u.watches)
    ensures Consistent(WatchGvks(u, s, gvks, i, starts).watches)
  {
    WatchGvksKeeps(u, s, gvks, i, starts);
  }

  /** The watches started for a list of GVKs: all of them when no error was added,
      and any whose own start succeeds in any case. */
  lemma {:induction false} WatchGvksStarts(u: Setup, s: KRMSyncer, gvks: seq<Gvk>, i: nat, starts: Starts, j: nat)
    requires Consistent(u.watches) && j < |gvks|
    requires Spared(WatchGvks(u, s, gvks, i, starts).errors, s, gvks[j], starts(i, j))
    ensures Has(WatchGvks(u, s, gvks, i, starts).watches, s, gvks[j])
  {
    var n := |gvks| - 1;
    var before := WatchGvks(u, s, gvks[..n], i, starts);
    ConsistentAfterGvks(u, s, gvks[..n], i, starts);
    if j == n {
      AddWatchStarts(before, s, gvks[n], starts(i, n));
    } else {
      AddWatchKeeps(before, s, gvks[n], starts(i, n), gvks[j]);
      WatchGvksStarts(u, s, gvks[..n], i, starts, j);
    }
  }

  /** A setup that was not stopped expanded every rule. */
  lemma {:induction false} WatchRulesExpands(u: Setup, s: KRMSyncer, rules: seq<ResourceRule>, lists: seq<ApiResourceList>,
                                             starts: Starts)
    requires Consistent(u.watches) && !u.stopped
    ensures WatchRules(u, s, rules, lists, starts).stopped <==> exists i :: 0 <= i < |rules| && !IsValid(rules[i])
    ensures WatchRules(u, s, rules, lists, starts).stopped ==> WatchRules(u, s, rules, lists, starts).errors == [InvalidRule]
  {
    if rules != [] {
      var n := |rules| - 1;
      WatchRulesExpands(u, s, rules[..n], lists, starts);
      WatchRulesKeeps(u, s, rules[..n], lists, starts);
      var before := WatchRules(u, s, rules[..n], lists, starts);
      if !before.stopped && IsValid(rules[n]) {
        WatchGvksKeeps(before, s, Expansion(rules[n], lists).value, n, starts);
        assert forall i | 0 <= i < n :: rules[..n][i] == rules[i];
      } else if before.stopped {
        var i :| 0 <= i < n && !IsValid(rules[..n][i]);
        assert rules[i] == rules[..n][i];
      }
    }
  }

  lemma LastRule(u: Setup, s: KRMSyncer, rules: seq<ResourceRule>, lists: seq<ApiResourceList>, starts: Starts)
    requires Consistent(u.watches) && !u.stopped && rules != []
    requires forall x | 0 <= x < |rules| :: IsValid(rules[x])
    ensures var n := |rules| - 1;
            var before := WatchRules(u, s, rules[..n], lists, starts);
            && Consistent(before.watches)
            && WatchRules(u, s, rules, lists, starts) == WatchGvks(before, s, Expansion(rules[n], lists).value, n, starts)
  {
    var n := |rules| - 1;
    WatchRulesKeeps(u, s, rules[..n], lists, starts);
    WatchRulesExpands(u, s, rules[..n], lists, starts);
    assert forall x | 0 <= x < n :: rules[..n][x] == rules[x];
  }

  lemma WatchGvksHas(u: Setup, s: KRMSyncer, gvks: seq<Gvk>, i: nat, starts: Starts, h: Gvk)
    requires Consistent(u.watches)
    ensures WatchGvks(u, s, gvks, i, starts).errors == [] ==> u.errors == []
    ensures Has(u.watches, s, h) ==> Has(WatchGvks(u, s, gvks, i, starts).watches, s, h)
  {
    WatchGvksKeeps(u, s, gvks, i, starts);
  }

  lemma {:induction false} WatchRulesStarts(u: Setup, s: KRMSyncer, rules: seq<ResourceRule>, lists: seq<ApiResourceList>,
                                            starts: Starts, i: nat, j: nat)
    requires Consistent(u.watches) && !u.stopped && i < |rules|
    requires forall x | 0 <= x < |rules| :: IsValid(rules[x])
    requires j < |Expansion(rules[i], lists).value|
    requires Spared(WatchRules(u, s, rules, lists, starts).errors, s, Expansion(rules[i], lists).value[j], starts(i, j))
    ensures Has(WatchRules(u, s, rules, lists, starts).watches, s, Expansion(rules[i], lists).value[j])
  {
    var n := |rules| - 1;
    var before, gvks := WatchRules(u, s, rules[..n], lists, starts), Expansion(rules[n], lists).value;
    LastRule(u, s, rules, lists, starts);
    if i == n {
      WatchGvksStarts(before, s, gvks, n, starts, j);
    } else {
      assert rules[..n][i] == rules[i];
      WatchGvksHas(before, s, gvks, n, starts, Expansion(rules[i], lists).value[j]);
      WatchRulesStarts(u, s, rules[..n], lists, starts, i, j);
    }
  }

  /** Some watcher of g accepts the syncer. */
  ghost predicate Watched(w: Watches, s: KRMSyncer, g: Gvk) {
    exists x :: x in w.started && x.gvk == g && AcceptsSyncer(x, s)
  }

  /** Only the watcher of the syncer's mode and connection can accept it. */
  lemma WatchedMeans(w: Watches, s: KRMSyncer, g: Gvk)
    requires Consistent(w) && !s.suspend
    ensures Watched(w, s, g) <==> Has(w, s, g) && EffectiveMode(s) in {PUSH, PULL}
  {
    if Watched(w, s, g) {
      var x :| x in w.started && x.gvk == g && AcceptsSyncer(x, s);
      assert IsRecorded(w, x);
    }
    if Has(w, s, g) && EffectiveMode(s) in {PUSH, PULL} {
      assert PUSH != PULL;
      assert AcceptsSyncer(WatcherFor(s, g).value, s);
    }
  }

  /** The rule stands for g: it matches g and, if it has a star, discovery lists g. */
  ghost predicate Names(rule: ResourceRule, discovery: Option<seq<ApiResourceList>>, g: Gvk) {
    MatchesGvk(rule, g) && (HasStar(rule) ==> discovery.Some? && Discovered(discovery.value, g))
  }

  /** What a setup expands its rules to is what they stand for. */
  lemma NamedIsExpanded(s: KRMSyncer, discovery: Option<seq<ApiResourceList>>, i: nat, g: Gvk)
    requires ListsFor(s, discovery).Some? && i < |s.rules| && IsValid(s.rules[i])
    ensures HasStar(s.rules[i]) ==> discovery.Some?
    ensures g in Expansion(s.rules[i], ListsFor(s, discovery).value).value <==> Names(s.rules[i], discovery, g)
  {
    ExpansionAgreesWithMatching(s.rules[i], ListsFor(s, discovery).value, g);
    assert HasStar(s.rules[i]) ==> NeedsExpansion(s.rules);
  }

  /** A reconcile that returns nil leaves every GVK that a rule stands for watched
      by a watcher that accepts the syncer (and matches the rule) if and only if
      the mode is one of the two the syncer knows: any other string starts push
      watchers, which then skip the syncer. Every rule is valid then, and if one
      has a star, discovery answered. */
  lemma NilMeansWatched(w: Watches, s: KRMSyncer, discovery: Option<seq<ApiResourceList>>, starts: Starts, i: nat, g: Gvk)
    requires Consistent(w) && !s.suspend && SetUp(w, s, discovery, starts).errors == []
    requires i < |s.rules|
    ensures IsValid(s.rules[i]) && (HasStar(s.rules[i]) ==> discovery.Some?)
    ensures Names(s.rules[i], discovery, g) ==>
              (Watched(SetUp(w, s, discovery, starts).watches, s, g) <==> EffectiveMode(s) in {PUSH, PULL})
  {
    var lists := ListsFor(s, discovery).value;
    var u := Setup(w, [], false);
    WatchRulesExpands(u, s, s.rules, lists, starts);
    assert IsValid(s.rules[i]);
    NamedIsExpanded(s, discovery, i, g);
    var gvks := Expansion(s.rules[i], lists).value;
    if g in gvks {
      var j :| 0 <= j < |gvks| && gvks[j] == g;
      WatchRulesStarts(u, s, s.rules, lists, starts, i, j);
      SetUpKeeps(w, s, discovery, starts);
      WatchedMeans(SetUp(w, s, discovery, starts).watches, s, g);
    }
  }

  /** What makes a reconcile fail from the start: an invalid rule, or a star that
      discovery gives no answer for, or for which, outside push mode, the cluster to ask
      cannot be named. */
  lemma BadRulesFail(w: Watches, s: KRMSyncer, discovery: Option<seq<ApiResourceList>>, starts: Starts, i: nat)
    requires Consistent(w) && i < |s.rules|
    requires || !IsValid(s.rules[i])
             || (HasStar(s.rules[i]) && (discovery.None? || (s.mode != "push" && ClusterName(s.remote).None?)))
    ensures SetUp(w, s, discovery, starts).errors != []
  {
    if ListsFor(s, discovery).Some? && !IsValid(s.rules[i]) {
      WatchRulesExpands(Setup(w, [], false), s, s.rules, ListsFor(s, discovery).value, starts);
    }
    assert HasStar(s.rules[i]) ==> NeedsExpansion(s.rules);
  }

  /** A mode outside the two: in no run is there ever a watcher that works for the
      syncer. */
  lemma OtherModesAreNeverWatched(events: seq<Event>, s: KRMSyncer, g: Gvk)
    requires EffectiveMode(s) !in {PUSH, PULL}
    ensures !Watched(AfterAll(events), s, g)
  {
    RunsAreConsistent(events);
    if !s.suspend {
      WatchedMeans(AfterAll(events), s, g);
    }
  }

  /** ... although its setup succeeds and starts a watcher. */
  lemma OtherModesSetUpCleanly(g: Gvk, mode: string, starts: Starts)
    requires mode !in {"", PUSH, PULL} && starts(0, 0) == Start(true, true)
    requires !HasStar(ResourceRule(g.group, g.version, g.kind, [], []))
    ensures var s := KRMSyncer("ns", "name", false, mode, None, [ResourceRule(g.group, g.version, g.kind, [], [])]);
            var u := SetUp(NO_WATCHES, s, None, starts);
            u.errors == [] && u.watches.started == [Watcher(g, PUSH, "")] && !Watched(u.watches, s, g)
  {
    var rule := ResourceRule(g.group, g.version, g.kind, [], []);
    var s := KRMSyncer("ns", "name", false, mode, None, [rule]);
    ValidStarIsKccGlob(rule);
    var u := Setup(NO_WATCHES, [], false);
    assert s.rules[..0] == [] && [g][..0] == [];
    assert !NeedsExpansion(s.rules);
    assert WatchRules(u, s, s.rules, [], starts) == WatchGvks(u, s, [g], 0, starts);
    assert WatchGvks(u, s, [g], 0, starts) == AddWatch(u, s, g, starts(0, 0));
    assert [] + [Watcher(g, PUSH, "")] == [Watcher(g, PUSH, "")];
  }

  /** So a GVK stays watched for the rest of any run once its syncer was set up. */
  lemma OnceNilAlwaysWatched(events: seq<Event>, n: nat, i: nat, g: Gvk)
    requires n < |events| && !events[n].syncer.suspend && EffectiveMode(events[n].syncer) in {PUSH, PULL}
    requires Handled(AfterAll(events[..n]), events[n]).errors == []
    requires i < |events[n].syncer.rules| && Names(events[n].syncer.rules[i], events[n].discovery, g)
    ensures Watched(AfterAll(events), events[n].syncer, g)
  {
    var e := events[n];
    RunsAreConsistent(events[..n]);
    NilMeansWatched(AfterAll(events[..n]), e.syncer, e.discovery, e.starts, i, g);
    assert events[..n + 1][..n] == events[..n];
    RunsGrow(events, n + 1);
    var x :| x in AfterAll(events[..n + 1]).started && x.gvk == g && AcceptsSyncer(x, e.syncer);
    assert x in AfterAll(events).started;
  }

  // ---- Skipping discovery ----

  lemma {:induction false} ListsDoNotMatter(u: Setup, s: KRMSyncer, rules: seq<ResourceRule>, a: seq<ApiResourceList>,
                                            b: seq<ApiResourceList>, starts: Starts)
    requires !NeedsExpansion(rules)
    ensures WatchRules(u, s, rules, a, starts) == WatchRules(u, s, rules, b, starts)
  {
    if rules != [] {
      var n := |rules| - 1;
      forall i | 0 <= i < n ensures !HasStar(rules[..n][i]) {
        assert rules[..n][i] == rules[i];
      }
      ListsDoNotMatter(u, s, rules[..n], a, b, starts);
      DiscoveryNotNeeded([rules[n]], a, b);
      assert rules[n] in [rules[n]];
    }
  }

  /** Skipping discovery is safe: when no rule has a star, the setup is the same as
      one that had asked for discovery, whatever that had answered. */
  lemma SkippingDiscoveryIsSafe(w: Watches, s: KRMSyncer, discovery: Option<seq<ApiResourceList>>, starts: Starts,
                                lists: seq<ApiResourceList>)
    requires !NeedsExpansion(s.rules)
    ensures SetUp(w, s, discovery, starts) == WatchRules(Setup(w, [], false), s, s.rules, lists, starts)
  {
    ListsDoNotMatter(Setup(w, [], false), s, s.rules, [], lists, starts);
  }

  // ---- Failures are isolated ----

  /** Later rules add to what earlier ones started. */
  lemma {:induction false} WatchRulesGrow(u: Setup, s: KRMSyncer, rules: seq<ResourceRule>, lists: seq<ApiResourceList>,
                                          starts: Starts, n: nat)
    requires Consistent(u.watches) && n <= |rules|
    ensures Grows(WatchRules(u, s, rules[..n], lists, starts).watches, WatchRules(u, s, rules, lists, starts).watches)
    decreases |rules| - n
  {
    if n == |rules| {
      assert rules[..n] == rules;
    } else {
      var before := WatchRules(u, s, rules[..n], lists, starts);
      assert rules[..n + 1][..n] == rules[..n];
      WatchRulesKeeps(u, s, rules[..n], lists, starts);
      if !before.stopped && Expansion(rules[n], lists).Some? {
        WatchGvksKeeps(before, s, Expansion(rules[n], lists).value, n, starts);
      }
      WatchRulesGrow(u, s, rules, lists, starts, n + 1);
    }
  }

  ghost predicate HasCluster(w: Watches, s: KRMSyncer) {
    Key(s.remote).Some? && Key(s.remote).value in w.clusters
  }

  lemma {:induction false} WatchGvksCluster(u: Setup, s: KRMSyncer, gvks: seq<Gvk>, i: nat, starts: Starts, j: nat)
    requires Consistent(u.watches) && j < |gvks| && starts(i, j).clusterUp
    requires EffectiveMode(s) == PULL && Key(s.remote).Some?
    ensures HasCluster(WatchGvks(u, s, gvks, i, starts).watches, s)
  {
    var n := |gvks| - 1;
    ConsistentAfterGvks(u, s, gvks[..n], i, starts);
    if j < n {
      WatchGvksCluster(u, s, gvks[..n], i, starts, j);
    }
  }

  /** One failing start does not hold back the others, nor does a later rule that is
      invalid: a GVK whose own start succeeds is watched afterwards, unless its rule or an
      earlier one is invalid or discovery fails. The cluster of a pull watch is kept as
      soon as it is up, even if the watch on it does not start. */
  lemma FailuresAreIsolated(w: Watches, s: KRMSyncer, discovery: Option<seq<ApiResourceList>>, starts: Starts, i: nat, j: nat)
    requires Consistent(w) && i < |s.rules| && forall x | 0 <= x <= i :: IsValid(s.rules[x])
    requires ListsFor(s, discovery).Some? && j < |Expansion(s.rules[i], ListsFor(s, discovery).value).value|
    requires EffectiveMode(s) == PULL ==> Key(s.remote).Some?
    requires starts(i, j).clusterUp
    ensures starts(i, j).watchUp ==>
              Has(SetUp(w, s, discovery, starts).watches, s, Expansion(s.rules[i], ListsFor(s, discovery).value).value[j])
    ensures EffectiveMode(s) == PULL ==> HasCluster(SetUp(w, s, discovery, starts).watches, s)
  {
    var u, lists, rules := Setup(w, [], false), ListsFor(s, discovery).value, s.rules[..i + 1];
    assert rules[i] == s.rules[i] && rules[..i] == s.rules[..i];
    if starts(i, j).watchUp {
      WatchRulesStarts(u, s, rules, lists, starts, i, j);
    }
    if EffectiveMode(s) == PULL {
      LastRule(u, s, rules, lists, starts);
      WatchGvksCluster(WatchRules(u, s, rules[..i], lists, starts), s, Expansion(rules[i], lists).value, i, starts, j);
    }
    WatchRulesGrow(u, s, s.rules, lists, starts, i + 1);
  }

  lemma {:induction false} OnlyTargetMatters(u: Setup, s: KRMSyncer, t: KRMSyncer, rules: seq<ResourceRule>,
                                             lists: seq<ApiResourceList>, starts: Starts)
    requires s.mode == t.mode && s.remote == t.remote
    ensures WatchRules(u, s, rules, lists, starts) == WatchRules(u, t, rules, lists, starts)
  {
    if rules != [] {
      var n := |rules| - 1;
      OnlyTargetMatters(u, s, t, rules[..n], lists, starts);
      var before := WatchRules(u, s, rules[..n], lists, starts);
      if !before.stopped && Expansion(rules[n], lists).Some? {
        SameGvks(before, s, t, Expansion(rules[n], lists).value, n, starts);
      }
    }
  }

  lemma {:induction false} SameGvks(u: Setup, s: KRMSyncer, t: KRMSyncer, gvks: seq<Gvk>, i: nat, starts: Starts)
    requires s.mode == t.mode && s.remote == t.remote
    ensures WatchGvks(u, s, gvks, i, starts) == WatchGvks(u, t, gvks, i, starts)
  {
    if gvks != [] {
      SameGvks(u, s, t, gvks[..|gvks| - 1], i, starts);
    }
  }

  lemma {:induction false} StoppedSetup(u: Setup, s: KRMSyncer, rules: seq<ResourceRule>, lists: seq<ApiResourceList>,
                                        starts: Starts, n: nat)
    requires n <= |rules| && WatchRules(u, s, rules[..n], lists, starts).stopped
    ensures WatchRules(u, s, rules, lists, starts) == WatchRules(u, s, rules[..n], lists, starts)
    decreases |rules| - n
  {
    if n == |rules| {
      assert rules[..n] == rules;
    } else {
      assert rules[..n + 1][..n] == rules[..n];
      StoppedSetup(u, s, rules, lists, starts, n + 1);
    }
  }

  lemma StopsAt(u: Setup, s: KRMSyncer, rules: seq<ResourceRule>, lists: seq<ApiResourceList>, starts: Starts, n: nat)
    requires Consistent(u.watches) && !u.stopped
    requires n < |rules| && !IsValid(rules[n]) && forall x | 0 <= x < n :: IsValid(rules[x])
    ensures WatchRules(u, s, rules, lists, starts)
            == Setup(WatchRules(u, s, rules[..n], lists, starts).watches, [InvalidRule], true)
  {
    WatchRulesExpands(u, s, rules[..n], lists, starts);
    assert rules[..n + 1][..n] == rules[..n];
    assert WatchRules(u, s, rules[..n + 1], lists, starts)
           == Setup(WatchRules(u, s, rules[..n], lists, starts).watches, [InvalidRule], true);
    StoppedSetup(u, s, rules, lists, starts, n + 1);
  }

  /** The first rules alone are set up with the same discovery results, as far as they
      matter. */
  lemma FirstRulesAlone(w: Watches, s: KRMSyncer, discovery: Option<seq<ApiResourceList>>, starts: Starts, n: nat)
    requires n <= |s.rules| && ListsFor(s, discovery).Some?
    ensures SetUp(w, s.(rules := s.rules[..n]), discovery, starts)
            == WatchRules(Setup(w, [], false), s, s.rules[..n], ListsFor(s, discovery).value, starts)
  {
    var u, lists, rules := Setup(w, [], false), ListsFor(s, discovery).value, s.rules[..n];
    var t := s.(rules := rules);
    OnlyTargetMatters(u, s, t, rules, lists, starts);
    if NeedsExpansion(rules) {
      var i :| 0 <= i < |rules| && HasStar(rules[i]);
      assert HasStar(s.rules[i]);
    } else {
      ListsDoNotMatter(u, t, rules, lists, [], starts);
    }
  }

  /** At the first invalid rule the setup ends with that error alone: it has started what
      the rules before it ask for, and nothing of the rules after it. */
  lemma InvalidRuleEndsSetUp(w: Watches, s: KRMSyncer, discovery: Option<seq<ApiResourceList>>, starts: Starts, n: nat)
    requires Consistent(w) && n < |s.rules| && !IsValid(s.rules[n]) && forall x | 0 <= x < n :: IsValid(s.rules[x])
    requires ListsFor(s, discovery).Some?
    ensures var u, before := SetUp(w, s, discovery, starts), SetUp(w, s.(rules := s.rules[..n]), discovery, starts);
            u.errors == [InvalidRule] && u.watches == before.watches
  {
    StopsAt(Setup(w, [], false), s, s.rules, ListsFor(s, discovery).value, starts, n);
    FirstRulesAlone(w, s, discovery, starts, n);
  }

  // ---- When every start succeeds ----

  ghost predicate AllStart(starts: Starts) {
    forall i, j :: starts(i, j) == Start(true, true)
  }

  lemma {:induction false} WatchGvksErrors(u: Setup, s: KRMSyncer, gvks: seq<Gvk>, i: nat, starts: Starts)
    requires Consistent(u.watches) && AllStart(starts)
    ensures WatchGvks(u, s, gvks, i, starts).errors == []
            <==> u.errors == [] && (gvks == [] || EffectiveMode(s) != PULL || Key(s.remote).Some?)
  {
    if gvks != [] {
      var n := |gvks| - 1;
      WatchGvksErrors(u, s, gvks[..n], i, starts);
      ConsistentAfterGvks(u, s, gvks[..n], i, starts);
      WatchOneStarts(WatchGvks(u, s, gvks[..n], i, starts).watches, s, gvks[n], starts(i, n));
    }
  }

  ghost predicate NothingNamed(rules: seq<ResourceRule>, lists: seq<ApiResourceList>) {
    forall i | 0 <= i < |rules| :: Expansion(rules[i], lists) == Some([])
  }

  lemma {:induction false} WatchRulesErrors(u: Setup, s: KRMSyncer, rules: seq<ResourceRule>, lists: seq<ApiResourceList>,
                                            starts: Starts)
    requires Consistent(u.watches) && AllStart(starts) && !u.stopped && u.errors == []
    requires forall x | 0 <= x < |rules| :: IsValid(rules[x])
    ensures WatchRules(u, s, rules, lists, starts).errors == []
            <==> NothingNamed(rules, lists) || EffectiveMode(s) != PULL || Key(s.remote).Some?
  {
    if rules != [] {
      var n := |rules| - 1;
      LastRule(u, s, rules, lists, starts);
      forall x | 0 <= x < n ensures rules[..n][x] == rules[x] {
      }
      WatchRulesErrors(u, s, rules[..n], lists, starts);
      WatchGvksErrors(WatchRules(u, s, rules[..n], lists, starts), s, Expansion(rules[n], lists).value, n, starts);
      assert NothingNamed(rules, lists) <==> NothingNamed(rules[..n], lists) && Expansion(rules[n], lists) == Some([]);
    }
  }

  /** When every watch and cluster starts, a reconcile returns nil if and only if all rules
      are valid, discovery answers if one has a star (and, outside push mode, the cluster
      to ask can be named), and in pull mode, which is also meant when it is unset, the
      remote has a key unless the rules name no GVK at all. */
  lemma SetUpSucceedsIff(w: Watches, s: KRMSyncer, discovery: Option<seq<ApiResourceList>>, starts: Starts)
    requires Consistent(w) && AllStart(starts)
    ensures SetUp(w, s, discovery, starts).errors == [] <==>
              && (forall i | 0 <= i < |s.rules| :: IsValid(s.rules[i]))
              && (NeedsExpansion(s.rules) ==> discovery.Some? && (s.mode == "push" || ClusterName(s.remote).Some?))
              && (s.mode in {"", "pull"} ==>
                    Key(s.remote).Some? || forall i, g | 0 <= i < |s.rules| :: !Names(s.rules[i], discovery, g))
  {
    if ListsFor(s, discovery).Some? {
      var u, lists := Setup(w, [], false), ListsFor(s, discovery).value;
      WatchRulesExpands(u, s, s.rules, lists, starts);
      if forall i | 0 <= i < |s.rules| :: IsValid(s.rules[i]) {
        WatchRulesErrors(u, s, s.rules, lists, starts);
        NothingNamedMeans(s, discovery);
      } else {
        var i :| 0 <= i < |s.rules| && !IsValid(s.rules[i]);
      }
    }
  }

  lemma NothingNamedMeans(s: KRMSyncer, discovery: Option<seq<ApiResourceList>>)
    requires ListsFor(s, discovery).Some? && forall i | 0 <= i < |s.rules| :: IsValid(s.rules[i])
    ensures NothingNamed(s.rules, ListsFor(s, discovery).value)
            <==> forall i, g | 0 <= i < |s.rules| :: !Names(s.rules[i], discovery, g)
  {
    var lists := ListsFor(s, discovery).value;
    forall i, g | 0 <= i < |s.rules|
      ensures g in Expansion(s.rules[i], lists).value <==> Names(s.rules[i], discovery, g)
    {
      NamedIsExpanded(s, discovery, i, g);
    }
    if !NothingNamed(s.rules, lists) {
      var i :| 0 <= i < |s.rules| && Expansion(s.rules[i], lists) != Some([]);
      assert Names(s.rules[i], discovery, Expansion(s.rules[i], lists).value[0]);
    }
  }

  // ---- Setting up again ----

  lemma {:induction false} NothingLeft(u: Setup, s: KRMSyncer, gvks: seq<Gvk>, i: nat, starts: Starts)
    requires Consistent(u.watches) && forall j | 0 <= j < |gvks| :: Has(u.watches, s, gvks[j])
    ensures WatchGvks(u, s, gvks, i, starts) == u
  {
    if gvks != [] {
      var n := |gvks| - 1;
      NothingLeft(u, s, gvks[..n], i, starts);
      assert IsRecorded(u.watches, WatcherFor(s, gvks[n]).value);
    }
  }

  lemma {:induction false} NothingLeftInRules(u: Setup, s: KRMSyncer, rules: seq<ResourceRule>, lists: seq<ApiResourceList>,
                                              starts: Starts)
    requires Consistent(u.watches) && !u.stopped && forall i | 0 <= i < |rules| :: IsValid(rules[i])
    requires forall i, j | 0 <= i < |rules| && 0 <= j < |Expansion(rules[i], lists).value| ::
               Has(u.watches, s, Expansion(rules[i], lists).value[j])
    ensures WatchRules(u, s, rules, lists, starts) == u
  {
    if rules != [] {
      var n := |rules| - 1;
      NothingLeftInRules(u, s, rules[..n], lists, starts);
      NothingLeft(u, s, Expansion(rules[n], lists).value, n, starts);
    }
  }

  /** Watches that started are not restarted: after a setup without errors, the
      same setup changes nothing, even when every start would now fail. */
  lemma SetUpAgainIsNoOp(w: Watches, s: KRMSyncer, discovery: Option<seq<ApiResourceList>>, starts: Starts, later: Starts)
    requires Consistent(w) && SetUp(w, s, discovery, starts).errors == []
    ensures SetUp(SetUp(w, s, discovery, starts).watches, s, discovery, later) == SetUp(w, s, discovery, starts)
  {
    var lists := ListsFor(s, discovery).value;
    var u := Setup(w, [], false);
    var after := SetUp(w, s, discovery, starts);
    WatchRulesExpands(u, s, s.rules, lists, starts);
    SetUpKeeps(w, s, discovery, starts);
    forall i, j | 0 <= i < |s.rules| && 0 <= j < |Expansion(s.rules[i], lists).value|
      ensures Has(after.watches, s, Expansion(s.rules[i], lists).value[j])
    {
      WatchRulesStarts(u, s, s.rules, lists, starts, i, j);
    }
    NothingLeftInRules(Setup(after.watches, [], false), s, s.rules, lists, later);
  }

  /** Two syncers that share a remote cluster mean the same connection. */
  lemma SharedClusterIsSameConnection(w: Watches, key: string, a: GkeRef)
    requires Consistent(w) && key in w.clusters && Key(Some(a)) == Some(key)
    requires SlashFree(a) && SlashFree(w.clusters[key])
    ensures SameConnection(w.clusters[key], a)
  {
    KeyIdentifies(w.clusters[key], a);
  }
}
