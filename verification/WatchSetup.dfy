/** KRMSyncerReconciler: the maps of started watches, updated in place by loops
    over the rules of a KRMSyncer. */
module WatchSetup {
  import opened Wrappers
  import opened Gvks
  import opened Remotes
  import opened Rules
  import opened Jobs
  import opened FailureTracking
  import opened Watches

  datatype SyncerName = SyncerName(namespace: string, name: string)

  /** What reading the KRMSyncer gives. */
  datatype Fetched = Found(syncer: KRMSyncer) | NotFound | Unreadable

  class KRMSyncerReconciler {
    const setupFailures: FailureTracker<SyncerName>
    var watchedGvks: set<Gvk>
    var watchedRemoteGvks: set<RemoteGvk>
    var remoteClusters: map<string, GkeRef>
    var controllers: seq<Watcher>
    var built: seq<string>

    constructor (setupFailures: FailureTracker<SyncerName>)
      ensures Current() == NO_WATCHES && this.setupFailures == setupFailures
    {
      this.setupFailures := setupFailures;
      watchedGvks, watchedRemoteGvks, remoteClusters, controllers, built := {}, {}, map[], [], [];
    }

    ghost function Current(): Watches
      reads this
    {
      Watches(watchedGvks, watchedRemoteGvks, remoteClusters, controllers, built)
    }

    /** getOrCreateRemoteCluster. */
    method GetOrCreateRemoteCluster(key: string, ref: GkeRef, up: bool) returns (ok: bool)
      modifies this`remoteClusters, this`built
      ensures ok <==> key in old(remoteClusters) || up
      ensures Current() == if ok then WithCluster(old(Current()), key, ref) else old(Current())
    {
      if key in remoteClusters {
        return true;
      }
      if !up {
        return false;
      }
      remoteClusters, built := remoteClusters[key := ref], built + [key];
      ok := true;
    }

    /** startRemoteWatcher, and the mark that it started. */
    method StartRemoteWatcher(key: string, ref: GkeRef, gvk: Gvk, o: Start) returns (e: Option<SetupError>)
      modifies this
      ensures (Current(), e) == WatchRemote(old(Current()), key, ref, gvk, o)
    {
      if RemoteGvk(key, gvk) in watchedRemoteGvks {
        return None;
      }
      var ok := GetOrCreateRemoteCluster(key, ref, o.clusterUp);
      if !ok {
        return Some(ClusterError(gvk));
      }
      if !o.watchUp {
        return Some(WatchError(gvk));
      }
      controllers := controllers + [Watcher(gvk, PULL, key)];
      watchedRemoteGvks := watchedRemoteGvks + {RemoteGvk(key, gvk)};
      e := None;
    }

    /** startWatcher, and the mark that it started. */
    method StartWatcher(gvk: Gvk, o: Start) returns (e: Option<SetupError>)
      modifies this
      ensures (Current(), e) == WatchLocal(old(Current()), gvk, o)
    {
      if gvk in watchedGvks {
        return None;
      }
      if !o.watchUp {
        return Some(WatchError(gvk));
      }
      controllers := controllers + [Watcher(gvk, PUSH, "")];
      watchedGvks := watchedGvks + {gvk};
      e := None;
    }

    /** The body of the loop over the GVKs of a rule. */
    method Watch(s: KRMSyncer, gvk: Gvk, o: Start) returns (e: Option<SetupError>)
      modifies this
      ensures (Current(), e) == WatchOne(old(Current()), s, gvk, o)
    {
      if EffectiveMode(s) == PULL {
        var key := Key(s.remote);
        if key.None? {
          return Some(NoRemote);
        }
        e := StartRemoteWatcher(key.value, s.remote.value, gvk, o);
      } else {
        e := StartWatcher(gvk, o);
      }
    }

    /** The loop over the GVKs of the i-th rule: an error does not end it. */
    method WatchAll(s: KRMSyncer, gvks: seq<Gvk>, i: nat, starts: Starts, errors0: seq<SetupError>)
      returns (errors: seq<SetupError>)
      modifies this
      ensures Setup(Current(), errors, false) == WatchGvks(Setup(old(Current()), errors0, false), s, gvks, i, starts)
    {
      errors := errors0;
      for j := 0 to |gvks|
        invariant Setup(Current(), errors, false) == WatchGvks(Setup(old(Current()), errors0, false), s, gvks[..j], i, starts)
      {
        assert gvks[..j + 1][..j] == gvks[..j];
        var e := Watch(s, gvks[j], starts(i, j));
        if e.Some? {
          errors := errors + [e.value];
        }
      }
      assert gvks[..|gvks|] == gvks;
    }

    method AnyStar(rules: seq<ResourceRule>) returns (needed: bool)
      ensures needed <==> NeedsExpansion(rules)
    {
      for i := 0 to |rules|
        invariant forall j | 0 <= j < i :: !HasStar(rules[j])
      {
        if HasStar(rules[i]) {
          return true;
        }
      }
      needed := false;
    }

    method Discover(s: KRMSyncer, discovery: Option<seq<ApiResourceList>>) returns (lists: Option<seq<ApiResourceList>>)
      ensures lists == ListsFor(s, discovery)
    {
      var needed := AnyStar(s.rules);
      if !needed {
        return Some([]);
      }
      if EffectiveMode(s) != PUSH && ClusterName(s.remote).None? {
        return None;
      }
      lists := discovery;
    }

    /** reconcile: keeps going after a watch that does not start, stops at an
        invalid rule, and returns nil exactly when nothing failed. */
    method SetUpWatches(s: KRMSyncer, discovery: Option<seq<ApiResourceList>>, starts: Starts)
      returns (errors: seq<SetupError>)
      modifies this
      ensures Current() == SetUp(old(Current()), s, discovery, starts).watches
      ensures errors == SetUp(old(Current()), s, discovery, starts).errors
    {
      errors := [];
      var lists := Discover(s, discovery);
      if lists.None? {
        return [DiscoveryError];
      }
      ghost var start := Setup(old(Current()), [], false);
      for i := 0 to |s.rules|
        invariant WatchRules(start, s, s.rules[..i], lists.value, starts) == Setup(Current(), errors, false)
      {
        assert s.rules[..i + 1][..i] == s.rules[..i];
        var gvks := ExpandRule(s.rules[i], lists.value);
        if gvks.None? {
          StoppedSetup(start, s, s.rules, lists.value, starts, i + 1);
          return [InvalidRule];
        }
        errors := WatchAll(s, gvks.value, i, starts, errors);
      }
      assert s.rules[..|s.rules|] == s.rules;
    }

    /** Reconcile: the KRMSyncer is marked failing exactly when its latest setup
        failed; a deleted or suspended one is not failing; a read error changes
        nothing. */
    method Reconcile(name: SyncerName, fetched: Fetched, discovery: Option<seq<ApiResourceList>>, starts: Starts)
      returns (failed: bool)
      modifies this, setupFailures, setupFailures.gauge
      ensures match fetched
              case Found(s) =>
                var u := if s.suspend then Setup(old(Current()), [], true) else SetUp(old(Current()), s, discovery, starts);
                && Current() == u.watches && (failed <==> u.errors != [])
                && Current() == Handled(old(Current()), Event(s, discovery, starts)).watches
                && setupFailures.failed == Marked(old(setupFailures.failed), name, failed)
              case NotFound =>
                && !failed && Current() == old(Current())
                && setupFailures.failed == Marked(old(setupFailures.failed), name, false)
              case Unreadable =>
                failed && Current() == old(Current()) && setupFailures.failed == old(setupFailures.failed)
      ensures setupFailures.gauge.value == old(setupFailures.gauge.value)
                                             + |setupFailures.failed| - |old(setupFailures.failed)|
    {
      match fetched
      case NotFound =>
        FailureTracker<SyncerName>.MarkSucceeded(setupFailures, name);
        failed := false;
      case Unreadable =>
        failed := true;
      case Found(s) =>
        if s.suspend {
          FailureTracker<SyncerName>.MarkSucceeded(setupFailures, name);
          return false;
        }
        var errors := SetUpWatches(s, discovery, starts);
        failed := errors != [];
        if failed {
          FailureTracker<SyncerName>.MarkFailed(setupFailures, name);
        } else {
          FailureTracker<SyncerName>.MarkSucceeded(setupFailures, name);
        }
    }
  }
}
