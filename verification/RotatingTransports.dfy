/** rotatingTransport and GKEConfigProvider, one request at a time: the transport
    follows the cluster's endpoint and CA and falls back to what it last used. */
module RotatingTransports {
  import opened Wrappers
  import opened Remotes
  import opened GkeConnections

  /** What one request meets: the record its lookup gives, if any, and whether a
      transport could be built. */
  datatype Lookup = Lookup(record: Option<GkeCluster>, builds: bool)

  /** The settings in use after a sequence of lookups. */
  function UsedAfter(p: Params, endpoint: string, lookups: seq<Lookup>): Settings {
    if lookups == [] then UNSET
    else
      var n := |lookups| - 1;
      Refreshed(p, UsedAfter(p, endpoint, lookups[..n]), endpoint, lookups[n].record, lookups[n].builds).0
  }

  // ---- The reference: successful lookups and the changes between them ----

  function Wanted(p: Params, endpoint: string, l: Lookup): Option<Target> {
    if l.record.Some? then TargetOf(p, l.record.value, endpoint) else None
  }

  /** The targets of the successful lookups: the record is there and names a
      target, and that is the previous one or a transport to it can be built. */
  function Successes(p: Params, endpoint: string, lookups: seq<Lookup>): seq<Target> {
    if lookups == [] then []
    else
      var n := |lookups| - 1;
      var before := Successes(p, endpoint, lookups[..n]);
      var target := Wanted(p, endpoint, lookups[n]);
      if target.Some? && (lookups[n].builds || (before != [] && before[|before| - 1] == target.value))
      then before + [target.value]
      else before
  }

  function Changes(targets: seq<Target>): nat {
    if |targets| < 2 then 0
    else
      var n := |targets| - 1;
      Changes(targets[..n]) + if targets[n] != targets[n - 1] then 1 else 0
  }

  lemma ChangesOneMore(targets: seq<Target>, t: Target)
    requires targets != []
    ensures Changes(targets + [t]) == Changes(targets) + if t != targets[|targets| - 1] then 1 else 0
  {
    assert (targets + [t])[..|targets|] == targets;
  }

  /** The settings used are those of the last successful lookup, with a transport
      that trusts its CA; and one transport was built for the first success and
      one for each change of host or CA between successive successes. */
  lemma {:induction false} FollowsLastSuccess(p: Params, endpoint: string, lookups: seq<Lookup>)
    ensures var t, good := UsedAfter(p, endpoint, lookups), Successes(p, endpoint, lookups);
            if good == [] then t == UNSET
            else
              && Target(t.host, t.caData) == good[|good| - 1]
              && t.built == 1 + Changes(good)
              && t.rt == Some(Transport(t.caData, t.built - 1))
  {
    if lookups != [] {
      var n := |lookups| - 1;
      FollowsLastSuccess(p, endpoint, lookups[..n]);
      var good := Successes(p, endpoint, lookups[..n]);
      var target := Wanted(p, endpoint, lookups[n]);
      if target.Some? && good != [] {
        ChangesOneMore(good, target.value);
      }
    }
  }

  /** A request reports a failed refresh exactly when its lookup adds no success. */
  lemma FailuresAreNotSuccesses(p: Params, endpoint: string, lookups: seq<Lookup>, l: Lookup)
    ensures Refreshed(p, UsedAfter(p, endpoint, lookups), endpoint, l.record, l.builds).1
            <==> Successes(p, endpoint, lookups + [l]) == Successes(p, endpoint, lookups)
    ensures !Refreshed(p, UsedAfter(p, endpoint, lookups), endpoint, l.record, l.builds).1
            ==> Some(Successes(p, endpoint, lookups + [l])[|Successes(p, endpoint, lookups)|]) == Wanted(p, endpoint, l)
  {
    FollowsLastSuccess(p, endpoint, lookups);
    assert (lookups + [l])[..|lookups|] == lookups;
    var good := Successes(p, endpoint, lookups);
    if Wanted(p, endpoint, l).Some? {
      assert |good + [Wanted(p, endpoint, l).value]| != |good|;
    }
  }

  lemma UsedOneMore(p: Params, endpoint: string, lookups: seq<Lookup>, l: Lookup)
    ensures UsedAfter(p, endpoint, lookups + [l])
            == Refreshed(p, UsedAfter(p, endpoint, lookups), endpoint, l.record, l.builds).0
  {
    assert (lookups + [l])[..|lookups|] == lookups;
  }

  // ---- The classes ----

  class GkeConfigProvider {
    const params: Params
    var cache: Cache
    var tokens: bool

    constructor (params: Params)
      ensures this.params == params && cache == map[] && !tokens
    {
      this.params := params;
      cache, tokens := map[], false;
    }

    /** tokenSource: built on first use from the credentials, if they are available,
        and kept from then on; a failure is not kept. */
    method TokenSource(available: bool) returns (ok: bool)
      modifies this`tokens
      ensures ok <==> old(tokens) || available
      ensures tokens <==> old(tokens) || available
    {
      if !tokens && available {
        tokens := true;
      }
      ok := tokens;
    }

    /** cluster: the cached record while it is fresh, otherwise what the fetch
        gives; only a fetched record is stored. */
    method Cluster(name: string, now: int, fetched: Option<GkeCluster>, storedAt: int) returns (r: Option<GkeCluster>)
      modifies this`cache
      ensures Hit(params, old(cache), name, now).Some? ==> r == Hit(params, old(cache), name, now) && cache == old(cache)
      ensures Hit(params, old(cache), name, now).None? ==>
                && r == fetched
                && cache == if r.Some? then Stored(old(cache), name, r.value, storedAt) else old(cache)
    {
      if name in cache && now - cache[name].fetchedAt < ClusterTtl(params) {
        return Some(cache[name].record);
      }
      if fetched.None? {
        return None;
      }
      cache := cache[name := Cached(fetched.value, storedAt)];
      r := fetched;
    }

    /** RESTConfig: a new rotating transport, already set from a record; without
        tokens the cluster is not even looked up. */
    method Open(remote: RemoteConfig, available: bool, now: int, fetched: Option<GkeCluster>, storedAt: int, builds: bool)
      returns (t: RotatingTransport?)
      modifies this
      ensures tokens <==> old(tokens) || (ClusterName(remote).Some? && available)
      ensures ClusterName(remote).None? || !tokens ==> t == null && cache == old(cache)
      ensures ClusterName(remote).Some? && tokens ==>
                var name := ClusterName(remote).value;
                var hit := Hit(params, old(cache), name, now);
                var record := if hit.Some? then hit else fetched;
                && cache == (if hit.None? && fetched.Some? then Stored(old(cache), name, fetched.value, storedAt)
                             else old(cache))
                && (t == null <==> Refreshed(params, UNSET, remote.value.endpoint, record, builds).1)
                && (t != null ==>
                      && fresh(t) && t.provider == this && t.name == name && t.endpoint == remote.value.endpoint
                      && t.Used() == UsedAfter(params, t.endpoint, [Lookup(record, builds)])
                      && SetFrom(params, t.Used(), record.value, t.endpoint))
    {
      t := null;
      var name := ClusterName(remote);
      if name.None? {
        return;
      }
      var ok := TokenSource(available);
      if !ok {
        return;
      }
      var record := Cluster(name.value, now, fetched, storedAt);
      if record.None? {
        return;
      }
      var endpoint := remote.value.endpoint;
      var cfg := ConfigFor(params, record.value, endpoint);
      if cfg.None? {
        return;
      }
      var rotating := new RotatingTransport(this, name.value, endpoint);
      var failed := rotating.Update(cfg.value, builds);
      assert [Lookup(record, builds)][..0] == [];
      if !failed {
        t := rotating;
      }
    }
  }

  class RotatingTransport {
    const provider: GkeConfigProvider
    const name: string
    const endpoint: string
    var host: string
    var caData: string
    var rt: Option<Transport>
    var built: nat

    constructor (provider: GkeConfigProvider, name: string, endpoint: string)
      ensures this.provider == provider && this.name == name && this.endpoint == endpoint && Used() == UNSET
    {
      this.provider, this.name, this.endpoint := provider, name, endpoint;
      host, caData, rt, built := "", "", None, 0;
    }

    function Used(): Settings
      reads this
    {
      Settings(host, caData, rt, built)
    }

    method Update(cfg: RestConfig, builds: bool) returns (failed: bool)
      modifies this
      ensures (Used(), failed) == Updated(provider.params, old(Used()), cfg, builds)
    {
      var parsed := provider.params.hostOf(cfg.host);
      if parsed.None? {
        return true;
      }
      if rt.Some? && parsed.value == host && cfg.caData == caData {
        return false;
      }
      if !builds {
        return true;
      }
      host, caData, rt, built := parsed.value, cfg.caData, Some(Transport(cfg.caData, built)), built + 1;
      failed := false;
    }

    /** current: refreshes the settings if it can, and returns those in use. */
    method Current(now: int, fetched: Option<GkeCluster>, storedAt: int, builds: bool, ghost before: seq<Lookup>)
      returns (used: Option<Transport>, usedHost: string)
      requires Used() == UsedAfter(provider.params, endpoint, before)
      modifies this, provider`cache
      ensures var hit := Hit(provider.params, old(provider.cache), name, now);
              var after := before + [Lookup(if hit.Some? then hit else fetched, builds)];
              && Used() == UsedAfter(provider.params, endpoint, after)
              && provider.cache == (if hit.None? && fetched.Some? then Stored(old(provider.cache), name, fetched.value, storedAt)
                                    else old(provider.cache))
      ensures used == rt && usedHost == host
    {
      var record := provider.Cluster(name, now, fetched, storedAt);
      UsedOneMore(provider.params, endpoint, before, Lookup(record, builds));
      Refresh(record, builds);
      used, usedHost := rt, host;
    }

    method Refresh(record: Option<GkeCluster>, builds: bool)
      modifies this
      ensures Used() == Refreshed(provider.params, old(Used()), endpoint, record, builds).0
    {
      if record.Some? {
        var cfg := ConfigFor(provider.params, record.value, endpoint);
        if cfg.Some? {
          var _ := Update(cfg.value, builds);
        }
      }
    }
  }
}
