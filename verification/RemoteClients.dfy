/** remoteClientCache: one client per connection, built on first use. */
module RemoteClients {
  import opened Wrappers
  import opened Remotes

  /** A client and the reference its config was built for; no two have the same serial. */
  datatype Client = Client(ref: GkeRef, serial: nat)

  /** The cached clients, and how often RESTConfig was called. */
  datatype ClientCache = ClientCache(clients: map<string, Client>, configCalls: nat)

  const NO_CLIENTS := ClientCache(map[], 0)

  /** One call: whose remote, and whether RESTConfig and client.New succeed. */
  datatype Call = Call(remote: RemoteConfig, configOk: bool, clientOk: bool)

  function Served(c: ClientCache, call: Call): (ClientCache, Option<Client>) {
    match Key(call.remote)
    case None => (c, None)
    case Some(key) =>
      if key in c.clients then (c, Some(c.clients[key]))
      else
        var c' := c.(configCalls := c.configCalls + 1);
        if !call.configOk || !call.clientOk then (c', None)
        else
          var client := Client(call.remote.value, c.configCalls);
          (c'.(clients := c.clients[key := client]), Some(client))
  }

  class RemoteClientCache {
    var clients: map<string, Client>
    var configCalls: nat

    constructor ()
      ensures Current() == NO_CLIENTS
    {
      clients, configCalls := map[], 0;
    }

    function Current(): ClientCache
      reads this
    {
      ClientCache(clients, configCalls)
    }

    method Fetch(call: Call) returns (client: Option<Client>)
      modifies this
      ensures (Current(), client) == Served(old(Current()), call)
    {
      var key := Key(call.remote);
      if key.None? {
        return None;
      }
      if key.value in clients {
        return Some(clients[key.value]);
      }
      configCalls := configCalls + 1;
      if !call.configOk {
        return None;
      }
      if !call.clientOk {
        return None;
      }
      var built := Client(call.remote.value, configCalls - 1);
      clients := clients[key.value := built];
      client := Some(built);
    }
  }

  // ---- Any sequence of calls ----

  function AfterCalls(calls: seq<Call>): ClientCache {
    if calls == [] then NO_CLIENTS else Served(AfterCalls(calls[..|calls| - 1]), calls[|calls| - 1]).0
  }

  /** What the i-th call returned. */
  function Answer(calls: seq<Call>, i: nat): Option<Client>
    requires i < |calls|
  {
    Served(AfterCalls(calls[..i]), calls[i]).1
  }

  /** The calls that had to build a client and could not. */
  function FailedBuilds(calls: seq<Call>): nat {
    if calls == [] then 0
    else
      var n := |calls| - 1;
      FailedBuilds(calls[..n]) + if Key(calls[n].remote).Some? && Answer(calls, n).None? then 1 else 0
  }

  /** Every cached client was built for its key, and no two are the same. */
  ghost predicate Sound(c: ClientCache) {
    && (forall k | k in c.clients :: Key(Some(c.clients[k].ref)) == Some(k) && c.clients[k].serial < c.configCalls)
    && (forall k, m | k in c.clients && m in c.clients && k != m :: c.clients[k].serial != c.clients[m].serial)
  }

  /** At most one client per key, built for that key; and RESTConfig was called
      once for every cached client and once for every failed build. */
  lemma {:induction false} CallsAreAccountedFor(calls: seq<Call>)
    ensures Sound(AfterCalls(calls))
    ensures AfterCalls(calls).configCalls == |AfterCalls(calls).clients| + FailedBuilds(calls)
  {
    if calls != [] {
      var n := |calls| - 1;
      CallsAreAccountedFor(calls[..n]);
      assert calls[..n] == calls[..n][..n];
    }
  }

  /** A cached client stays. */
  lemma {:induction false} ClientsStay(calls: seq<Call>, n: nat, key: string)
    requires n <= |calls| && key in AfterCalls(calls[..n]).clients
    ensures key in AfterCalls(calls).clients && AfterCalls(calls).clients[key] == AfterCalls(calls[..n]).clients[key]
    decreases |calls| - n
  {
    if n == |calls| {
      assert calls[..n] == calls;
    } else {
      assert calls[..n + 1][..n] == calls[..n];
      ClientsStay(calls, n + 1, key);
    }
  }

  /** A client that is returned was built for the same project, location, name and
      endpoint as asked for. */
  lemma ReturnsClientOfConnection(calls: seq<Call>, i: nat)
    requires i < |calls| && Answer(calls, i).Some?
    ensures calls[i].remote.Some?
    ensures var client := Answer(calls, i).value;
            SlashFree(calls[i].remote.value) && SlashFree(client.ref) ==> SameConnection(client.ref, calls[i].remote.value)
  {
    CallsAreAccountedFor(calls[..i]);
    var client := Answer(calls, i).value;
    if SlashFree(calls[i].remote.value) && SlashFree(client.ref) {
      KeyIdentifies(client.ref, calls[i].remote.value);
    }
  }

  /** Once a call returned a client, every later call for that connection returns
      the very same one, whatever would fail by then. */
  lemma SameConnectionSameClient(calls: seq<Call>, i: nat, j: nat)
    requires i < j < |calls| && Answer(calls, i).Some?
    requires calls[j].remote.Some? && SameConnection(calls[i].remote.value, calls[j].remote.value)
    ensures Answer(calls, j) == Answer(calls, i)
  {
    var key := Key(calls[i].remote).value;
    assert calls[..i + 1][..i] == calls[..i];
    assert AfterCalls(calls[..i + 1]).clients[key] == Answer(calls, i).value;
    assert calls[..j][..i + 1] == calls[..i + 1];
    ClientsStay(calls[..j], i + 1, key);
  }

  /** Errors are not cached: a call fails exactly when its remote has no key, or no
      earlier call got a client for that key and building one fails now. */
  lemma ErrorsAreNotCached(calls: seq<Call>, i: nat)
    requires i < |calls|
    ensures Answer(calls, i).None? <==>
              || Key(calls[i].remote).None?
              || (!(calls[i].configOk && calls[i].clientOk)
                  && !exists j :: j < i && AnsweredAt(calls, Key(calls[i].remote).value, j))
  {
    if Key(calls[i].remote).Some? {
      var key := Key(calls[i].remote).value;
      CachedIffAnswered(calls[..i], key);
      forall j | 0 <= j < i ensures AnsweredAt(calls[..i], key, j) <==> AnsweredAt(calls, key, j) {
        AnsweredPrefix(calls, i, key, j);
      }
    }
  }

  /** The j-th call got a client for this key. */
  ghost predicate AnsweredAt(calls: seq<Call>, key: string, j: int) {
    0 <= j < |calls| && Key(calls[j].remote) == Some(key) && Answer(calls, j).Some?
  }

  lemma AnsweredPrefix(calls: seq<Call>, n: nat, key: string, j: int)
    requires 0 <= j < n <= |calls|
    ensures AnsweredAt(calls[..n], key, j) <==> AnsweredAt(calls, key, j)
  {
    assert calls[..n][..j] == calls[..j] && calls[..n][j] == calls[j];
  }

  lemma CachedByCall(c: ClientCache, call: Call, key: string)
    ensures key in Served(c, call).0.clients
            <==> key in c.clients || (Key(call.remote) == Some(key) && Served(c, call).1.Some?)
  {
  }

  lemma {:induction false} CachedIffAnswered(calls: seq<Call>, key: string)
    ensures key in AfterCalls(calls).clients <==> exists j :: AnsweredAt(calls, key, j)
  {
    if calls != [] {
      var n := |calls| - 1;
      CachedIffAnswered(calls[..n], key);
      CachedByCall(AfterCalls(calls[..n]), calls[n], key);
      forall j | 0 <= j < n ensures AnsweredAt(calls[..n], key, j) <==> AnsweredAt(calls, key, j) {
        AnsweredPrefix(calls, n, key, j);
      }
      assert AnsweredAt(calls, key, n)
             <==> Key(calls[n].remote) == Some(key) && Served(AfterCalls(calls[..n]), calls[n]).1.Some?;
    }
  }
}
