/** Settings of the connections to GKE clusters: from the cluster record of the GKE
    API to the host and CA in use, and the cache of cluster records. */
module GkeConnections {
  import opened Wrappers
  import opened Remotes

  /** The part of the API's cluster resource that is used. */
  datatype GkeCluster = GkeCluster(
    endpoint: string, caCertificate: string, privateEndpoint: string, ipPrivateEndpoint: string, dnsEndpoint: string,
    allowExternalTraffic: Option<bool>)

  datatype RestConfig = RestConfig(host: string, caData: string)

  /** What the connections depend on from outside: base64 decoding, the host of a
      parsed URL, and the provider's lifetime override for cached records. */
  datatype Params = Params(decode: string -> Option<string>, hostOf: string -> Option<string>, ttl: int)

  // ---- Endpoint selection ----

  function IpConfig(p: Params, c: GkeCluster, host: string): Option<RestConfig> {
    match p.decode(c.caCertificate)
    case Some(caData) => Some(RestConfig("https://" + host, caData))
    case None => None
  }

  /** gkeCluster.restConfig; `None` is its error. */
  function ConfigFor(p: Params, c: GkeCluster, endpoint: string): Option<RestConfig> {
    if endpoint == ENDPOINT_DNS then
      if c.dnsEndpoint == "" || c.allowExternalTraffic != Some(true) then None
      else Some(RestConfig("https://" + c.dnsEndpoint, ""))
    else if endpoint == ENDPOINT_PRIVATE_IP then
      var host := if c.ipPrivateEndpoint == "" then c.privateEndpoint else c.ipPrivateEndpoint;
      if host == "" then None else IpConfig(p, c, host)
    else if endpoint == ENDPOINT_DEFAULT || endpoint == "" then
      if c.endpoint == "" then None else IpConfig(p, c, c.endpoint)
    else None
  }

  /** A host and the CA to trust there. */
  datatype Target = Target(host: string, caData: string)

  /** What a record asks for at an endpoint, if it can be used at all. */
  function TargetOf(p: Params, c: GkeCluster, endpoint: string): Option<Target> {
    match ConfigFor(p, c, endpoint)
    case None => None
    case Some(cfg) =>
      match p.hostOf(cfg.host)
      case Some(host) => Some(Target(host, cfg.caData))
      case None => None
  }

  /** Default and unset name the same endpoint. */
  lemma NormalEndpointIsEnough(p: Params, c: GkeCluster, g: GkeRef)
    ensures TargetOf(p, c, g.endpoint) == TargetOf(p, c, NormalEndpoint(g))
  {
    assert ENDPOINT_DEFAULT != ENDPOINT_DNS && ENDPOINT_DEFAULT[0] != ENDPOINT_PRIVATE_IP[0];
  }

  /** Where a connection goes, whom it trusts, and when it cannot be had. DNS: the
      DNS endpoint, if it is there and open to external traffic, against the system
      roots. PrivateIP: the newer field of the private endpoint, else the older one;
      Default or unset: the endpoint; both against the cluster's CA, if it can be
      decoded. Anything else is an error. */
  lemma EndpointAndCaBelongTogether(p: Params, c: GkeCluster, endpoint: string)
    ensures ConfigFor(p, c, endpoint).Some? <==>
              || (endpoint == "DNS" && c.dnsEndpoint != "" && c.allowExternalTraffic == Some(true))
              || (endpoint == "PrivateIP" && p.decode(c.caCertificate).Some?
                  && !(c.ipPrivateEndpoint == c.privateEndpoint == ""))
              || (endpoint in {"", "Default"} && p.decode(c.caCertificate).Some? && c.endpoint != "")
    ensures ConfigFor(p, c, endpoint).Some? ==>
              var cfg := ConfigFor(p, c, endpoint).value;
              if endpoint == "DNS" then cfg == RestConfig("https://" + c.dnsEndpoint, "")
              else
                && p.decode(c.caCertificate) == Some(cfg.caData)
                && cfg.host == "https://" + if endpoint != "PrivateIP" then c.endpoint
                                            else if c.ipPrivateEndpoint != "" then c.ipPrivateEndpoint
                                            else c.privateEndpoint
  {
    assert ENDPOINT_PRIVATE_IP[0] != ENDPOINT_DEFAULT[0] && ENDPOINT_DNS != ENDPOINT_DEFAULT;
    assert ENDPOINT_DNS[1] != ENDPOINT_PRIVATE_IP[1];
  }

  /** What shares a key may share a connection: with slash-free names, equal keys
      lead every record to the same host and CA, and look up the same cluster. */
  lemma EqualKeysMeanSameTarget(p: Params, c: GkeCluster, a: GkeRef, b: GkeRef)
    requires Key(Some(a)).Some? && Key(Some(a)) == Key(Some(b)) && SlashFree(a) && SlashFree(b)
    ensures TargetOf(p, c, a.endpoint) == TargetOf(p, c, b.endpoint)
    ensures ClusterName(Some(a)) == ClusterName(Some(b))
  {
    KeyIdentifies(a, b);
    NormalEndpointIsEnough(p, c, a);
    NormalEndpointIsEnough(p, c, b);
    ClusterNameIdentifies(a, b);
  }

  // ---- The settings of a rotating transport ----

  /** A TLS transport trusting one CA; the serial tells transports apart. */
  datatype Transport = Transport(caData: string, serial: nat)

  /** host, caData and rt, with the number of transports built so far. */
  datatype Settings = Settings(host: string, caData: string, rt: Option<Transport>, built: nat)

  const UNSET := Settings("", "", None, 0)

  /** rotatingTransport.update, and whether it fails. */
  function Updated(p: Params, t: Settings, cfg: RestConfig, builds: bool): (Settings, bool) {
    match p.hostOf(cfg.host)
    case None => (t, true)
    case Some(host) =>
      if t.rt.Some? && host == t.host && cfg.caData == t.caData then (t, false)
      else if !builds then (t, true)
      else (Settings(host, cfg.caData, Some(Transport(cfg.caData, t.built)), t.built + 1), false)
  }

  /** A refresh from the outcome of a cluster lookup. */
  function Refreshed(p: Params, t: Settings, endpoint: string, record: Option<GkeCluster>, builds: bool): (Settings, bool) {
    if record.None? || ConfigFor(p, record.value, endpoint).None? then (t, true)
    else Updated(p, t, ConfigFor(p, record.value, endpoint).value, builds)
  }

  /** The settings are those of one record: its host, with a transport that trusts
      that same record's CA. */
  predicate SetFrom(p: Params, t: Settings, c: GkeCluster, endpoint: string) {
    && TargetOf(p, c, endpoint) == Some(Target(t.host, t.caData))
    && t.rt.Some? && t.rt.value.caData == t.caData
  }

  /** A refresh either fails and changes nothing, or leaves the settings of the
      record it was given. It fails exactly when the record cannot be had or
      used, or a new transport is needed and cannot be built. */
  lemma RefreshedIs(p: Params, t: Settings, endpoint: string, record: Option<GkeCluster>, builds: bool)
    requires t.rt.Some? ==> t.rt.value.caData == t.caData
    ensures var (t', failed) := Refreshed(p, t, endpoint, record, builds);
            && (failed ==> t' == t)
            && (!failed ==> record.Some? && SetFrom(p, t', record.value, endpoint))
            && (failed <==> record.None? || TargetOf(p, record.value, endpoint).None?
                            || (!builds && !SetFrom(p, t, record.value, endpoint)))
  {
  }

  // ---- The cache of cluster records ----

  datatype Cached = Cached(record: GkeCluster, fetchedAt: int)

  type Cache = map<string, Cached>

  const SECOND := 1_000_000_000
  const GKE_CLUSTER_TTL := 10 * 60 * SECOND

  function ClusterTtl(p: Params): (ttl: int)
    ensures ttl > 0
  {
    if p.ttl > 0 then p.ttl else GKE_CLUSTER_TTL
  }

  /** A record that is young enough to be reused. */
  function Hit(p: Params, cache: Cache, name: string, now: int): Option<GkeCluster> {
    if name in cache && now - cache[name].fetchedAt < ClusterTtl(p) then Some(cache[name].record) else None
  }

  function Stored(cache: Cache, name: string, record: GkeCluster, now: int): Cache {
    cache[name := Cached(record, now)]
  }
}
