/** References to GKE clusters, the names of the clusters and the keys of the
    connections to them. */
module Remotes {
  import opened Wrappers
  import opened Text

  datatype GkeRef = GkeRef(project: string, location: string, name: string, endpoint: string)

  /** spec.remote: `None` when no GKE cluster is set. */
  type RemoteConfig = Option<GkeRef>

  const ENDPOINT_DEFAULT := "Default"
  const ENDPOINT_DNS := "DNS"
  const ENDPOINT_PRIVATE_IP := "PrivateIP"

  /** gkeClusterName; `None` is its error. */
  function ClusterName(remote: RemoteConfig): Option<string> {
    match remote
    case None => None
    case Some(g) =>
      if g.project == "" || g.location == "" || g.name == "" then None
      else Some("projects/" + g.project + "/locations/" + g.location + "/clusters/" + g.name)
  }

  function NormalEndpoint(g: GkeRef): string {
    if g.endpoint == "" then ENDPOINT_DEFAULT else g.endpoint
  }

  /** GKEConfigProvider.Key; the namespace of the KRMSyncer plays no part. */
  function Key(remote: RemoteConfig): Option<string> {
    match ClusterName(remote)
    case Some(name) => Some("gke/" + name + "/" + NormalEndpoint(remote.value))
    case None => None
  }

  predicate SlashFree(g: GkeRef) {
    '/' !in g.project && '/' !in g.location && '/' !in g.name
  }

  ghost predicate SameConnection(a: GkeRef, b: GkeRef) {
    a.project == b.project && a.location == b.location && a.name == b.name && NormalEndpoint(a) == NormalEndpoint(b)
  }

  /** The key, grouped from the right. */
  function Tail(g: GkeRef): string { g.name + "/" + NormalEndpoint(g) }
  function LocationTail(g: GkeRef): string { g.location + "/" + ("clusters/" + Tail(g)) }
  function ProjectTail(g: GkeRef): string { g.project + "/" + ("locations/" + LocationTail(g)) }

  lemma KeyForm(g: GkeRef)
    requires Key(Some(g)).Some?
    ensures Key(Some(g)).value == "gke/projects/" + ProjectTail(g)
  {
    assert "gke/" + ("projects/" + g.project + "/locations/" + g.location + "/clusters/" + g.name)
           + "/" + NormalEndpoint(g)
           == "gke/projects/" + (g.project + "/" + ("locations/" + (g.location + "/" + ("clusters/"
           + (g.name + "/" + NormalEndpoint(g))))));
  }

  /** What the names look like, part by part: the GKE resource name of the cluster, and
      before and after it the kind of the connection and its endpoint. */
  lemma NamesSpellTheCluster(g: GkeRef)
    requires SlashFree(g) && '/' !in g.endpoint
    ensures ClusterName(None) == None && Key(None) == None
    ensures ClusterName(Some(g)).Some? <==> g.project != "" && g.location != "" && g.name != ""
    ensures Key(Some(g)).Some? <==> ClusterName(Some(g)).Some?
    ensures ClusterName(Some(g)).Some? ==>
              var parts := ["projects", g.project, "locations", g.location, "clusters", g.name];
              && Split(ClusterName(Some(g)).value, '/') == parts
              && Split(Key(Some(g)).value, '/') == ["gke"] + parts + [if g.endpoint == "" then "Default" else g.endpoint]
  {
    if ClusterName(Some(g)).Some? {
      var name, endpoint := ClusterName(Some(g)).value, NormalEndpoint(g);
      assert '/' !in endpoint && '/' !in "gke";
      SplitWhole(g.name, '/');
      NameSplits(g, g.name, [g.name]);
      assert name == "projects/" + g.project + "/locations/" + g.location + "/clusters/" + g.name;
      SplitTwo(g.name, '/', endpoint, g.name + "/" + endpoint);
      NameSplits(g, g.name + "/" + endpoint, [g.name, endpoint]);
      assert name + "/" + endpoint
             == "projects/" + g.project + "/locations/" + g.location + "/clusters/" + (g.name + "/" + endpoint);
      assert Key(Some(g)).value == "gke" + ['/'] + (name + "/" + endpoint);
      SplitFirst("gke", '/', name + "/" + endpoint);
    }
  }

  lemma NameSplits(g: GkeRef, tail: string, parts: seq<string>)
    requires SlashFree(g) && Split(tail, '/') == parts
    ensures Split("projects/" + g.project + "/locations/" + g.location + "/clusters/" + tail, '/')
            == ["projects", g.project, "locations", g.location, "clusters"] + parts
  {
    var clusters := Cut("clusters", tail, parts);
    var location := Cut(g.location, clusters, ["clusters"] + parts);
    var locations := Cut("locations", location, [g.location] + (["clusters"] + parts));
    var project := Cut(g.project, locations, ["locations"] + ([g.location] + (["clusters"] + parts)));
    var whole := Cut("projects", project, [g.project] + (["locations"] + ([g.location] + (["clusters"] + parts))));
    NameForm(g, tail);
  }

  lemma Cut(first: string, rest: string, parts: seq<string>) returns (s: string)
    requires '/' !in first && Split(rest, '/') == parts
    ensures s == first + "/" + rest && Split(s, '/') == [first] + parts
  {
    s := first + "/" + rest;
    SplitFirst(first, '/', rest);
  }

  lemma NameForm(g: GkeRef, tail: string)
    ensures "projects/" + g.project + "/locations/" + g.location + "/clusters/" + tail
            == "projects" + "/" + (g.project + "/" + ("locations" + "/" + (g.location + "/" + ("clusters" + "/" + tail))))
  {
  }

  lemma SamePrefix(pre: string, x: string, y: string)
    requires pre + x == pre + y
    ensures x == y
  {
    assert x == (pre + x)[|pre|..] && y == (pre + y)[|pre|..];
  }

  /** Equal keys mean the same connection, as long as no part contains a slash. */
  lemma KeyIdentifies(a: GkeRef, b: GkeRef)
    requires Key(Some(a)).Some? && Key(Some(b)).Some?
    requires SlashFree(a) && SlashFree(b)
    ensures Key(Some(a)) == Key(Some(b)) <==> SameConnection(a, b)
  {
    if Key(Some(a)) == Key(Some(b)) {
      KeyForm(a);
      KeyForm(b);
      SamePrefix("gke/projects/", ProjectTail(a), ProjectTail(b));
      CutFirst(a.project, "locations/" + LocationTail(a), b.project, "locations/" + LocationTail(b), '/');
      SamePrefix("locations/", LocationTail(a), LocationTail(b));
      CutFirst(a.location, "clusters/" + Tail(a), b.location, "clusters/" + Tail(b), '/');
      SamePrefix("clusters/", Tail(a), Tail(b));
      CutFirst(a.name, NormalEndpoint(a), b.name, NormalEndpoint(b), '/');
    }
  }

  /** The same holds for the names that key the cluster lookups. */
  lemma ClusterNameIdentifies(a: GkeRef, b: GkeRef)
    requires ClusterName(Some(a)).Some? && ClusterName(Some(b)).Some?
    requires SlashFree(a) && SlashFree(b)
    ensures ClusterName(Some(a)) == ClusterName(Some(b))
            <==> a.project == b.project && a.location == b.location && a.name == b.name
  {
    var a', b' := a.(endpoint := ""), b.(endpoint := "");
    assert ClusterName(Some(a')) == ClusterName(Some(a)) && ClusterName(Some(b')) == ClusterName(Some(b));
    KeyIdentifies(a', b');
  }

  /** With slashes two different clusters can share a key. */
  lemma SlashesCollide()
    ensures var a := GkeRef("p", "l", "c/clusters/d", "");
            var b := GkeRef("p", "l/clusters/c", "d", "");
            Key(Some(a)).Some? && Key(Some(a)) == Key(Some(b)) && !SameConnection(a, b)
  {
    var a := GkeRef("p", "l", "c/clusters/d", "");
    var b := GkeRef("p", "l/clusters/c", "d", "");
    assert ClusterName(Some(a)).value == "projects/p/locations/l/clusters/c/clusters/d";
    assert ClusterName(Some(b)).value == "projects/p/locations/l/clusters/c/clusters/d";
  }
}
