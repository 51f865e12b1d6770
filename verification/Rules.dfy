/** KRMSyncer rules: validation, expansion against API discovery, and the
    matching of rules against the GVK of a watcher. */
module Rules {
  import opened Wrappers
  import opened Text
  import opened Gvks
  import opened Remotes

  const ALL_KCC := "*.cnrm.cloud.google.com"
  const KCC_SUFFIX := ".cnrm.cloud.google.com"
  const KCC := "cnrm.cloud.google.com"

  datatype ResourceRule = ResourceRule(
    group: string, version: string, kind: string, namespaces: seq<string>, syncFields: seq<string>)

  datatype KRMSyncer = KRMSyncer(
    namespace: string, name: string, suspend: bool, mode: string, remote: RemoteConfig, rules: seq<ResourceRule>)

  const PUSH := "push"
  const PULL := "pull"

  function EffectiveMode(s: KRMSyncer): string {
    if s.mode == "" then PULL else s.mode
  }

  predicate HasStar(rule: ResourceRule) {
    '*' in rule.group || '*' in rule.version || '*' in rule.kind
  }

  predicate IsKccGroup(group: string) {
    group == ALL_KCC || HasSuffix(group, KCC_SUFFIX) || group == KCC
  }

  /** The only rules that are expanded and matched as globs. */
  predicate IsKccGlob(rule: ResourceRule) {
    IsKccGroup(rule.group) && rule.version == "*" && rule.kind == "*"
  }

  /** validateRule. */
  predicate IsValid(rule: ResourceRule) {
    HasStar(rule) ==> IsKccGroup(rule.group) && rule.version == "*" && rule.kind == "*"
  }

  predicate GroupMatches(rule: ResourceRule, group: string) {
    if rule.group == ALL_KCC then HasSuffix(group, KCC) else group == rule.group
  }

  /** ruleMatchesGVK, used by the sync step. */
  predicate MatchesGvk(rule: ResourceRule, gvk: Gvk) {
    if IsKccGlob(rule) then GroupMatches(rule, gvk.group)
    else rule.group == gvk.group && rule.version == gvk.version && rule.kind == gvk.kind
  }

  // ---- Expansion against discovery ----

  datatype ApiResource = ApiResource(name: string, kind: string)

  datatype ApiResourceList = ApiResourceList(groupVersion: string, resources: seq<ApiResource>)

  /** The kinds of one discovery list, subresources left out. */
  function KindsOf(gv: GroupVersion, resources: seq<ApiResource>): seq<Gvk> {
    if resources == [] then []
    else
      var init := KindsOf(gv, resources[..|resources| - 1]);
      var res := resources[|resources| - 1];
      if '/' in res.name then init else init + [Gvk(gv.group, gv.version, res.kind)]
  }

  function ListGvks(rule: ResourceRule, list: ApiResourceList): seq<Gvk> {
    match ParseGroupVersion(list.groupVersion)
    case Some(gv) => if GroupMatches(rule, gv.group) then KindsOf(gv, list.resources) else []
    case None => []
  }

  function GlobGvks(rule: ResourceRule, lists: seq<ApiResourceList>): seq<Gvk> {
    if lists == [] then []
    else GlobGvks(rule, lists[..|lists| - 1]) + ListGvks(rule, lists[|lists| - 1])
  }

  /** expandRule; `None` is its error. */
  function Expansion(rule: ResourceRule, lists: seq<ApiResourceList>): Option<seq<Gvk>> {
    if !IsValid(rule) then None
    else if IsKccGlob(rule) then Some(GlobGvks(rule, lists))
    else Some([Gvk(rule.group, rule.version, rule.kind)])
  }

  method ExpandRule(rule: ResourceRule, lists: seq<ApiResourceList>) returns (r: Option<seq<Gvk>>)
    ensures r == Expansion(rule, lists)
  {
    if !IsValid(rule) {
      return None;
    }
    if !IsKccGlob(rule) {
      return Some([Gvk(rule.group, rule.version, rule.kind)]);
    }
    var gvks: seq<Gvk> := [];
    for i := 0 to |lists|
      invariant gvks == GlobGvks(rule, lists[..i])
    {
      assert lists[..i + 1][..i] == lists[..i];
      var parsed := ParseGroupVersion(lists[i].groupVersion);
      if parsed.None? || !GroupMatches(rule, parsed.value.group) {
        assert ListGvks(rule, lists[i]) == [];
        continue;
      }
      var resources := lists[i].resources;
      for j := 0 to |resources|
        invariant gvks == GlobGvks(rule, lists[..i]) + KindsOf(parsed.value, resources[..j])
      {
        assert resources[..j + 1][..j] == resources[..j];
        if '/' in resources[j].name {
          continue;
        }
        gvks := gvks + [Gvk(parsed.value.group, parsed.value.version, resources[j].kind)];
      }
      assert resources[..|resources|] == resources;
    }
    assert lists[..|lists|] == lists;
    r := Some(gvks);
  }

  /** A parseable discovery entry that is not a subresource. */
  ghost predicate Discovered(lists: seq<ApiResourceList>, g: Gvk) {
    exists list, res ::
      list in lists && res in list.resources && '/' !in res.name
      && ParseGroupVersion(list.groupVersion) == Some(GroupVersion(g.group, g.version)) && res.kind == g.kind
  }

  lemma {:induction false} KindsOfListed(gv: GroupVersion, resources: seq<ApiResource>, g: Gvk)
    ensures g in KindsOf(gv, resources) <==>
            gv == GroupVersion(g.group, g.version)
            && exists res :: res in resources && '/' !in res.name && res.kind == g.kind
  {
    if resources != [] {
      var n := |resources| - 1;
      KindsOfListed(gv, resources[..n], g);
      assert resources == resources[..n] + [resources[n]];
    }
  }

  lemma {:induction false} GlobGvksDiscovered(rule: ResourceRule, lists: seq<ApiResourceList>, g: Gvk)
    ensures g in GlobGvks(rule, lists) <==> GroupMatches(rule, g.group) && Discovered(lists, g)
  {
    if lists != [] {
      var n := |lists| - 1;
      var last := lists[n];
      GlobGvksDiscovered(rule, lists[..n], g);
      assert lists == lists[..n] + [last];
      var parsed := ParseGroupVersion(last.groupVersion);
      if parsed.Some? {
        KindsOfListed(parsed.value, last.resources, g);
      }
    }
  }

  /** Expansion agrees with matching: an accepted rule expands to g exactly when
      the sync step matches g and, for a glob, discovery lists g. */
  lemma ExpansionAgreesWithMatching(rule: ResourceRule, lists: seq<ApiResourceList>, g: Gvk)
    requires IsValid(rule)
    ensures g in Expansion(rule, lists).value <==> MatchesGvk(rule, g) && (HasStar(rule) ==> Discovered(lists, g))
  {
    ValidStarIsKccGlob(rule);
    if IsKccGlob(rule) {
      GlobGvksDiscovered(rule, lists, g);
    }
  }

  /** Among accepted rules, a star and a KCC glob are the same thing. */
  lemma ValidStarIsKccGlob(rule: ResourceRule)
    requires IsValid(rule)
    ensures HasStar(rule) <==> IsKccGlob(rule)
  {
    assert '*' in "*";
  }

  /** Discovery may be skipped when no rule has a star. */
  lemma DiscoveryNotNeeded(rules: seq<ResourceRule>, a: seq<ApiResourceList>, b: seq<ApiResourceList>)
    requires forall rule | rule in rules :: !HasStar(rule)
    ensures forall rule | rule in rules :: Expansion(rule, a) == Expansion(rule, b) && Expansion(rule, a).Some?
  {
    forall rule | rule in rules ensures Expansion(rule, a) == Expansion(rule, b) && Expansion(rule, a).Some? {
      ValidStarIsKccGlob(rule);
    }
  }

  // ---- The wildcard group ----

  predicate IsWildcard(rule: ResourceRule) {
    rule.group == ALL_KCC && rule.version == "*" && rule.kind == "*"
  }

  /** The group ends in the KCC suffix with no dot before it. */
  predicate Dotless(group: string) {
    HasSuffix(group, KCC) && (|group| == |KCC| || group[|group| - |KCC| - 1] != '.')
  }

  lemma DotOrNot(group: string)
    ensures HasSuffix(group, KCC_SUFFIX) <==> HasSuffix(group, KCC) && !Dotless(group)
  {
    assert KCC_SUFFIX == "." + KCC;
    var n := |group| - |KCC|;
    if n > 0 {
      assert group[n - 1..] == [group[n - 1]] + group[n..];
    }
    if HasSuffix(group, KCC_SUFFIX) {
      assert group[n..] == group[n - 1..][1..] == KCC;
      assert group[n - 1] == KCC_SUFFIX[0];
    }
  }

  /** The wildcard `*.cnrm.cloud.google.com` stands for the groups under the domain and
      differs from them exactly on the dotless groups, which it takes as well; the
      sync step and the expansion agree on that. */
  lemma WildcardTakesDotlessGroups(rule: ResourceRule, lists: seq<ApiResourceList>, g: Gvk)
    requires IsWildcard(rule)
    ensures MatchesGvk(rule, g) <==> HasSuffix(g.group, KCC_SUFFIX) || Dotless(g.group)
    ensures !(HasSuffix(g.group, KCC_SUFFIX) && Dotless(g.group))
    ensures IsValid(rule)
    ensures g in Expansion(rule, lists).value
            <==> Discovered(lists, g) && (HasSuffix(g.group, KCC_SUFFIX) || Dotless(g.group))
  {
    DotOrNot(g.group);
    assert rule.version[0] == '*';
    ExpansionAgreesWithMatching(rule, lists, g);
  }

  /** A group outside the domain that the wildcard takes. */
  lemma DotlessExample(lists: seq<ApiResourceList>, version: string, kind: string)
    ensures var g := Gvk("xcnrm.cloud.google.com", version, kind);
            var rule := ResourceRule(ALL_KCC, "*", "*", [], []);
            && !HasSuffix(g.group, KCC_SUFFIX) && MatchesGvk(rule, g) && Expansion(rule, lists).Some?
            && (Discovered(lists, g) ==> g in Expansion(rule, lists).value)
  {
    var group := "xcnrm.cloud.google.com";
    assert group[1..] == KCC && group[0] == 'x';
    WildcardTakesDotlessGroups(ResourceRule(ALL_KCC, "*", "*", [], []), lists, Gvk(group, version, kind));
  }

  // ---- What rules stand for, spelled out ----

  lemma HasSuffixMeans(s: string, t: string)
    ensures HasSuffix(s, t) <==> exists p: string :: s == p + t
  {
    if HasSuffix(s, t) {
      assert s == s[..|s| - |t|] + t;
    }
    if p: string :| s == p + t {
      assert s[|s| - |t|..] == t;
    }
  }

  /** The rules with a star that validation admits: version and kind are the star,
      and the group is the KCC domain or ends in it after a dot. */
  lemma StarsNeedKccGroup(rule: ResourceRule)
    ensures IsValid(rule) <==>
              || ('*' !in rule.group && '*' !in rule.version && '*' !in rule.kind)
              || (rule.version == "*" && rule.kind == "*"
                  && (rule.group == "cnrm.cloud.google.com"
                      || exists p: string :: rule.group == p + ".cnrm.cloud.google.com"))
  {
    HasSuffixMeans(rule.group, KCC_SUFFIX);
    assert ALL_KCC == "*" + KCC_SUFFIX;
    assert '*' in "*";
  }

  /** The GVKs a rule is meant for. Only the wildcard group reaches beyond the group of
      the rule; in it, stars stand for every version and kind. */
  ghost predicate MeantFor(rule: ResourceRule, g: Gvk) {
    if rule.group == "*.cnrm.cloud.google.com" then exists p: string :: g.group == p + "cnrm.cloud.google.com"
    else g.group == rule.group && (rule.version == "*" || (g.version == rule.version && g.kind == rule.kind))
  }

  /** A valid rule matches exactly the GVKs it is meant for, and expands to those of
      them that discovery lists or, without stars, to the one it names. */
  lemma ValidRulesMatchTheirGroup(rule: ResourceRule, lists: seq<ApiResourceList>, g: Gvk)
    requires IsValid(rule)
    ensures MatchesGvk(rule, g) <==> MeantFor(rule, g)
    ensures g in Expansion(rule, lists).value <==> MeantFor(rule, g) && (rule.version == "*" ==> Discovered(lists, g))
  {
    HasSuffixMeans(g.group, KCC);
    assert ALL_KCC[0] == '*' && "*"[0] == '*';
    ValidStarIsKccGlob(rule);
    ExpansionAgreesWithMatching(rule, lists, g);
  }
}
