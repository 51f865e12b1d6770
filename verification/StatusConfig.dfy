/** The KRMSyncer that deploy.sh renders, and what the order of its rules does
    to spec.resourceID. */
module StatusConfig {
  import Text
  import opened Wrappers
  import opened Json
  import opened Gvks
  import opened Remotes
  import opened Rules
  import opened FilterFields
  import opened SyncFields
  import opened ServerSideApply
  import opened Bodies
  import opened Destinations
  import opened Attempts
  import opened Jobs
  import opened Passes
  import opened Folds

  const RESOURCE_ID_PATH: Path := [SPEC, RESOURCE_ID]

  function WildcardRule(fields: seq<string>): ResourceRule {
    ResourceRule(ALL_KCC, "*", "*", [], fields)
  }

  /** print_resource_id_rule. */
  function ResourceIdRule(g: Gvk): ResourceRule {
    ResourceRule(g.group, g.version, g.kind, [], [STATUS, SPEC_RESOURCE_ID])
  }

  function ResourceIdRules(gvks: seq<Gvk>): seq<ResourceRule> {
    Map(ResourceIdRule, gvks)
  }

  /** Status mode: the wildcard first, then one rule per listed GVK. */
  function StatusModeRules(gvks: seq<Gvk>): seq<ResourceRule> {
    [WildcardRule([STATUS])] + ResourceIdRules(gvks)
  }

  /** The order the template warns against. */
  function WildcardLast(gvks: seq<Gvk>): seq<ResourceRule> {
    ResourceIdRules(gvks) + [WildcardRule([STATUS])]
  }

  /** The watcher of a GVK that this syncer starts. */
  predicate WatchesFor(w: Watcher, s: KRMSyncer) {
    w.mode == PULL && Key(s.remote) == Some(w.connection) && !s.suspend && s.mode == PULL
  }

  // ---- Which jobs the rules give ----

  /** All jobs of the listed rules are alike, and a listed GVK has one. */
  lemma ListedJobs(w: Watcher, s: KRMSyncer, gvks: seq<Gvk>, ns: string)
    requires WatchesFor(w, s)
    ensures forall j | j in RuleJobs(w, s, ResourceIdRules(gvks), ns) ::
              j.dest == Some(Local) && j.rule.syncFields == [STATUS, SPEC_RESOURCE_ID]
    ensures w.gvk in gvks ==> RuleJobs(w, s, ResourceIdRules(gvks), ns) != []
  {
    var rules := ResourceIdRules(gvks);
    forall j | j in RuleJobs(w, s, rules, ns)
      ensures j.dest == Some(Local) && j.rule.syncFields == [STATUS, SPEC_RESOURCE_ID]
    {
      RuleJobsAre(w, s, rules, ns, j);
      var i :| 0 <= i < |rules| && rules[i] == j.rule;
      assert rules[i] == ResourceIdRule(gvks[i]);
    }
    if w.gvk in gvks {
      var i :| 0 <= i < |gvks| && gvks[i] == w.gvk;
      assert rules[i] == ResourceIdRule(w.gvk);
      ListedRuleMatches(w.gvk);
      var j := Job(DestOf(w, s), s, rules[i]);
      RuleJobsAre(w, s, rules, ns, j);
      assert j in RuleJobs(w, s, rules, ns);
    }
  }

  lemma AllKccMatchesItself()
    ensures Text.HasSuffix(ALL_KCC, KCC)
  {
    assert ALL_KCC[2..] == KCC;
  }

  lemma ListedRuleMatches(g: Gvk)
    ensures MatchesGvk(ResourceIdRule(g), g)
  {
    AllKccMatchesItself();
  }

  lemma WildcardJobs(w: Watcher, s: KRMSyncer, ns: string)
    requires WatchesFor(w, s)
    ensures RuleJobs(w, s, [WildcardRule([STATUS])], ns)
            == if Text.HasSuffix(w.gvk.group, KCC) then [Job(Some(Local), s, WildcardRule([STATUS]))] else []
  {
    var rules := [WildcardRule([STATUS])];
    assert rules[1..] == [];
    assert "*" == "*" && IsKccGlob(rules[0]);
  }

  lemma PulledJobs(w: Watcher, s: KRMSyncer, ns: string)
    requires WatchesFor(w, s)
    ensures JobsOf(w, [s], ns) == RuleJobs(w, s, s.rules, ns)
  {
    OneSyncer(w, s, ns);
  }

  // ---- What the rules' bodies hold ----

  /** The main body of a resource-ID rule is the resource ID, when the source
      has one that is a single value. */
  lemma ResourceIdBody(src: Fields, id: Json)
    requires Filtered(src, [STATUS, SPEC_RESOURCE_ID]).Success?
    requires At(Tree(src), RESOURCE_ID_PATH) == Some(id) && IsLeaf(Some(id))
    ensures MainBody(Filtered(src, [STATUS, SPEC_RESOURCE_ID]).value) == map[RESOURCE_ID_PATH := id]
  {
    var body := MainBody(Filtered(src, [STATUS, SPEC_RESOURCE_ID]).value);
    forall q ensures Get(body, q) == Get(map[RESOURCE_ID_PATH := id], q) {
      ResourceIdBodyAt(src, id, q);
    }
    SameMap(body, map[RESOURCE_ID_PATH := id]);
  }

  lemma ResourceIdBodyAt(src: Fields, id: Json, q: Path)
    requires Filtered(src, [STATUS, SPEC_RESOURCE_ID]).Success?
    requires At(Tree(src), RESOURCE_ID_PATH) == Some(id) && IsLeaf(Some(id))
    ensures Get(MainBody(Filtered(src, [STATUS, SPEC_RESOURCE_ID]).value), q)
            == if q == RESOURCE_ID_PATH then Some(id) else None
  {
    var fields := [STATUS, SPEC_RESOURCE_ID];
    SyncableFieldsAreOrdinary(fields);
    SyncableIsNotReserved();
    if Ordinary(q) && q[0] != STATUS {
      BodiesAreSourceLeaves(src, fields, q);
      ResourceIdCovers(src, id, q);
    } else if q != [] && q[0] in RESERVED {
      NotFull(fields);
      StatusModeHasNoMetadata(src, fields, q);
    }
  }

  /** Outside status, the resource-ID fields cover the ID and nothing else that
      has a value. */
  lemma ResourceIdCovers(src: Fields, id: Json, q: Path)
    requires At(Tree(src), RESOURCE_ID_PATH) == Some(id) && IsLeaf(Some(id))
    requires q != [] && q[0] != STATUS
    ensures Covered(src, [STATUS, SPEC_RESOURCE_ID], q) && At(Tree(src), q).Some? <==> q == RESOURCE_ID_PATH
  {
    CoveredByTwo(src, STATUS, SPEC_RESOURCE_ID, q);
    SplitSyncable();
    HitsResourceId(src, id);
    StatusPrefix(q);
    if RESOURCE_ID_PATH <= q {
      NothingBelowLeaf(src, id, q);
    }
  }

  lemma CoveredByTwo(src: Fields, f: string, g: string, q: Path)
    ensures Covered(src, [f, g], q) <==>
            (Hits(src, f) && Text.Split(f, '.') <= q) || (Hits(src, g) && Text.Split(g, '.') <= q)
  {
    assert [f, g][0] in [f, g] && [f, g][1] in [f, g];
  }

  lemma HitsResourceId(src: Fields, id: Json)
    requires At(Tree(src), RESOURCE_ID_PATH) == Some(id)
    ensures Hits(src, SPEC_RESOURCE_ID)
  {
    SplitSyncable();
    NestedIsAt(Tree(src), RESOURCE_ID_PATH);
  }

  lemma StatusPrefix(q: Path)
    requires q != [] && q[0] != STATUS
    ensures !([STATUS] <= q)
  {
  }

  lemma NothingBelowLeaf(src: Fields, id: Json, q: Path)
    requires At(Tree(src), RESOURCE_ID_PATH) == Some(id) && IsLeaf(Some(id)) && RESOURCE_ID_PATH <= q
    ensures At(Tree(src), q).Some? ==> q == RESOURCE_ID_PATH
  {
    var r := q[|RESOURCE_ID_PATH|..];
    assert q == RESOURCE_ID_PATH + r;
    AtAppend(Tree(src), RESOURCE_ID_PATH, r);
  }

  lemma NotFull(fields: seq<string>)
    requires forall f | f in fields :: f == STATUS || f == SPEC_RESOURCE_ID
    ensures "spec" !in fields
  {
    assert |SPEC| == 4 && |STATUS| == 6 && |SPEC_RESOURCE_ID| == 15;
    forall i | 0 <= i < |fields| ensures fields[i] != "spec" {
      assert fields[i] in fields;
    }
  }

  /** The main body of a status-only rule is empty. */
  lemma StatusOnlyBody(src: Fields)
    requires Filtered(src, [STATUS]).Success?
    ensures MainBody(Filtered(src, [STATUS]).value) == map[]
  {
    var fields := [STATUS];
    var body := MainBody(Filtered(src, fields).value);
    SplitSyncable();
    SyncableFieldsAreOrdinary(fields);
    forall q ensures Get(body, q) == Get(map[], q) {
      if Ordinary(q) && q[0] != STATUS {
        BodiesAreSourceLeaves(src, fields, q);
      } else if q != [] && q[0] in RESERVED {
        NotFull(fields);
        StatusModeHasNoMetadata(src, fields, q);
      }
    }
    SameMap(body, map[]);
  }

  // ---- The two orders ----

  /** The jobs of a configuration made of the wildcard and the listed rules, in
      either order: all local, with one of the two field lists. */
  ghost predicate StatusJobs(jobs: seq<Job>) {
    forall i | 0 <= i < |jobs| ::
      jobs[i].dest == Some(Local) && jobs[i].rule.syncFields in {[STATUS], [STATUS, SPEC_RESOURCE_ID]}
  }

  lemma StatusJobsAreSyncable(jobs: seq<Job>)
    requires StatusJobs(jobs)
    ensures Syncable(jobs)
  {
    forall j | j in jobs ensures forall f | f in j.rule.syncFields :: f in SYNCABLE {
      var i :| 0 <= i < |jobs| && jobs[i] == j;
    }
  }

  /** The main body of each of these jobs. */
  lemma StatusJobBody(src: Fields, id: Json, jobs: seq<Job>, i: nat)
    requires StatusJobs(jobs) && i < |jobs| && AllWrites(WorksOf(Some(src), jobs))
    requires At(Tree(src), RESOURCE_ID_PATH) == Some(id) && IsLeaf(Some(id))
    ensures WorksOf(Some(src), jobs)[i].task.main
            == if jobs[i].rule.syncFields == [STATUS] then map[] else map[RESOURCE_ID_PATH := id]
  {
    StatusJobsAreSyncable(jobs);
    WorkBodies(src, jobs, i);
    if jobs[i].rule.syncFields == [STATUS] {
      StatusOnlyBody(src);
    } else {
      ResourceIdBody(src, id);
    }
  }

  lemma WildcardFirstJobs(w: Watcher, s: KRMSyncer, gvks: seq<Gvk>, ns: string)
    requires WatchesFor(w, s) && s.rules == StatusModeRules(gvks) && w.gvk in gvks
    ensures var jobs := JobsOf(w, [s], ns);
            StatusJobs(jobs) && jobs != [] && jobs[|jobs| - 1].rule.syncFields == [STATUS, SPEC_RESOURCE_ID]
  {
    PulledJobs(w, s, ns);
    RuleJobsAppend(w, s, [WildcardRule([STATUS])], ResourceIdRules(gvks), ns);
    WildcardJobs(w, s, ns);
    ListedJobs(w, s, gvks, ns);
    var listed := RuleJobs(w, s, ResourceIdRules(gvks), ns);
    assert forall i | 0 <= i < |listed| :: listed[i] in listed;
  }

  /** Status mode as rendered. For every listed GVK and every error-free pass on a
      source with a resource ID, krm-syncer ends up owning spec.resourceID, with
      the source's value, and nothing else outside status; fields that other
      managers hold keep value and owners; the status is the source's. */
  lemma RenderedConfigKeepsResourceId(fleet: Fleet, w: Watcher, s: KRMSyncer, gvks: seq<Gvk>, req: Request, src: Fields,
                                      id: Json, faults: Faults)
    requires WatchesFor(w, s) && s.rules == StatusModeRules(gvks) && w.gvk in gvks
    requires At(Tree(src), RESOURCE_ID_PATH) == Some(id) && IsLeaf(Some(id))
    requires Pass(fleet, w, [s], req, Some(src), faults).attempt.errors == []
    ensures var before := ObjectOn(fleet, Local, KeyOf(w, req));
            var after := ObjectOn(Pass(fleet, w, [s], req, Some(src), faults).fleet, Local, KeyOf(w, req));
            && after.Some?
            && Owned(MainLane(after), FIELD_MANAGER) == map[RESOURCE_ID_PATH := id]
            && (forall p | p != RESOURCE_ID_PATH && p in MainLane(before) && FIELD_MANAGER !in MainLane(before)[p].owners ::
                  Get(MainLane(after), p) == Get(MainLane(before), p))
            && ("status" in src ==> Owned(StatusLane(after), FIELD_MANAGER) == StatusBody(src))
  {
    var jobs, works := JobsOf(w, [s], req.namespace), WorksFor(w, [s], req, Some(src));
    var k, n := KeyOf(w, req), |JobsOf(w, [s], req.namespace)| - 1;
    WildcardFirstJobs(w, s, gvks, req.namespace);
    StatusJobsAreSyncable(jobs);
    PassIsFold(fleet, w, [s], req, Some(src), faults);
    CompletedKinds(Some(src), jobs, k, Pass(fleet, w, [s], req, Some(src), faults).fleet);
    PassOwnsLastProjection(fleet, w, [s], req, src, faults, Local, n);
    ResourceIdBody(src, id);
    assert StatusJob(jobs[n], Local);
    var before := ObjectOn(fleet, Local, k);
    forall p | p != RESOURCE_ID_PATH && p in MainLane(before) && FIELD_MANAGER !in MainLane(before)[p].owners
      ensures Get(MainLane(ObjectOn(Pass(fleet, w, [s], req, Some(src), faults).fleet, Local, k)), p)
              == Get(MainLane(before), p)
    {
      OnlyResourceIdIsNamed(src, id, jobs, p);
      PassKeepsForeignFields(fleet, w, [s], req, src, faults, Local, p);
    }
  }

  lemma OnlyResourceIdIsNamed(src: Fields, id: Json, jobs: seq<Job>, p: Path)
    requires StatusJobs(jobs) && AllWrites(WorksOf(Some(src), jobs)) && p != RESOURCE_ID_PATH
    requires At(Tree(src), RESOURCE_ID_PATH) == Some(id) && IsLeaf(Some(id))
    ensures forall b | b in MainBodies(WorksOf(Some(src), jobs), Local) :: p !in b
  {
    var works := WorksOf(Some(src), jobs);
    forall b | b in MainBodies(works, Local) ensures p !in b {
      MainBodiesAre(works, Local, b);
      var i :| 0 <= i < |works| && works[i].dest == Some(Local) && works[i].task.Write? && works[i].task.main == b;
      StatusJobBody(src, id, jobs, i);
    }
  }

  /** The status-only job comes last. */
  ghost predicate InLastOrder(jobs: seq<Job>, i: nat)
    requires i < |jobs|
  {
    jobs[i].rule.syncFields == if i < |jobs| - 1 then [STATUS, SPEC_RESOURCE_ID] else [STATUS]
  }

  lemma WildcardLastJobs(w: Watcher, s: KRMSyncer, gvks: seq<Gvk>, ns: string)
    requires WatchesFor(w, s) && s.rules == WildcardLast(gvks) && w.gvk in gvks && Text.HasSuffix(w.gvk.group, KCC)
    ensures var jobs := JobsOf(w, [s], ns);
            StatusJobs(jobs) && |jobs| >= 2 && forall i: nat | i < |jobs| :: InLastOrder(jobs, i)
  {
    PulledJobs(w, s, ns);
    RuleJobsAppend(w, s, ResourceIdRules(gvks), [WildcardRule([STATUS])], ns);
    WildcardJobs(w, s, ns);
    ListedJobs(w, s, gvks, ns);
    var listed := RuleJobs(w, s, ResourceIdRules(gvks), ns);
    assert forall i | 0 <= i < |listed| :: listed[i] in listed;
  }

  /** With the wildcard last, an error-free pass leaves spec.resourceID on the
      destination if and only if another manager held it, with the source's
      value, before the pass; krm-syncer's own copy is dropped. */
  lemma WildcardLastDropsResourceId(fleet: Fleet, w: Watcher, s: KRMSyncer, gvks: seq<Gvk>, req: Request, src: Fields,
                                    id: Json, faults: Faults)
    requires WatchesFor(w, s) && s.rules == WildcardLast(gvks) && w.gvk in gvks && Text.HasSuffix(w.gvk.group, KCC)
    requires At(Tree(src), RESOURCE_ID_PATH) == Some(id) && IsLeaf(Some(id))
    requires Pass(fleet, w, [s], req, Some(src), faults).attempt.errors == []
    ensures var before := MainLane(ObjectOn(fleet, Local, KeyOf(w, req)));
            var after := MainLane(ObjectOn(Pass(fleet, w, [s], req, Some(src), faults).fleet, Local, KeyOf(w, req)));
            && (RESOURCE_ID_PATH in after <==>
                  RESOURCE_ID_PATH in before && before[RESOURCE_ID_PATH].value == id
                  && before[RESOURCE_ID_PATH].owners - {FIELD_MANAGER} != {})
            && (RESOURCE_ID_PATH in after ==>
                  after[RESOURCE_ID_PATH] == Field(id, before[RESOURCE_ID_PATH].owners - {FIELD_MANAGER}))
  {
    var jobs, works := JobsOf(w, [s], req.namespace), WorksFor(w, [s], req, Some(src));
    var k := KeyOf(w, req);
    WildcardLastJobs(w, s, gvks, req.namespace);
    PassIsFold(fleet, w, [s], req, Some(src), faults);
    CompletedKinds(Some(src), jobs, k, Pass(fleet, w, [s], req, Some(src), faults).fleet);
    WritesAreApplies(ObjectOn(fleet, Local, k), works, Local);
    WildcardLastShape(src, id, jobs, works);
    SetByAllButLast(works, Local, RESOURCE_ID_PATH, id, Get(MainLane(ObjectOn(fleet, Local, k)), RESOURCE_ID_PATH));
    ApplyAllAt(MainLane(ObjectOn(fleet, Local, k)), FIELD_MANAGER, MainBodies(works, Local), RESOURCE_ID_PATH);
    ForcedThenReleased(Get(MainLane(ObjectOn(fleet, Local, k)), RESOURCE_ID_PATH), FIELD_MANAGER, id);
  }

  /** One write of a list to d: all but the last set the path to v. */
  ghost predicate SetUnlessLast(works: seq<Work>, i: nat, d: Dest, p: Path, v: Json) {
    && i < |works| && works[i].dest == Some(d) && works[i].task.Write?
    && Get(works[i].task.main, p) == if i < |works| - 1 then Some(v) else None
  }

  ghost predicate AllButLastSet(works: seq<Work>, d: Dest, p: Path, v: Json) {
    AllWrites(works) && |works| >= 2 && forall i: nat | i < |works| :: SetUnlessLast(works, i, d, p, v)
  }

  lemma WildcardLastShape(src: Fields, id: Json, jobs: seq<Job>, works: seq<Work>)
    requires works == WorksOf(Some(src), jobs)
    requires StatusJobs(jobs) && |jobs| >= 2 && AllWrites(works)
    requires At(Tree(src), RESOURCE_ID_PATH) == Some(id) && IsLeaf(Some(id))
    requires forall i: nat | i < |jobs| :: InLastOrder(jobs, i)
    ensures AllButLastSet(works, Local, RESOURCE_ID_PATH, id)
  {
    forall i: nat | i < |works| ensures SetUnlessLast(works, i, Local, RESOURCE_ID_PATH, id) {
      ResourceIdInJob(src, id, jobs, works, i);
    }
  }

  lemma ResourceIdInJob(src: Fields, id: Json, jobs: seq<Job>, works: seq<Work>, i: nat)
    requires works == WorksOf(Some(src), jobs)
    requires StatusJobs(jobs) && i < |jobs| && AllWrites(works)
    requires At(Tree(src), RESOURCE_ID_PATH) == Some(id) && IsLeaf(Some(id))
    requires InLastOrder(jobs, i)
    ensures SetUnlessLast(works, i, Local, RESOURCE_ID_PATH, id)
  {
    StatusJobBody(src, id, jobs, i);
    assert |[STATUS]| != |[STATUS, SPEC_RESOURCE_ID]|;
  }

  lemma SetByAllButLast(works: seq<Work>, d: Dest, p: Path, v: Json, f: Option<Field>)
    requires AllButLastSet(works, d, p, v)
    ensures AppliedAll(f, FIELD_MANAGER, MainBodies(works, d), p) == Released(Forced(f, FIELD_MANAGER, v), FIELD_MANAGER)
  {
    var n := |works| - 1;
    var first, last := MainBodies(works[..n], d), works[n].task.main;
    forall b | b in first ensures Get(b, p) == Some(v) {
      SetInFirst(works, d, p, v, b);
    }
    assert SetUnlessLast(works, 0, d, p, v) && SetUnlessLast(works, n, d, p, v);
    assert works[..n][0] == works[0];
    TargetsHaveBodies(works[..n], d);
    AppliedAllSame(f, FIELD_MANAGER, first, p, v);
    assert MainBodies(works, d) == first + [last];
    assert (first + [last])[..|first|] == first;
  }

  lemma SetInFirst(works: seq<Work>, d: Dest, p: Path, v: Json, b: Body)
    requires AllButLastSet(works, d, p, v) && b in MainBodies(works[..|works| - 1], d)
    ensures Get(b, p) == Some(v)
  {
    var first := works[..|works| - 1];
    MainBodiesAre(first, d, b);
    var i: nat :| i < |first| && first[i].dest == Some(d) && first[i].task.Write? && first[i].task.main == b;
    assert SetUnlessLast(works, i, d, p, v);
  }

  lemma ForcedThenReleased(f: Option<Field>, m: Manager, v: Json)
    ensures Released(Forced(f, m, v), m)
            == if f.Some? && f.value.value == v && f.value.owners - {m} != {} then Some(Field(v, f.value.owners - {m}))
               else None
  {
    if f.Some? {
      var o := f.value.owners;
      assert (o + {m}) - {m} == o - {m};
      assert o + {m} == {m} <==> o - {m} == {};
    }
  }
}
