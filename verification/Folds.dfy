/** The fold of rules through one field manager, stated on syncers, rules and
    the source object. */
module Folds {
  import opened Wrappers
  import opened Json
  import opened Rules
  import opened FilterFields
  import opened SyncFields
  import opened ServerSideApply
  import opened Bodies
  import opened Destinations
  import opened Attempts
  import opened Jobs
  import opened Runs
  import opened Passes

  predicate JobTo(j: Job, d: Dest) {
    j.dest == Some(d)
  }

  /** The i-th job is the last one that goes to `d`. */
  predicate IsLastTo(jobs: seq<Job>, i: nat, d: Dest) {
    i < |jobs| && JobTo(jobs[i], d) && forall n | i < n < |jobs| :: !JobTo(jobs[n], d)
  }

  predicate Syncable(jobs: seq<Job>) {
    forall j | j in jobs :: forall f | f in j.rule.syncFields :: f in SYNCABLE
  }

  /** The filtered object of a job, ready to be applied. */
  function ObjectOf(src: Fields, rule: ResourceRule): Option<Fields> {
    match Filtered(src, rule.syncFields)
    case Success(obj) => Some(Prepared(obj))
    case Failure(_) => None
  }

  lemma TaskObject(src: Fields, rule: ResourceRule)
    requires TaskOf(Some(src), rule).Write?
    ensures ObjectOf(src, rule).Some?
    ensures var t, obj := TaskOf(Some(src), rule), ObjectOf(src, rule).value;
            t.main == MainBody(obj) && t.status == if "status" in obj then Some(StatusBody(obj)) else None
  {
  }

  /** The bodies of a written job: the status is patched exactly when the rule
      lists it and the source has one, with the whole of it. */
  lemma TaskBodies(src: Fields, rule: ResourceRule)
    requires TaskOf(Some(src), rule).Write?
    requires forall f | f in rule.syncFields :: f in SYNCABLE
    ensures var t := TaskOf(Some(src), rule);
            && Filtered(src, rule.syncFields).Success?
            && t.main == MainBody(Filtered(src, rule.syncFields).value)
            && t.status == if "status" in rule.syncFields && "status" in src then Some(StatusBody(src)) else None
  {
    SyncableFieldsAreOrdinary(rule.syncFields);
    ProjectionIsPrepared(src, rule.syncFields);
    if "status" in rule.syncFields {
      ListedStatusIsSourceStatus(src, rule.syncFields);
    } else {
      UnlistedStatusIsAbsent(src, rule.syncFields);
    }
  }

  lemma {:induction false} LastMainBody(works: seq<Work>, i: nat, d: Dest)
    requires AllWrites(works) && i < |works| && works[i].dest == Some(d)
    requires forall n | i < n < |works| :: works[n].dest != Some(d)
    ensures MainBodies(works, d) != [] && Last(MainBodies(works, d)) == works[i].task.main
  {
    var n := |works| - 1;
    if i < n {
      LastMainBody(works[..n], i, d);
      assert MainBodies(works, d) == MainBodies(works[..n], d) + [];
    }
  }

  lemma {:induction false} StatusBodiesAre(works: seq<Work>, d: Dest, body: Body)
    requires forall i | 0 <= i < |works| ::
               works[i].task.Write? && (works[i].task.status.Some? ==> works[i].task.status.value == body)
    ensures forall b | b in StatusBodies(works, d) :: b == body
    ensures StatusBodies(works, d) != [] <==>
            exists i | 0 <= i < |works| :: works[i].dest == Some(d) && works[i].task.status == Some(body)
  {
    if works != [] {
      var n := |works| - 1;
      StatusBodiesAre(works[..n], d, body);
      if StatusBodies(works[..n], d) != [] {
        var i :| 0 <= i < n && works[..n][i].dest == Some(d) && works[..n][i].task.status == Some(body);
        assert works[i].dest == Some(d) && works[i].task.status == Some(body);
      }
      if i :| 0 <= i < |works| && works[i].dest == Some(d) && works[i].task.status == Some(body) {
        assert i < n ==> works[..n][i].dest == Some(d) && works[..n][i].task.status == Some(body);
      }
    }
  }

  lemma {:induction false} MainBodiesAre(works: seq<Work>, d: Dest, b: Body)
    requires b in MainBodies(works, d)
    ensures exists i | 0 <= i < |works| :: works[i].dest == Some(d) && works[i].task.Write? && works[i].task.main == b
  {
    var n := |works| - 1;
    if b in MainBodies(works[..n], d) {
      MainBodiesAre(works[..n], d, b);
      var i :| 0 <= i < n && works[..n][i].dest == Some(d) && works[..n][i].task.Write? && works[..n][i].task.main == b;
      assert works[i].task.main == b;
    } else {
      assert works[n].task.main == b;
    }
  }

  predicate StatusJob(j: Job, d: Dest) {
    JobTo(j, d) && "status" in j.rule.syncFields
  }

  /** Fold of rules through one field manager. After an error-free pass on a
      present source, at every destination of a matching rule the object exists,
      krm-syncer owns in the main lane exactly the projection of the last rule
      for that destination, and in the status lane exactly the source status if
      one of those rules lists it and the source has one; otherwise the status
      lane is as it was. */
  lemma PassOwnsLastProjection(fleet: Fleet, w: Watcher, syncers: seq<KRMSyncer>, req: Request, src: Fields,
                               faults: Faults, d: Dest, i: nat)
    requires Pass(fleet, w, syncers, req, Some(src), faults).attempt.errors == []
    requires Syncable(JobsOf(w, syncers, req.namespace))
    requires IsLastTo(JobsOf(w, syncers, req.namespace), i, d)
    ensures var jobs := JobsOf(w, syncers, req.namespace);
            var before := ObjectOn(fleet, d, KeyOf(w, req));
            var after := ObjectOn(Pass(fleet, w, syncers, req, Some(src), faults).fleet, d, KeyOf(w, req));
            var last := Filtered(src, jobs[i].rule.syncFields);
            && after.Some? && last.Success?
            && Owned(MainLane(after), FIELD_MANAGER) == MainBody(last.value)
            && (if "status" in src && exists n | 0 <= n < |jobs| :: StatusJob(jobs[n], d)
                then Owned(StatusLane(after), FIELD_MANAGER) == StatusBody(src)
                else StatusLane(after) == StatusLane(before))
  {
    var jobs := JobsOf(w, syncers, req.namespace);
    var works := WorksFor(w, syncers, req, Some(src));
    var after := Pass(fleet, w, syncers, req, Some(src), faults).fleet;
    PassIsFold(fleet, w, syncers, req, Some(src), faults);
    CompletedKinds(Some(src), jobs, KeyOf(w, req), after);
    MainLaneOfJobs(ObjectOn(fleet, d, KeyOf(w, req)), src, jobs, d, i);
    StatusBodiesOfJobs(src, jobs, d);
    StatusLaneOfWorks(ObjectOn(fleet, d, KeyOf(w, req)), works, d, StatusBody(src));
  }

  lemma MainLaneOfJobs(before: Option<DestObject>, src: Fields, jobs: seq<Job>, d: Dest, i: nat)
    requires AllWrites(WorksOf(Some(src), jobs)) && Syncable(jobs) && IsLastTo(jobs, i, d)
    ensures Filtered(src, jobs[i].rule.syncFields).Success?
    ensures var after := ApplyWorks(before, WorksOf(Some(src), jobs), d);
            after.Some?
            && Owned(MainLane(after), FIELD_MANAGER) == MainBody(Filtered(src, jobs[i].rule.syncFields).value)
  {
    var works := WorksOf(Some(src), jobs);
    WorkDests(Some(src), jobs);
    WorkBodies(src, jobs, i);
    MainLaneOfWorks(before, works, d, i);
  }

  lemma WorkDests(source: Source, jobs: seq<Job>)
    ensures forall n | 0 <= n < |jobs| :: WorksOf(source, jobs)[n].dest == jobs[n].dest
  {
  }

  lemma StatusLaneOfWorks(before: Option<DestObject>, works: seq<Work>, d: Dest, body: Body)
    requires AllWrites(works)
    requires forall b | b in StatusBodies(works, d) :: b == body
    ensures var lane := StatusLane(ApplyWorks(before, works, d));
            if StatusBodies(works, d) != [] then Owned(lane, FIELD_MANAGER) == body else lane == StatusLane(before)
  {
    WritesAreApplies(before, works, d);
    var bodies := StatusBodies(works, d);
    if bodies != [] {
      assert bodies[|bodies| - 1] in bodies;
      ApplyAllOwns(StatusLane(before), FIELD_MANAGER, bodies);
    }
  }

  lemma MainLaneOfWorks(before: Option<DestObject>, works: seq<Work>, d: Dest, i: nat)
    requires AllWrites(works) && i < |works| && works[i].dest == Some(d)
    requires forall n | i < n < |works| :: works[n].dest != Some(d)
    ensures var after := ApplyWorks(before, works, d);
            after.Some? && Owned(MainLane(after), FIELD_MANAGER) == works[i].task.main
  {
    WritesAreApplies(before, works, d);
    LastMainBody(works, i, d);
    ApplyAllOwns(MainLane(before), FIELD_MANAGER, MainBodies(works, d));
  }

  lemma StatusBodiesOfJobs(src: Fields, jobs: seq<Job>, d: Dest)
    requires AllWrites(WorksOf(Some(src), jobs)) && Syncable(jobs)
    ensures var bodies := StatusBodies(WorksOf(Some(src), jobs), d);
            && (forall b | b in bodies :: b == StatusBody(src))
            && (bodies != [] <==> "status" in src && exists n | 0 <= n < |jobs| :: StatusJob(jobs[n], d))
  {
    var works := WorksOf(Some(src), jobs);
    forall n | 0 <= n < |jobs|
      ensures works[n].dest == jobs[n].dest
      ensures works[n].task.status
              == if "status" in jobs[n].rule.syncFields && "status" in src then Some(StatusBody(src)) else None
    {
      WorkBodies(src, jobs, n);
    }
    StatusBodiesAre(works, d, StatusBody(src));
    if n :| 0 <= n < |jobs| && StatusJob(jobs[n], d) {
      if "status" in src {
        assert works[n].dest == Some(d) && works[n].task.status == Some(StatusBody(src));
      }
    }
    if n :| 0 <= n < |works| && works[n].dest == Some(d) && works[n].task.status == Some(StatusBody(src)) {
      assert StatusJob(jobs[n], d);
    }
  }

  lemma WorkBodies(src: Fields, jobs: seq<Job>, i: nat)
    requires AllWrites(WorksOf(Some(src), jobs)) && Syncable(jobs) && i < |jobs|
    ensures var work, fields := WorksOf(Some(src), jobs)[i], jobs[i].rule.syncFields;
            && work.dest == jobs[i].dest
            && Filtered(src, fields).Success?
            && work.task.main == MainBody(Filtered(src, fields).value)
            && work.task.status == if "status" in fields && "status" in src then Some(StatusBody(src)) else None
  {
    assert jobs[i] in jobs && WorksOf(Some(src), jobs)[i].task.Write?;
    TaskBodies(src, jobs[i].rule);
  }

  // ---- The order of syncers ----

  /** The syncers that a watcher accepts and that go to `d`, in order. */
  function SyncersTo(w: Watcher, syncers: seq<KRMSyncer>, d: Dest): seq<KRMSyncer> {
    if syncers == [] then []
    else (if AcceptsSyncer(w, syncers[0]) && DestOf(w, syncers[0]) == Some(d) then [syncers[0]] else [])
         + SyncersTo(w, syncers[1..], d)
  }

  lemma {:induction false} ApplyWorksAppend(obj: Option<DestObject>, a: seq<Work>, b: seq<Work>, d: Dest)
    ensures ApplyWorks(obj, a + b, d) == ApplyWorks(ApplyWorks(obj, a, d), b, d)
  {
    if b == [] {
      assert a + b == a;
    } else {
      var n := |b| - 1;
      ApplyWorksAppend(obj, a, b[..n], d);
      assert a + b == a + b[..n] + [b[n]];
      ApplyWorksOneMore(obj, a + b[..n], b[n], d);
    }
  }

  lemma {:induction false} NoEffectElsewhere(obj: Option<DestObject>, works: seq<Work>, d: Dest)
    requires !Targets(works, d)
    ensures ApplyWorks(obj, works, d) == obj
  {
    if works != [] {
      TargetsInit(works, d);
      NoEffectElsewhere(obj, works[..|works| - 1], d);
    }
  }

  /** At one destination only the syncers that go there matter. */
  lemma {:induction false} OnlySyncersToMatter(obj: Option<DestObject>, w: Watcher, syncers: seq<KRMSyncer>, req: Request,
                                               source: Source, d: Dest)
    ensures ApplyWorks(obj, WorksFor(w, syncers, req, source), d)
            == ApplyWorks(obj, WorksFor(w, SyncersTo(w, syncers, d), req, source), d)
    ensures Targets(WorksFor(w, syncers, req, source), d)
            <==> Targets(WorksFor(w, SyncersTo(w, syncers, d), req, source), d)
    decreases |syncers|
  {
    if syncers != [] {
      var s, rest := syncers[0], syncers[1..];
      var own := if AcceptsSyncer(w, s) then RuleJobs(w, s, s.rules, req.namespace) else [];
      var first := WorksOf(source, own);
      var obj' := ApplyWorks(obj, first, d);
      MapAppend(Worker(source), own, JobsOf(w, rest, req.namespace));
      ApplyWorksAppend(obj, first, WorksFor(w, rest, req, source), d);
      OnlySyncersToMatter(obj', w, rest, req, source, d);
      TargetsAppend(first, WorksFor(w, rest, req, source), d);
      if AcceptsSyncer(w, s) && DestOf(w, s) == Some(d) {
        var kept := SyncersTo(w, rest, d);
        assert ([s] + kept)[1..] == kept;
        MapAppend(Worker(source), own, JobsOf(w, kept, req.namespace));
        ApplyWorksAppend(obj, first, WorksFor(w, kept, req, source), d);
        TargetsAppend(first, WorksFor(w, kept, req, source), d);
      } else {
        forall i | 0 <= i < |own| ensures first[i].dest != Some(d) {
          RuleJobsAre(w, s, s.rules, req.namespace, own[i]);
        }
        NoEffectElsewhere(obj, first, d);
        assert SyncersTo(w, syncers, d) == [] + SyncersTo(w, rest, d) == SyncersTo(w, rest, d);
      }
    }
  }

  lemma TargetsAppend(a: seq<Work>, b: seq<Work>, d: Dest)
    ensures Targets(a + b, d) <==> Targets(a, d) || Targets(b, d)
  {
    if Targets(a, d) {
      var i :| 0 <= i < |a| && a[i].dest == Some(d);
      assert (a + b)[i].dest == Some(d);
    }
    if Targets(b, d) {
      var i :| 0 <= i < |b| && b[i].dest == Some(d);
      assert (a + b)[|a| + i].dest == Some(d);
    }
    if Targets(a + b, d) {
      var i :| 0 <= i < |a + b| && (a + b)[i].dest == Some(d);
      assert if i < |a| then a[i].dest == Some(d) else b[i - |a|].dest == Some(d);
    }
  }

  /** Reordering syncers that go to different destinations changes nothing: two
      lists with the same syncers, in the same order, for each destination give
      the same clusters after an error-free pass. */
  lemma SyncerOrderAcrossDestinations(fleet: Fleet, w: Watcher, s1: seq<KRMSyncer>, s2: seq<KRMSyncer>, req: Request,
                                      source: Source, f1: Faults, f2: Faults)
    requires forall d :: SyncersTo(w, s1, d) == SyncersTo(w, s2, d)
    requires Pass(fleet, w, s1, req, source, f1).attempt.errors == []
    requires Pass(fleet, w, s2, req, source, f2).attempt.errors == []
    ensures forall d :: On(Pass(fleet, w, s1, req, source, f1).fleet, d) == On(Pass(fleet, w, s2, req, source, f2).fleet, d)
  {
    var k := KeyOf(w, req);
    var a1, a2 := Pass(fleet, w, s1, req, source, f1).fleet, Pass(fleet, w, s2, req, source, f2).fleet;
    forall d ensures On(a1, d) == On(a2, d) {
      PassOutcome(fleet, w, s1, req, source, f1, d);
      PassOutcome(fleet, w, s2, req, source, f2, d);
      OnlySyncersToMatter(ObjectOn(fleet, d, k), w, s1, req, source, d);
      OnlySyncersToMatter(ObjectOn(fleet, d, k), w, s2, req, source, d);
      SameMap(On(a1, d).objects, On(a2, d).objects);
    }
  }

  /** An error-free pass determines every destination cluster. */
  lemma PassOutcome(fleet: Fleet, w: Watcher, syncers: seq<KRMSyncer>, req: Request, source: Source, faults: Faults, d: Dest)
    requires Pass(fleet, w, syncers, req, source, faults).attempt.errors == []
    ensures var c := On(Pass(fleet, w, syncers, req, source, faults).fleet, d);
            var k, works := KeyOf(w, req), WorksFor(w, syncers, req, source);
            && (forall x :: Get(c.objects, x) == if x == k then ApplyWorks(ObjectOn(fleet, d, k), works, d)
                                                  else ObjectOn(fleet, d, x))
            && c.namespaces == On(fleet, d).namespaces
                               + (if source.Some? && Targets(works, d) && req.namespace != "" then {req.namespace} else {})
  {
    PassFrame(fleet, w, syncers, req, source, faults);
    PassIsFold(fleet, w, syncers, req, source, faults);
    assert Confined(On(fleet, d), On(Pass(fleet, w, syncers, req, source, faults).fleet, d), KeyOf(w, req));
    PassNamespaces(fleet, w, syncers, req, source, faults, d);
  }

  lemma PassNamespaces(fleet: Fleet, w: Watcher, syncers: seq<KRMSyncer>, req: Request, source: Source, faults: Faults,
                       d: Dest)
    requires Pass(fleet, w, syncers, req, source, faults).attempt.errors == []
    ensures var works := WorksFor(w, syncers, req, source);
            On(Pass(fleet, w, syncers, req, source, faults).fleet, d).namespaces
            == On(fleet, d).namespaces
               + (if source.Some? && Targets(works, d) && req.namespace != "" then {req.namespace} else {})
  {
    var k, works := KeyOf(w, req), WorksFor(w, syncers, req, source);
    var after := Pass(fleet, w, syncers, req, source, faults).fleet;
    PassIsFold(fleet, w, syncers, req, source, faults);
    PassFrame(fleet, w, syncers, req, source, faults);
    CompletedKinds(source, JobsOf(w, syncers, req.namespace), k, after);
    assert Confined(On(fleet, d), On(after, d), k);
    if source.None? {
      RemovingCreatesNothing(State(fleet, Begin(k, works)), faults);
    } else if Targets(works, d) {
      var i :| 0 <= i < |works| && works[i].dest == Some(d);
      assert Completed(k, works[i], after);
    }
  }
}
