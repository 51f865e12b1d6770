/** What the rules prescribe for one source object at one destination, stated on
    the rules and the source itself and for any rules, also ones that list other
    fields than the CRD admits. */
module Prescriptions {
  import opened Wrappers
  import opened Json
  import opened Rules
  import opened FilterFields
  import opened ServerSideApply
  import opened Bodies
  import opened Destinations
  import opened Attempts
  import opened Jobs
  import opened Passes
  import opened Folds

  /** The filtered object of the rule has a status. */
  predicate CarriesStatus(src: Fields, rule: ResourceRule) {
    ObjectOf(src, rule).Some? && "status" in ObjectOf(src, rule).value
  }

  predicate StatusTo(src: Fields, j: Job, d: Dest) {
    JobTo(j, d) && CarriesStatus(src, j.rule)
  }

  predicate IsLastStatusTo(src: Fields, jobs: seq<Job>, i: nat, d: Dest) {
    i < |jobs| && StatusTo(src, jobs[i], d) && forall n | i < n < |jobs| :: !StatusTo(src, jobs[n], d)
  }

  predicate GoesTo(jobs: seq<Job>, d: Dest) {
    exists i :: 0 <= i < |jobs| && JobTo(jobs[i], d)
  }

  /** A deleted source: absent. Otherwise: present, krm-syncer owns in the main lane
      exactly the projection of the last rule for the destination, and in the
      status lane exactly the status of the last one that has a status. */
  ghost predicate Prescribed(obj: Option<DestObject>, source: Source, jobs: seq<Job>, d: Dest) {
    match source
    case None => obj.None?
    case Some(src) =>
      && obj.Some?
      && (forall i: nat | IsLastTo(jobs, i, d) ::
            ObjectOf(src, jobs[i].rule).Some?
            && Owned(obj.value.main, "krm-syncer") == MainBody(ObjectOf(src, jobs[i].rule).value))
      && (forall i: nat | IsLastStatusTo(src, jobs, i, d) ::
            Owned(obj.value.status, "krm-syncer") == StatusBody(ObjectOf(src, jobs[i].rule).value))
  }

  // ---- Works and jobs ----

  lemma JobObject(src: Fields, jobs: seq<Job>, i: nat)
    requires i < |jobs| && AllWrites(WorksOf(Some(src), jobs))
    ensures ObjectOf(src, jobs[i].rule).Some?
    ensures var work, obj := WorksOf(Some(src), jobs)[i], ObjectOf(src, jobs[i].rule).value;
            && work.dest == jobs[i].dest && work.task.Write? && work.task.main == MainBody(obj)
            && work.task.status == if "status" in obj then Some(StatusBody(obj)) else None
  {
    assert WorksOf(Some(src), jobs)[i].task.Write?;
    TaskObject(src, jobs[i].rule);
  }

  predicate HasStatusFor(w: Work, d: Dest) {
    w.dest == Some(d) && w.task.Write? && w.task.status.Some?
  }

  lemma {:induction false} LastStatusBody(works: seq<Work>, i: nat, d: Dest)
    requires i < |works| && HasStatusFor(works[i], d) && forall n | i < n < |works| :: !HasStatusFor(works[n], d)
    ensures StatusBodies(works, d) != [] && Last(StatusBodies(works, d)) == works[i].task.status.value
  {
    var n := |works| - 1;
    if i < n {
      LastStatusBody(works[..n], i, d);
      assert StatusBodies(works, d) == StatusBodies(works[..n], d) + [];
    }
  }

  lemma {:induction false} NoStatusBodies(works: seq<Work>, d: Dest)
    requires forall n | 0 <= n < |works| :: !HasStatusFor(works[n], d)
    ensures StatusBodies(works, d) == []
  {
    if works != [] {
      NoStatusBodies(works[..|works| - 1], d);
    }
  }

  lemma StatusWork(src: Fields, jobs: seq<Job>, n: nat, d: Dest)
    requires n < |jobs| && AllWrites(WorksOf(Some(src), jobs))
    ensures HasStatusFor(WorksOf(Some(src), jobs)[n], d) <==> StatusTo(src, jobs[n], d)
  {
    JobObject(src, jobs, n);
  }

  lemma LastStatusOfJobs(src: Fields, jobs: seq<Job>, i: nat, d: Dest)
    requires AllWrites(WorksOf(Some(src), jobs)) && IsLastStatusTo(src, jobs, i, d)
    ensures var bodies := StatusBodies(WorksOf(Some(src), jobs), d);
            bodies != [] && Last(bodies) == StatusBody(ObjectOf(src, jobs[i].rule).value)
  {
    var works := WorksOf(Some(src), jobs);
    forall n | i <= n < |works| ensures HasStatusFor(works[n], d) <==> n == i {
      StatusWork(src, jobs, n, d);
    }
    LastStatusBody(works, i, d);
    JobObject(src, jobs, i);
  }

  lemma LastMainOfJobs(src: Fields, jobs: seq<Job>, i: nat, d: Dest)
    requires AllWrites(WorksOf(Some(src), jobs)) && IsLastTo(jobs, i, d)
    ensures var bodies := MainBodies(WorksOf(Some(src), jobs), d);
            ObjectOf(src, jobs[i].rule).Some? && bodies != [] && Last(bodies) == MainBody(ObjectOf(src, jobs[i].rule).value)
  {
    WorkDests(Some(src), jobs);
    LastMainBody(WorksOf(Some(src), jobs), i, d);
    JobObject(src, jobs, i);
  }

  /** To agree with the works is to be as the rules prescribe. */
  lemma AgreesIsPrescribed(fleet: Fleet, k: ObjectKey, source: Source, jobs: seq<Job>, d: Dest)
    requires Agrees(fleet, k, WorksOf(source, jobs)) && GoesTo(jobs, d)
    ensures Prescribed(ObjectOn(fleet, d, k), source, jobs, d)
  {
    var works := WorksOf(source, jobs);
    var j :| 0 <= j < |jobs| && JobTo(jobs[j], d);
    assert works[j].dest == Some(d) && Targets(works, d);
    assert AgreesAt(ObjectOn(fleet, d, k), works, d);
    match source
    case None =>
      assert AllRemoves(works);
    case Some(src) =>
      assert !works[j].task.Remove?;
      forall i: nat | IsLastTo(jobs, i, d)
        ensures ObjectOf(src, jobs[i].rule).Some? && Last(MainBodies(works, d)) == MainBody(ObjectOf(src, jobs[i].rule).value)
      {
        LastMainOfJobs(src, jobs, i, d);
      }
      forall i: nat | IsLastStatusTo(src, jobs, i, d)
        ensures StatusBodies(works, d) != [] && Last(StatusBodies(works, d)) == StatusBody(ObjectOf(src, jobs[i].rule).value)
      {
        LastStatusOfJobs(src, jobs, i, d);
      }
  }

  // ---- Passes ----

  /** After an error-free pass every destination of a matching rule is as the rules
      prescribe for the source, whatever it was before. */
  lemma PassPrescribes(fleet: Fleet, w: Watcher, syncers: seq<KRMSyncer>, req: Request, source: Source, faults: Faults, d: Dest)
    requires Pass(fleet, w, syncers, req, source, faults).attempt.errors == []
    requires GoesTo(JobsOf(w, syncers, req.namespace), d)
    ensures var after := Pass(fleet, w, syncers, req, source, faults).fleet;
            Prescribed(ObjectOn(after, d, KeyOf(w, req)), source, JobsOf(w, syncers, req.namespace), d)
  {
    PassAgrees(fleet, w, syncers, req, source, faults);
    AgreesIsPrescribed(Pass(fleet, w, syncers, req, source, faults).fleet, KeyOf(w, req), source,
                       JobsOf(w, syncers, req.namespace), d);
  }

  /** When no rule for the destination has a status for the source, the status lane
      stays as it was: values, owners and all. */
  lemma PassKeepsStatus(fleet: Fleet, w: Watcher, syncers: seq<KRMSyncer>, req: Request, src: Fields, faults: Faults, d: Dest)
    requires Pass(fleet, w, syncers, req, Some(src), faults).attempt.errors == []
    requires forall n | 0 <= n < |JobsOf(w, syncers, req.namespace)| :: !StatusTo(src, JobsOf(w, syncers, req.namespace)[n], d)
    ensures var after := ObjectOn(Pass(fleet, w, syncers, req, Some(src), faults).fleet, d, KeyOf(w, req));
            StatusLane(after) == StatusLane(ObjectOn(fleet, d, KeyOf(w, req)))
  {
    var jobs, works := JobsOf(w, syncers, req.namespace), WorksFor(w, syncers, req, Some(src));
    PassIsFold(fleet, w, syncers, req, Some(src), faults);
    CompletedKinds(Some(src), jobs, KeyOf(w, req), Pass(fleet, w, syncers, req, Some(src), faults).fleet);
    forall n | 0 <= n < |works| ensures !HasStatusFor(works[n], d) {
      StatusWork(src, jobs, n, d);
    }
    NoStatusBodies(works, d);
    PassKeepsForeignFields(fleet, w, syncers, req, src, faults, d, []);
  }

  /** A field at or below no listed path of the rules for the destination, that
      krm-syncer did not own, keeps its value and owners in either lane. */
  lemma PassKeepsUnlistedFields(fleet: Fleet, w: Watcher, syncers: seq<KRMSyncer>, req: Request, src: Fields, faults: Faults,
                                d: Dest, p: Path)
    requires Pass(fleet, w, syncers, req, Some(src), faults).attempt.errors == []
    requires Ordinary(p)
    requires forall j | j in JobsOf(w, syncers, req.namespace) && JobTo(j, d) ::
               OrdinaryFields(j.rule.syncFields) && !Covered(src, j.rule.syncFields, p)
    ensures var before := ObjectOn(fleet, d, KeyOf(w, req));
            var after := ObjectOn(Pass(fleet, w, syncers, req, Some(src), faults).fleet, d, KeyOf(w, req));
            && ((p in MainLane(before) ==> FIELD_MANAGER !in MainLane(before)[p].owners) ==>
                  Get(MainLane(after), p) == Get(MainLane(before), p))
            && ((p in StatusLane(before) ==> FIELD_MANAGER !in StatusLane(before)[p].owners) ==>
                  Get(StatusLane(after), p) == Get(StatusLane(before), p))
  {
    var jobs, works := JobsOf(w, syncers, req.namespace), WorksFor(w, syncers, req, Some(src));
    PassIsFold(fleet, w, syncers, req, Some(src), faults);
    CompletedKinds(Some(src), jobs, KeyOf(w, req), Pass(fleet, w, syncers, req, Some(src), faults).fleet);
    forall b | b in MainBodies(works, d) ensures p !in b {
      MainBodiesAre(works, d, b);
      var i: nat :| i < |works| && works[i].dest == Some(d) && works[i].task.Write? && works[i].task.main == b;
      UnlistedInBody(src, jobs, i, d, p);
    }
    forall b | b in StatusBodies(works, d) ensures p !in b {
      var i := StatusBodyOfWork(works, d, b);
      UnlistedInBody(src, jobs, i, d, p);
    }
    PassKeepsForeignFields(fleet, w, syncers, req, src, faults, d, p);
  }

  lemma {:induction false} StatusBodyOfWork(works: seq<Work>, d: Dest, b: Body) returns (i: nat)
    requires b in StatusBodies(works, d)
    ensures i < |works| && HasStatusFor(works[i], d) && works[i].task.status.value == b
  {
    var n := |works| - 1;
    if HasStatusFor(works[n], d) && works[n].task.status.value == b {
      i := n;
    } else {
      i := StatusBodyOfWork(works[..n], d, b);
    }
  }

  lemma UnlistedInBody(src: Fields, jobs: seq<Job>, i: nat, d: Dest, p: Path)
    requires AllWrites(WorksOf(Some(src), jobs)) && i < |jobs| && WorksOf(Some(src), jobs)[i].dest == Some(d)
    requires Ordinary(p)
    requires forall j | j in jobs && JobTo(j, d) :: OrdinaryFields(j.rule.syncFields) && !Covered(src, j.rule.syncFields, p)
    ensures var t := WorksOf(Some(src), jobs)[i].task;
            p !in t.main && (t.status.Some? ==> p !in t.status.value)
  {
    var fields := jobs[i].rule.syncFields;
    WorkDests(Some(src), jobs);
    JobObject(src, jobs, i);
    assert jobs[i] in jobs && JobTo(jobs[i], d);
    ProjectionIsPrepared(src, fields);
    BodiesAreSourceLeaves(src, fields, p);
    LanesAreApart(Filtered(src, fields).value, p);
  }

  lemma LanesAreApart(obj: Fields, p: Path)
    requires p != []
    ensures p[0] == "status" ==> p !in MainBody(obj)
    ensures p[0] != "status" ==> p !in StatusBody(obj)
  {
  }

  // ---- A rule without fields ----

  /** A rule whose list of fields is empty applies the bare identity: krm-syncer
      gives up all it owned in the main lane, but no status patch is sent, so the
      status lane stays as it was. */
  lemma EmptyListReleasesMainLane(obj: Option<DestObject>, src: Fields, rule: ResourceRule, d: Dest)
    requires rule.syncFields == []
    ensures var w := Work(Some(d), TaskOf(Some(src), rule));
            && w.task == Write(false, map[], None)
            && Owned(MainLane(ApplyWork(obj, w)), FIELD_MANAGER) == map[]
            && StatusLane(ApplyWork(obj, w)) == StatusLane(obj)
  {
    EmptyListBodies(src);
    NoStatusInIdentity(src);
    WriteLanes(obj, Work(Some(d), TaskOf(Some(src), rule)));
    ApplyOwns(MainLane(obj), FIELD_MANAGER, map[]);
  }

  lemma NoStatusInIdentity(src: Fields)
    ensures Filtered(src, []) == Success(Identity(src, false)) && "status" !in Identity(src, false)
  {
    assert !IsFullSync([]);
  }

  lemma EmptyListBodies(src: Fields)
    ensures ProjectionIsBare(src)
  {
    var d := Filtered(src, []).value;
    ProjectionIsPrepared(src, []);
    forall q ensures q !in MainBody(d) {
      if q != [] && Ordinary(q) {
        BodiesAreSourceLeaves(src, [], q);
        LanesAreApart(d, q);
      } else if q != [] {
        StatusModeHasNoMetadata(src, [], q);
      }
    }
  }

  ghost predicate ProjectionIsBare(src: Fields) {
    var r := Filtered(src, []);
    r.Success? && Prepared(r.value) == r.value && MainBody(r.value) == map[]
  }
}
