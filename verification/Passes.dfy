/** What one pass over all syncers and rules does, whatever the API calls do. */
module Passes {
  import opened Wrappers
  import opened Json
  import opened Remotes
  import opened Rules
  import opened FilterFields
  import opened ServerSideApply
  import opened Destinations
  import opened Attempts
  import opened Jobs
  import opened Runs

  datatype Request = Request(namespace: string, name: string)

  function KeyOf(w: Watcher, req: Request): ObjectKey {
    ObjectKey(w.gvk, req.namespace, req.name)
  }

  function WorksFor(w: Watcher, syncers: seq<KRMSyncer>, req: Request, source: Source): seq<Work> {
    WorksOf(source, JobsOf(w, syncers, req.namespace))
  }

  /** The pass of Reconcile over all syncers and rules: fleet and errors after it. */
  function Pass(fleet: Fleet, w: Watcher, syncers: seq<KRMSyncer>, req: Request, source: Source, faults: Faults): State {
    Run(State(fleet, Begin(KeyOf(w, req), WorksFor(w, syncers, req, source))), faults)
  }

  /** An error-free pass is the fold of its works: at every destination the
      object of the request is what applying the works for that destination, in
      order, makes of it. */
  lemma PassIsFold(fleet: Fleet, w: Watcher, syncers: seq<KRMSyncer>, req: Request, source: Source, faults: Faults)
    requires Pass(fleet, w, syncers, req, source, faults).attempt.errors == []
    ensures var k, works := KeyOf(w, req), WorksFor(w, syncers, req, source);
            var after := Pass(fleet, w, syncers, req, source, faults).fleet;
            && (forall d :: ObjectOn(after, d, k) == ApplyWorks(ObjectOn(fleet, d, k), works, d))
            && (forall i | 0 <= i < |works| :: Completed(k, works[i], after))
  {
    var k, works := KeyOf(w, req), WorksFor(w, syncers, req, source);
    var s := State(fleet, Begin(k, works));
    BeginOnTrack(fleet, k, works);
    RunOnTrack(fleet, s, faults);
    RunKeeps(s, faults);
    assert [] + works == works;
    var z := Run(s, faults);
    forall d ensures ObjectOn(z.fleet, d, k) == ApplyWorks(ObjectOn(fleet, d, k), works, d) {
      assert ObjectOn(z.fleet, d, k) == Expected(ObjectOn(fleet, d, k), z.attempt, d);
    }
    forall i | 0 <= i < |works| ensures Completed(k, works[i], z.fleet) {
      assert Completed(k, z.attempt.done[i], z.fleet);
    }
  }

  /** Frame of a pass, whatever fails. */
  lemma PassFrame(fleet: Fleet, w: Watcher, syncers: seq<KRMSyncer>, req: Request, source: Source, faults: Faults)
    ensures var after := Pass(fleet, w, syncers, req, source, faults).fleet;
            && (forall d :: Confined(On(fleet, d), On(after, d), KeyOf(w, req)))
            && (forall d | !Targets(WorksFor(w, syncers, req, source), d) :: On(after, d) == On(fleet, d))
  {
    RunFrame(State(fleet, Begin(KeyOf(w, req), WorksFor(w, syncers, req, source))), faults);
  }

  /** Every write is justified: if anything at a destination changed, then some
      listed syncer that is not suspended, has the watcher's mode (unset means pull)
      and, in pull mode, its connection, has a rule matching the watcher's GVK and the
      request's namespace; in push mode the destination is the cluster of its remote,
      otherwise the local one; and only the request's object or namespace there changed. */
  lemma EveryWriteIsJustified(fleet: Fleet, w: Watcher, syncers: seq<KRMSyncer>, req: Request, source: Source,
                              faults: Faults, d: Dest)
    requires On(Pass(fleet, w, syncers, req, source, faults).fleet, d) != On(fleet, d)
    ensures exists s, rule ::
              && s in syncers && !s.suspend && (if s.mode == "" then w.mode == "pull" else s.mode == w.mode)
              && (w.mode == "pull" ==> Key(s.remote) == Some(w.connection))
              && rule in s.rules && MatchesGvk(rule, w.gvk)
              && (rule.namespaces == [] || req.namespace in rule.namespaces)
              && (if w.mode == "push" then d.Remote? && ClusterName(s.remote) == Some(d.cluster) else d == Local)
    ensures Confined(On(fleet, d), On(Pass(fleet, w, syncers, req, source, faults).fleet, d), KeyOf(w, req))
  {
    PassFrame(fleet, w, syncers, req, source, faults);
    var jobs := JobsOf(w, syncers, req.namespace);
    var i :| 0 <= i < |jobs| && WorksFor(w, syncers, req, source)[i].dest == Some(d);
    JobsAreAccepted(w, syncers, req.namespace, jobs[i]);
    assert jobs[i].syncer in syncers && jobs[i].rule in jobs[i].syncer.rules;
  }

  /** A suspended syncer does nothing, whatever fails. */
  lemma SuspendedSyncersDoNothing(fleet: Fleet, w: Watcher, syncers: seq<KRMSyncer>, req: Request, source: Source,
                                  faults: Faults)
    ensures Pass(fleet, w, syncers, req, source, faults) == Pass(fleet, w, Active(syncers), req, source, faults)
  {
    SuspendedHaveNoJobs(w, syncers, req.namespace);
  }

  // ---- A deleted source ----

  lemma TargetsInit(works: seq<Work>, d: Dest)
    requires works != []
    ensures Targets(works, d) <==> Targets(works[..|works| - 1], d) || works[|works| - 1].dest == Some(d)
  {
    var n := |works| - 1;
    if Targets(works, d) {
      var i :| 0 <= i < |works| && works[i].dest == Some(d);
      assert i < n ==> works[..n][i].dest == Some(d);
    }
    if Targets(works[..n], d) {
      var i :| 0 <= i < n && works[..n][i].dest == Some(d);
      assert works[i].dest == Some(d);
    }
  }

  lemma {:induction false} RemovalsRemove(obj: Option<DestObject>, works: seq<Work>, d: Dest)
    requires forall i | 0 <= i < |works| :: works[i].task.Remove?
    ensures ApplyWorks(obj, works, d) == if Targets(works, d) then None else obj
  {
    if works != [] {
      RemovalsRemove(obj, works[..|works| - 1], d);
      TargetsInit(works, d);
    }
  }

  /** A deleted source: an error-free pass removes the object at exactly the
      destinations of its works; every other object and every namespace stays. */
  lemma DeletedSourceIsRemoved(fleet: Fleet, w: Watcher, syncers: seq<KRMSyncer>, req: Request, faults: Faults)
    requires Pass(fleet, w, syncers, req, None, faults).attempt.errors == []
    ensures var after := Pass(fleet, w, syncers, req, None, faults).fleet;
            var k, works := KeyOf(w, req), WorksFor(w, syncers, req, None);
            && (forall d :: ObjectOn(after, d, k) == if Targets(works, d) then None else ObjectOn(fleet, d, k))
            && (forall d, x | x != k :: ObjectOn(after, d, x) == ObjectOn(fleet, d, x))
            && (forall d :: On(after, d).namespaces == On(fleet, d).namespaces)
  {
    var k, works := KeyOf(w, req), WorksFor(w, syncers, req, None);
    var after := Pass(fleet, w, syncers, req, None, faults).fleet;
    PassIsFold(fleet, w, syncers, req, None, faults);
    PassFrame(fleet, w, syncers, req, None, faults);
    forall d ensures ObjectOn(after, d, k) == if Targets(works, d) then None else ObjectOn(fleet, d, k) {
      RemovalsRemove(ObjectOn(fleet, d, k), works, d);
    }
    forall d, x | x != k ensures ObjectOn(after, d, x) == ObjectOn(fleet, d, x) {
      assert Confined(On(fleet, d), On(after, d), k);
    }
    RemovingCreatesNothing(State(fleet, Begin(k, works)), faults);
  }

  // ---- Status mode ----

  predicate NoRuleHasSpec(w: Watcher, syncers: seq<KRMSyncer>, req: Request) {
    forall j | j in JobsOf(w, syncers, req.namespace) :: "spec" !in j.rule.syncFields
  }

  lemma NoSpecIsStatusOnly(w: Watcher, syncers: seq<KRMSyncer>, req: Request, source: Source)
    requires source.Some? && NoRuleHasSpec(w, syncers, req)
    ensures StatusOnly(WorksFor(w, syncers, req, source))
  {
    var jobs := JobsOf(w, syncers, req.namespace);
    forall i | 0 <= i < |jobs|
      ensures var t := WorksOf(source, jobs)[i].task; t.Unreadable? || (t.Write? && !t.full)
    {
      assert jobs[i] in jobs;
    }
  }

  /** Status mode creates nothing: with a present source and no matching rule
      that lists `spec`, a pass leaves the sets of objects and namespaces of
      every destination as they were, for any pattern of API failures. */
  lemma StatusModeCreatesNothing(fleet: Fleet, w: Watcher, syncers: seq<KRMSyncer>, req: Request, source: Source,
                                 faults: Faults)
    requires source.Some? && NoRuleHasSpec(w, syncers, req) && NamespacesFirst(fleet)
    ensures SameNames(fleet, Pass(fleet, w, syncers, req, source, faults).fleet)
  {
    NoSpecIsStatusOnly(w, syncers, req, source);
    StatusRunCreatesNothing(State(fleet, Begin(KeyOf(w, req), WorksFor(w, syncers, req, source))), faults);
  }

  /** ... and a destination without the object makes the pass fail. */
  lemma StatusModeNeedsDestination(fleet: Fleet, w: Watcher, syncers: seq<KRMSyncer>, req: Request, source: Source,
                                   faults: Faults, d: Dest)
    requires source.Some? && NoRuleHasSpec(w, syncers, req) && NamespacesFirst(fleet)
    requires Targets(WorksFor(w, syncers, req, source), d) && ObjectOn(fleet, d, KeyOf(w, req)).None?
    ensures Pass(fleet, w, syncers, req, source, faults).attempt.errors != []
  {
    var works := WorksFor(w, syncers, req, source);
    NoSpecIsStatusOnly(w, syncers, req, source);
    var i :| 0 <= i < |works| && works[i].dest == Some(d);
    MissingDestinationFails(State(fleet, Begin(KeyOf(w, req), works)), faults, i);
  }

  // ---- The fold of rules through one field manager ----

  /** The main bodies of the works for `d`, in order. */
  function MainBodies(works: seq<Work>, d: Dest): seq<Body> {
    if works == [] then []
    else
      var w := works[|works| - 1];
      MainBodies(works[..|works| - 1], d) + if w.dest == Some(d) && w.task.Write? then [w.task.main] else []
  }

  /** The status bodies of the works for `d` that have one, in order. */
  function StatusBodies(works: seq<Work>, d: Dest): seq<Body> {
    if works == [] then []
    else
      var w := works[|works| - 1];
      StatusBodies(works[..|works| - 1], d)
      + if w.dest == Some(d) && w.task.Write? && w.task.status.Some? then [w.task.status.value] else []
  }

  function MainLane(obj: Option<DestObject>): Lane {
    match obj case Some(x) => x.main case None => map[]
  }

  function StatusLane(obj: Option<DestObject>): Lane {
    match obj case Some(x) => x.status case None => map[]
  }

  predicate AllRemoves(works: seq<Work>) {
    forall i | 0 <= i < |works| :: works[i].task.Remove?
  }

  predicate AllWrites(works: seq<Work>) {
    forall i | 0 <= i < |works| :: works[i].task.Write?
  }

  lemma WriteLanes(obj: Option<DestObject>, w: Work)
    requires w.task.Write?
    ensures var after := ApplyWork(obj, w);
            && after.Some?
            && MainLane(after) == Apply(MainLane(obj), FIELD_MANAGER, w.task.main)
            && StatusLane(after) == match w.task.status
                                    case Some(b) => Apply(StatusLane(obj), FIELD_MANAGER, b)
                                    case None => StatusLane(obj)
  {
  }

  /** Lane by lane, works that all write are applies of their bodies in order. */
  lemma {:induction false} WritesAreApplies(obj: Option<DestObject>, works: seq<Work>, d: Dest)
    requires AllWrites(works)
    ensures MainLane(ApplyWorks(obj, works, d)) == ApplyAll(MainLane(obj), FIELD_MANAGER, MainBodies(works, d))
    ensures StatusLane(ApplyWorks(obj, works, d)) == ApplyAll(StatusLane(obj), FIELD_MANAGER, StatusBodies(works, d))
    ensures ApplyWorks(obj, works, d).Some? <==> obj.Some? || Targets(works, d)
  {
    if works != [] {
      var n := |works| - 1;
      WritesAreApplies(obj, works[..n], d);
      TargetsInit(works, d);
      var mains, statuses := MainBodies(works[..n], d), StatusBodies(works[..n], d);
      var w := works[n];
      assert mains + [] == mains && statuses + [] == statuses;
      if w.dest == Some(d) {
        WriteLanes(ApplyWorks(obj, works[..n], d), w);
        ApplyAllOneMore(MainLane(obj), FIELD_MANAGER, mains, w.task.main);
        if w.task.status.Some? {
          ApplyAllOneMore(StatusLane(obj), FIELD_MANAGER, statuses, w.task.status.value);
        }
      }
    }
  }

  lemma {:induction false} TargetsHaveBodies(works: seq<Work>, d: Dest)
    requires AllWrites(works)
    ensures Targets(works, d) <==> MainBodies(works, d) != []
    ensures !Targets(works, d) ==> StatusBodies(works, d) == []
  {
    if works != [] {
      TargetsHaveBodies(works[..|works| - 1], d);
      TargetsInit(works, d);
    }
  }

  function Last(bodies: seq<Body>): Body
    requires bodies != []
  {
    bodies[|bodies| - 1]
  }

  /** What the matching rules prescribe for a key at every destination: absent
      for a deleted source; otherwise present, with krm-syncer owning in the main
      lane exactly the projection of the last rule, and in the status lane
      exactly the status of the last rule that carried one, if any did. */
  ghost predicate Agrees(fleet: Fleet, k: ObjectKey, works: seq<Work>) {
    forall d | Targets(works, d) :: AgreesAt(ObjectOn(fleet, d, k), works, d)
  }

  ghost predicate AgreesAt(obj: Option<DestObject>, works: seq<Work>, d: Dest) {
    if AllRemoves(works) then obj.None?
    else
      && AllWrites(works) && obj.Some?
      && MainBodies(works, d) != [] && Owned(obj.value.main, FIELD_MANAGER) == Last(MainBodies(works, d))
      && (StatusBodies(works, d) != [] ==> Owned(obj.value.status, FIELD_MANAGER) == Last(StatusBodies(works, d)))
  }

  lemma WritesAgree(obj: Option<DestObject>, works: seq<Work>, d: Dest)
    requires Targets(works, d) && AllWrites(works)
    ensures AgreesAt(ApplyWorks(obj, works, d), works, d)
  {
    var i :| 0 <= i < |works| && works[i].dest == Some(d);
    assert !works[i].task.Remove?;
    WritesAreApplies(obj, works, d);
    TargetsHaveBodies(works, d);
    ApplyAllOwns(MainLane(obj), FIELD_MANAGER, MainBodies(works, d));
    if StatusBodies(works, d) != [] {
      ApplyAllOwns(StatusLane(obj), FIELD_MANAGER, StatusBodies(works, d));
    }
  }

  /** Whatever the object was before, the works applied to it leave it agreeing. */
  lemma AppliedAgrees(obj: Option<DestObject>, works: seq<Work>, d: Dest)
    requires Targets(works, d)
    requires AllWrites(works) || AllRemoves(works)
    ensures AgreesAt(ApplyWorks(obj, works, d), works, d)
  {
    if AllWrites(works) {
      WritesAgree(obj, works, d);
    } else {
      RemovalsRemove(obj, works, d);
    }
  }

  /** Completed works of one source all write, or all remove. */
  lemma CompletedKinds(source: Source, jobs: seq<Job>, k: ObjectKey, f: Fleet)
    requires forall i | 0 <= i < |jobs| :: Completed(k, WorksOf(source, jobs)[i], f)
    ensures var works := WorksOf(source, jobs);
            if source.Some? then AllWrites(works) else forall i | 0 <= i < |works| :: works[i].task.Remove?
  {
    var works := WorksOf(source, jobs);
    forall i | 0 <= i < |jobs| ensures if source.Some? then works[i].task.Write? else works[i].task.Remove? {
      assert Completed(k, works[i], f);
    }
  }

  /** After an error-free pass every destination agrees with the rules. */
  lemma PassAgrees(fleet: Fleet, w: Watcher, syncers: seq<KRMSyncer>, req: Request, source: Source, faults: Faults)
    requires Pass(fleet, w, syncers, req, source, faults).attempt.errors == []
    ensures Agrees(Pass(fleet, w, syncers, req, source, faults).fleet, KeyOf(w, req), WorksFor(w, syncers, req, source))
  {
    var k, works := KeyOf(w, req), WorksFor(w, syncers, req, source);
    var after := Pass(fleet, w, syncers, req, source, faults).fleet;
    PassIsFold(fleet, w, syncers, req, source, faults);
    CompletedKinds(source, JobsOf(w, syncers, req.namespace), k, after);
    forall d | Targets(works, d) ensures AgreesAt(ObjectOn(after, d, k), works, d) {
      AppliedAgrees(ObjectOn(fleet, d, k), works, d);
    }
  }

  /** The other half of the fold: a field that no rule of the pass names and that
      krm-syncer did not own keeps its value and owners, in either lane; a status
      lane no rule carries a status for is left as it was. */
  lemma PassKeepsForeignFields(fleet: Fleet, w: Watcher, syncers: seq<KRMSyncer>, req: Request, src: Fields,
                               faults: Faults, d: Dest, p: Path)
    requires Pass(fleet, w, syncers, req, Some(src), faults).attempt.errors == []
    ensures var works := WorksFor(w, syncers, req, Some(src));
            var before := ObjectOn(fleet, d, KeyOf(w, req));
            var after := ObjectOn(Pass(fleet, w, syncers, req, Some(src), faults).fleet, d, KeyOf(w, req));
            && ((forall b | b in MainBodies(works, d) :: p !in b)
                && (p in MainLane(before) ==> FIELD_MANAGER !in MainLane(before)[p].owners)
                ==> Get(MainLane(after), p) == Get(MainLane(before), p))
            && ((forall b | b in StatusBodies(works, d) :: p !in b)
                && (p in StatusLane(before) ==> FIELD_MANAGER !in StatusLane(before)[p].owners)
                ==> Get(StatusLane(after), p) == Get(StatusLane(before), p))
            && (StatusBodies(works, d) == [] ==> StatusLane(after) == StatusLane(before))
  {
    var k, works := KeyOf(w, req), WorksFor(w, syncers, req, Some(src));
    var before := ObjectOn(fleet, d, k);
    PassIsFold(fleet, w, syncers, req, Some(src), faults);
    CompletedKinds(Some(src), JobsOf(w, syncers, req.namespace), k, Pass(fleet, w, syncers, req, Some(src), faults).fleet);
    WritesAreApplies(before, works, d);
    var mains, statuses := MainBodies(works, d), StatusBodies(works, d);
    ApplyAllAt(MainLane(before), FIELD_MANAGER, mains, p);
    ApplyAllAt(StatusLane(before), FIELD_MANAGER, statuses, p);
    if (forall b | b in mains :: p !in b) && (p in MainLane(before) ==> FIELD_MANAGER !in MainLane(before)[p].owners) {
      AppliedAllKeeps(Get(MainLane(before), p), FIELD_MANAGER, mains, p);
    }
    if (forall b | b in statuses :: p !in b) && (p in StatusLane(before) ==> FIELD_MANAGER !in StatusLane(before)[p].owners) {
      AppliedAllKeeps(Get(StatusLane(before), p), FIELD_MANAGER, statuses, p);
    }
  }

  // ---- Repeating a pass ----

  /** Idempotence: an error-free pass repeated on the same source, again without
      error, changes no value, no owner, no object and no namespace anywhere,
      even when the rules set, drop and set the same field again. */
  lemma PassIsIdempotent(fleet: Fleet, w: Watcher, syncers: seq<KRMSyncer>, req: Request, source: Source,
                         faults1: Faults, faults2: Faults)
    requires Pass(fleet, w, syncers, req, source, faults1).attempt.errors == []
    requires var once := Pass(fleet, w, syncers, req, source, faults1).fleet;
             Pass(once, w, syncers, req, source, faults2).attempt.errors == []
    ensures var once := Pass(fleet, w, syncers, req, source, faults1).fleet;
            forall d :: On(Pass(once, w, syncers, req, source, faults2).fleet, d) == On(once, d)
  {
    var k, works := KeyOf(w, req), WorksFor(w, syncers, req, source);
    var once := Pass(fleet, w, syncers, req, source, faults1).fleet;
    var twice := Pass(once, w, syncers, req, source, faults2).fleet;
    PassIsFold(fleet, w, syncers, req, source, faults1);
    PassIsFold(once, w, syncers, req, source, faults2);
    PassFrame(once, w, syncers, req, source, faults2);
    CompletedKinds(source, JobsOf(w, syncers, req.namespace), k, once);
    if source.None? {
      RemovingCreatesNothing(State(once, Begin(k, works)), faults2);
    }
    forall d ensures On(twice, d) == On(once, d) {
      if Targets(works, d) {
        var i :| 0 <= i < |works| && works[i].dest == Some(d);
        assert Completed(k, works[i], once);
        assert Confined(On(once, d), On(twice, d), k);
        WorksTwice(ObjectOn(fleet, d, k), works, d);
        SameCluster(On(once, d), On(twice, d), k);
      }
    }
  }

  lemma SameCluster(c: Cluster, c': Cluster, k: ObjectKey)
    requires Confined(c, c', k) && Get(c'.objects, k) == Get(c.objects, k)
    requires c'.namespaces == c.namespaces || (k.namespace != "" ==> k.namespace in c.namespaces)
    ensures c' == c
  {
    SameMap(c'.objects, c.objects);
    assert c'.namespaces == c.namespaces;
  }

  lemma WorksTwice(obj: Option<DestObject>, works: seq<Work>, d: Dest)
    requires AllWrites(works) || forall i | 0 <= i < |works| :: works[i].task.Remove?
    ensures ApplyWorks(ApplyWorks(obj, works, d), works, d) == ApplyWorks(obj, works, d)
  {
    if AllWrites(works) {
      WritesAreApplies(obj, works, d);
      WritesAreApplies(ApplyWorks(obj, works, d), works, d);
      ApplyAllTwice(MainLane(obj), FIELD_MANAGER, MainBodies(works, d));
      ApplyAllTwice(StatusLane(obj), FIELD_MANAGER, StatusBodies(works, d));
    } else {
      RemovalsRemove(obj, works, d);
      RemovalsRemove(ApplyWorks(obj, works, d), works, d);
    }
  }
}
