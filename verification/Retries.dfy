/** Retries: what failed attempts leave behind is made good by the next one without error. */
module Retries {
  import opened Wrappers
  import opened Json
  import opened Rules
  import opened ServerSideApply
  import opened Destinations
  import opened Attempts
  import opened Jobs
  import opened Runs
  import opened Passes
  import opened Folds

  // ---- One path ----

  /** An apply that takes a field away from its other owners: it sets another value, or
      there are none. */
  predicate Ends(share: Field, v: Option<Json>) {
    v.Some? && (v.value != share.value || share.owners == {})
  }

  ghost predicate AnyEnds(share: Field, bodies: seq<Body>, p: Path) {
    exists b :: b in bodies && Ends(share, Get(b, p))
  }

  lemma ShareAfterOne(f: Option<Field>, m: Manager, v: Option<Json>)
    requires Released(f, m).Some?
    ensures Released(Applied(f, m, v), m) == if Ends(Released(f, m).value, v) then None else Released(f, m)
  {
    var o := f.value.owners;
    assert m !in o ==> o - {m} == o;
    assert (o + {m}) - {m} == o - {m} && (o - {m}) - {m} == o - {m};
    assert o + {m} == {m} <==> o - {m} == {};
  }

  /** What is left to the other owners of a field after a sequence of applies. */
  lemma {:induction false} ShareAfter(f: Option<Field>, m: Manager, bodies: seq<Body>, p: Path)
    ensures Released(AppliedAll(f, m, bodies, p), m)
            == if Released(f, m).Some? && AnyEnds(Released(f, m).value, bodies, p) then None else Released(f, m)
  {
    if bodies != [] {
      var n := |bodies| - 1;
      var init := AppliedAll(f, m, bodies[..n], p);
      ShareAfter(f, m, bodies[..n], p);
      assert bodies == bodies[..n] + [bodies[n]];
      if Released(init, m).Some? {
        ShareAfterOne(init, m, Get(bodies[n], p));
      } else {
        ApplyThenRelease(init, m, Get(bodies[n], p));
      }
    }
  }

  /** A field without other owners after a sequence is what the last body makes it. */
  lemma LastBodyDecides(f: Option<Field>, m: Manager, bodies: seq<Body>, p: Path)
    requires bodies != [] && Released(AppliedAll(f, m, bodies, p), m).None?
    ensures AppliedAll(f, m, bodies, p)
            == match Get(bodies[|bodies| - 1], p) { case Some(v) => Some(Field(v, {m})) case None => None }
  {
    var h := AppliedAll(f, m, bodies[..|bodies| - 1], p);
    if h.Some? {
      assert (h.value.owners - {m}) - {m} == h.value.owners - {m};
    }
  }

  /** Applies of some of the bodies are forgotten when all of them are applied again. */
  lemma SomeThenAll(f: Option<Field>, m: Manager, some: seq<Body>, bodies: seq<Body>, p: Path)
    requires bodies != [] && forall b | b in some :: b in bodies
    ensures AppliedAll(AppliedAll(f, m, some, p), m, bodies, p) == AppliedAll(f, m, bodies, p)
  {
    var g := AppliedAll(f, m, some, p);
    ShareAfter(f, m, some, p);
    ShareAfter(f, m, bodies, p);
    ShareAfter(g, m, bodies, p);
    if Released(g, m) == Released(f, m) {
      ReleaseIsAbsorbed(f, m, bodies, p);
      ReleaseIsAbsorbed(g, m, bodies, p);
    } else {
      LastBodyDecides(f, m, bodies, p);
      LastBodyDecides(g, m, bodies, p);
    }
  }

  ghost predicate IsSome(some: seq<Body>, bodies: seq<Body>) {
    (bodies == [] ==> some == []) && forall b | b in some :: b in bodies
  }

  lemma SomeThenAllLane(lane: Lane, m: Manager, some: seq<Body>, bodies: seq<Body>)
    requires IsSome(some, bodies)
    ensures ApplyAll(ApplyAll(lane, m, some), m, bodies) == ApplyAll(lane, m, bodies)
  {
    if bodies != [] {
      var part := ApplyAll(lane, m, some);
      forall p ensures Get(ApplyAll(part, m, bodies), p) == Get(ApplyAll(lane, m, bodies), p) {
        ApplyAllAt(lane, m, some, p);
        ApplyAllAt(part, m, bodies, p);
        ApplyAllAt(lane, m, bodies, p);
        SomeThenAll(Get(lane, p), m, some, bodies, p);
      }
      SameMap(ApplyAll(part, m, bodies), ApplyAll(lane, m, bodies));
    }
  }

  // ---- What a failed attempt has done ----

  lemma {:induction false} ApplyAllAppend(lane: Lane, m: Manager, a: seq<Body>, b: seq<Body>)
    ensures ApplyAll(lane, m, a + b) == ApplyAll(ApplyAll(lane, m, a), m, b)
  {
    if b == [] {
      assert a + b == a;
    } else {
      var n := |b| - 1;
      ApplyAllAppend(lane, m, a, b[..n]);
      assert a + b == a + b[..n] + [b[n]];
      ApplyAllOneMore(lane, m, a + b[..n], b[n]);
    }
  }

  /** The object went through applies of these bodies. */
  ghost predicate Went(before: Option<DestObject>, after: Option<DestObject>, mains: seq<Body>, statuses: seq<Body>) {
    && MainLane(after) == ApplyAll(MainLane(before), FIELD_MANAGER, mains)
    && StatusLane(after) == ApplyAll(StatusLane(before), FIELD_MANAGER, statuses)
  }

  lemma WentChain(a: Option<DestObject>, b: Option<DestObject>, c: Option<DestObject>, m1: seq<Body>, s1: seq<Body>,
                  m2: seq<Body>, s2: seq<Body>)
    requires Went(a, b, m1, s1) && Went(b, c, m2, s2)
    ensures Went(a, c, m1 + m2, s1 + s2)
  {
    ApplyAllAppend(MainLane(a), FIELD_MANAGER, m1, m2);
    ApplyAllAppend(StatusLane(a), FIELD_MANAGER, s1, s2);
  }

  /** The bodies are some of those that the works apply at `d`. */
  ghost predicate Among(mains: seq<Body>, statuses: seq<Body>, works: seq<Work>, d: Dest) {
    IsSome(mains, MainBodies(works, d)) && IsSome(statuses, StatusBodies(works, d))
  }

  lemma {:induction false} BodiesOfWork(works: seq<Work>, i: nat, d: Dest)
    requires i < |works| && works[i].dest == Some(d) && works[i].task.Write?
    ensures works[i].task.main in MainBodies(works, d)
    ensures works[i].task.status.Some? ==> works[i].task.status.value in StatusBodies(works, d)
  {
    var n := |works| - 1;
    if i < n {
      BodiesOfWork(works[..n], i, d);
    }
  }

  lemma {:induction false} BodiesAppend(a: seq<Work>, b: seq<Work>, d: Dest)
    ensures MainBodies(a + b, d) == MainBodies(a, d) + MainBodies(b, d)
    ensures StatusBodies(a + b, d) == StatusBodies(a, d) + StatusBodies(b, d)
  {
    if b == [] {
      assert a + b == a;
    } else {
      var n := |b| - 1;
      BodiesAppend(a, b[..n], d);
      assert (a + b)[..|a| + n] == a + b[..n] && (a + b)[|a| + n] == b[n];
    }
  }

  lemma AmongLater(mains: seq<Body>, statuses: seq<Body>, works: seq<Work>, later: seq<Work>, d: Dest)
    requires works != [] && (later == works || later == works[1..]) && Among(mains, statuses, later, d)
    ensures Among(mains, statuses, works, d)
  {
    if later == works[1..] {
      BodiesAppend([works[0]], later, d);
      assert works == [works[0]] + works[1..];
    }
  }

  lemma PatchWent(before: Option<DestObject>, body: Body)
    ensures Went(before, Some(PatchedMain(before, body)), [body], [])
  {
    assert [body][..0] == [];
  }

  lemma StatusPatchWent(before: DestObject, body: Body)
    ensures Went(Some(before), Some(PatchedStatus(before, body)), [], [body])
  {
    assert [body][..0] == [];
  }

  /** What one call of a work that writes may do to the object at `d`. */
  lemma CallOnObject(s: State, o: Outcome, d: Dest)
    requires Phased(s.attempt) && s.attempt.todo != [] && !s.attempt.todo[0].task.Remove?
    ensures var w, k := s.attempt.todo[0], s.attempt.key;
            var before, after := ObjectOn(s.fleet, d, k), ObjectOn(Step(s, o).fleet, d, k);
            || after == before
            || (w.dest == Some(d) && w.task.Write? && after == Some(PatchedMain(before, w.task.main)))
            || (w.dest == Some(d) && w.task.Write? && w.task.status.Some? && before.Some?
                && after == Some(PatchedStatus(before.value, w.task.status.value)))
  {
  }

  lemma OneCall(s: State, o: Outcome, d: Dest) returns (mains: seq<Body>, statuses: seq<Body>)
    requires Phased(s.attempt) && s.attempt.todo != [] && !s.attempt.todo[0].task.Remove?
    ensures Went(ObjectOn(s.fleet, d, s.attempt.key), ObjectOn(Step(s, o).fleet, d, s.attempt.key), mains, statuses)
    ensures Among(mains, statuses, s.attempt.todo, d)
  {
    var w, k := s.attempt.todo[0], s.attempt.key;
    var before, after := ObjectOn(s.fleet, d, k), ObjectOn(Step(s, o).fleet, d, k);
    mains, statuses := [], [];
    CallOnObject(s, o, d);
    if after != before {
      BodiesOfWork(s.attempt.todo, 0, d);
      if after == Some(PatchedMain(before, w.task.main)) {
        PatchWent(before, w.task.main);
        mains := [w.task.main];
      } else {
        StatusPatchWent(before.value, w.task.status.value);
        statuses := [w.task.status.value];
      }
    }
  }

  lemma {:induction false} PartialRun(s: State, faults: Faults, d: Dest) returns (mains: seq<Body>, statuses: seq<Body>)
    requires Phased(s.attempt) && forall i | 0 <= i < |s.attempt.todo| :: !s.attempt.todo[i].task.Remove?
    ensures Went(ObjectOn(s.fleet, d, s.attempt.key), ObjectOn(Run(s, faults).fleet, d, s.attempt.key), mains, statuses)
    ensures Among(mains, statuses, s.attempt.todo, d)
    decreases |s.attempt.todo|, Rank(s.attempt.phase)
  {
    mains, statuses := [], [];
    if s.attempt.todo != [] {
      var o := faults(|s.attempt.done|, s.attempt.phase);
      var s', k := NextOf(s, faults), s.attempt.key;
      StepMoves(s, o);
      var m1, s1 := OneCall(s, o, d);
      var m2, s2 := PartialRun(s', faults, d);
      WentChain(ObjectOn(s.fleet, d, k), ObjectOn(s'.fleet, d, k), ObjectOn(Run(s', faults).fleet, d, k), m1, s1, m2, s2);
      AmongLater(m2, s2, s.attempt.todo, s'.attempt.todo, d);
      mains, statuses := m1 + m2, s1 + s2;
    }
  }

  // ---- Any number of failed attempts ----

  /** The clusters after attempts for one request that meet these failures. */
  function AfterAttempts(fleet: Fleet, w: Watcher, syncers: seq<KRMSyncer>, req: Request, source: Source,
                         attempts: seq<Faults>): Fleet {
    if attempts == [] then fleet
    else
      var n := |attempts| - 1;
      Pass(AfterAttempts(fleet, w, syncers, req, source, attempts[..n]), w, syncers, req, source, attempts[n]).fleet
  }

  lemma ConfinedChain(a: Cluster, b: Cluster, c: Cluster, k: ObjectKey)
    requires Confined(a, b, k) && Confined(b, c, k)
    ensures Confined(a, c, k)
  {
  }

  lemma {:induction false} AttemptsFrame(fleet: Fleet, w: Watcher, syncers: seq<KRMSyncer>, req: Request, source: Source,
                                         attempts: seq<Faults>)
    ensures var after := AfterAttempts(fleet, w, syncers, req, source, attempts);
            && (forall d :: Confined(On(fleet, d), On(after, d), KeyOf(w, req)))
            && (forall d | !Targets(WorksFor(w, syncers, req, source), d) :: On(after, d) == On(fleet, d))
            && (source.None? ==> forall d :: On(after, d).namespaces == On(fleet, d).namespaces)
  {
    if attempts != [] {
      var n := |attempts| - 1;
      var before := AfterAttempts(fleet, w, syncers, req, source, attempts[..n]);
      var after := AfterAttempts(fleet, w, syncers, req, source, attempts);
      AttemptsFrame(fleet, w, syncers, req, source, attempts[..n]);
      PassFrame(before, w, syncers, req, source, attempts[n]);
      forall d ensures Confined(On(fleet, d), On(after, d), KeyOf(w, req)) {
        assert Confined(On(before, d), On(after, d), KeyOf(w, req));
        ConfinedChain(On(fleet, d), On(before, d), On(after, d), KeyOf(w, req));
      }
      if source.None? {
        RemovingCreatesNothing(State(before, Begin(KeyOf(w, req), WorksFor(w, syncers, req, source))), attempts[n]);
      }
    }
  }

  lemma {:induction false} AttemptsApply(fleet: Fleet, w: Watcher, syncers: seq<KRMSyncer>, req: Request, source: Source,
                                         attempts: seq<Faults>, d: Dest) returns (mains: seq<Body>, statuses: seq<Body>)
    requires AllWrites(WorksFor(w, syncers, req, source))
    ensures Went(ObjectOn(fleet, d, KeyOf(w, req)),
                 ObjectOn(AfterAttempts(fleet, w, syncers, req, source, attempts), d, KeyOf(w, req)), mains, statuses)
    ensures Among(mains, statuses, WorksFor(w, syncers, req, source), d)
  {
    mains, statuses := [], [];
    if attempts != [] {
      var n, k := |attempts| - 1, KeyOf(w, req);
      var before := AfterAttempts(fleet, w, syncers, req, source, attempts[..n]);
      var m1, s1 := AttemptsApply(fleet, w, syncers, req, source, attempts[..n], d);
      var s := State(before, Begin(k, WorksFor(w, syncers, req, source)));
      var m2, s2 := PartialRun(s, attempts[n], d);
      WentChain(ObjectOn(fleet, d, k), ObjectOn(before, d, k), ObjectOn(Run(s, attempts[n]).fleet, d, k), m1, s1, m2, s2);
      mains, statuses := m1 + m2, s1 + s2;
    }
  }

  /** After those applies all works give what they give at once. */
  lemma WorksAfterAttempts(before: Option<DestObject>, after: Option<DestObject>, works: seq<Work>, d: Dest,
                           mains: seq<Body>, statuses: seq<Body>)
    requires AllWrites(works) && Targets(works, d)
    requires Went(before, after, mains, statuses) && Among(mains, statuses, works, d)
    ensures ApplyWorks(after, works, d) == ApplyWorks(before, works, d)
  {
    WritesAreApplies(before, works, d);
    WritesAreApplies(after, works, d);
    SomeThenAllLane(MainLane(before), FIELD_MANAGER, mains, MainBodies(works, d));
    SomeThenAllLane(StatusLane(before), FIELD_MANAGER, statuses, StatusBodies(works, d));
  }

  /** Retries make good what failed attempts left behind. After any number of attempts on
      one version of the source, whatever failed in them and however far they came, an
      attempt without error leaves every cluster, with all values and owners, as one
      without error would have left it at once. */
  lemma RetriesMakeGood(fleet: Fleet, w: Watcher, syncers: seq<KRMSyncer>, req: Request, source: Source,
                        attempts: seq<Faults>, f1: Faults, f2: Faults)
    requires Pass(fleet, w, syncers, req, source, f1).attempt.errors == []
    requires Pass(AfterAttempts(fleet, w, syncers, req, source, attempts), w, syncers, req, source, f2).attempt.errors == []
    ensures var retried := Pass(AfterAttempts(fleet, w, syncers, req, source, attempts), w, syncers, req, source, f2).fleet;
            forall d :: On(retried, d) == On(Pass(fleet, w, syncers, req, source, f1).fleet, d)
  {
    var left := AfterAttempts(fleet, w, syncers, req, source, attempts);
    var atOnce, retried := Pass(fleet, w, syncers, req, source, f1).fleet, Pass(left, w, syncers, req, source, f2).fleet;
    forall d ensures On(retried, d) == On(atOnce, d) {
      PassOutcome(fleet, w, syncers, req, source, f1, d);
      PassOutcome(left, w, syncers, req, source, f2, d);
      AttemptsFrame(fleet, w, syncers, req, source, attempts);
      assert Confined(On(fleet, d), On(left, d), KeyOf(w, req));
      ObjectMadeGood(fleet, w, syncers, req, source, attempts, f1, d);
      SameMap(On(retried, d).objects, On(atOnce, d).objects);
    }
  }

  lemma ObjectMadeGood(fleet: Fleet, w: Watcher, syncers: seq<KRMSyncer>, req: Request, source: Source,
                       attempts: seq<Faults>, f1: Faults, d: Dest)
    requires Pass(fleet, w, syncers, req, source, f1).attempt.errors == []
    ensures var k, works := KeyOf(w, req), WorksFor(w, syncers, req, source);
            ApplyWorks(ObjectOn(AfterAttempts(fleet, w, syncers, req, source, attempts), d, k), works, d)
            == ApplyWorks(ObjectOn(fleet, d, k), works, d)
  {
    var k, works := KeyOf(w, req), WorksFor(w, syncers, req, source);
    var left := AfterAttempts(fleet, w, syncers, req, source, attempts);
    if !Targets(works, d) {
      AttemptsFrame(fleet, w, syncers, req, source, attempts);
    } else {
      PassIsFold(fleet, w, syncers, req, source, f1);
      CompletedKinds(source, JobsOf(w, syncers, req.namespace), k, Pass(fleet, w, syncers, req, source, f1).fleet);
      if source.Some? {
        var mains, statuses := AttemptsApply(fleet, w, syncers, req, source, attempts, d);
        WorksAfterAttempts(ObjectOn(fleet, d, k), ObjectOn(left, d, k), works, d, mains, statuses);
      } else {
        RemovalsRemove(ObjectOn(fleet, d, k), works, d);
        RemovalsRemove(ObjectOn(left, d, k), works, d);
      }
    }
  }
}
