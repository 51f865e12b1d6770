/** Passes in which every API call is answered: which rules succeed, what they create,
    and which errors the others report. */
module FaultlessPasses {
  import opened Wrappers
  import opened Json
  import opened Rules
  import opened FilterFields
  import opened Destinations
  import opened Attempts
  import opened Jobs
  import opened Runs
  import opened Passes

  // ---- One work ----

  predicate Holds(f: Fleet, k: ObjectKey, d: Option<Dest>) {
    d.Some? && k in On(f, d.value).objects
  }

  predicate Creates(w: Work) {
    w.task.Write? && w.task.full
  }

  /** The error of a work that finds the clusters like this. */
  function WorkError(f: Fleet, k: ObjectKey, w: Work): Option<SyncError> {
    if w.dest.None? then Some(ClientError)
    else match w.task
      case Remove => None
      case Unreadable => Some(FilterFailed)
      case Write(full, _, _) => if full || Holds(f, k, w.dest) then None else Some(MissingDestination)
  }

  /** The state after a work on a present source. */
  ghost predicate AfterWork(s: State, s': State) {
    && s.attempt.todo != [] && s'.attempt.phase.Resolving?
    && (var a, a', w, e := s.attempt, s'.attempt, s.attempt.todo[0], WorkError(s.fleet, s.attempt.key, s.attempt.todo[0]);
        && a'.key == a.key && a'.todo == a.todo[1..]
        && a'.errors == a.errors + (if e.Some? then [e.value] else [])
        && (forall d :: Holds(s'.fleet, a.key, Some(d)) <==>
              Holds(s.fleet, a.key, Some(d)) || (w.dest == Some(d) && e.None?))
        && (forall d :: On(s.fleet, d).namespaces <= On(s'.fleet, d).namespaces)
        && (e.None? ==> HasNamespace(a.key, s'.fleet, w.dest.value)))
  }

  lemma OneStep(s: State)
    requires s.attempt.todo != [] && Phased(s.attempt)
    ensures Phased(Step(s, Done).attempt) && Run(s, NO_FAULTS) == Run(Step(s, Done), NO_FAULTS)
  {
    StepPhased(s, Done);
  }

  /** From the namespace on: the object is applied at its destination. */
  lemma AppliesCleanly(s: State) returns (s': State)
    requires Phased(s.attempt) && s.attempt.todo != [] && s.attempt.todo[0].task.Write? && s.attempt.todo[0].dest.Some?
    requires s.attempt == ToApply(s.attempt)
    ensures Phased(s'.attempt) && Run(s, NO_FAULTS) == Run(s', NO_FAULTS)
    ensures s'.attempt == ToNext(s.attempt)
    ensures var k, to := s.attempt.key, s.attempt.todo[0].dest.value;
            && (forall d :: Holds(s'.fleet, k, Some(d)) <==> Holds(s.fleet, k, Some(d)) || to == d)
            && (forall d :: On(s.fleet, d).namespaces <= On(s'.fleet, d).namespaces)
            && HasNamespace(k, s'.fleet, to)
  {
    s' := s;
    if s'.attempt.phase.GettingNamespace? {
      OneStep(s');
      s' := Step(s', Done);
      if s'.attempt.phase.CreatingNamespace? {
        OneStep(s');
        s' := Step(s', Done);
      }
    }
    OneStep(s');
    s' := Step(s', Done);
    if s'.attempt.phase.PatchingStatus? {
      OneStep(s');
      s' := Step(s', Done);
    }
  }

  lemma WorkRuns(s: State) returns (s': State)
    requires Phased(s.attempt) && s.attempt.phase.Resolving? && s.attempt.todo != [] && !s.attempt.todo[0].task.Remove?
    ensures AfterWork(s, s') && Run(s, NO_FAULTS) == Run(s', NO_FAULTS)
  {
    OneStep(s);
    s' := Step(s, Done);
    if s'.attempt.phase.Checking? {
      OneStep(s');
      s' := Step(s', Done);
    }
    if WorkError(s.fleet, s.attempt.key, s.attempt.todo[0]).None? {
      s' := AppliesCleanly(s');
    }
  }

  // ---- All works ----

  /** An earlier work creates the object where the i-th goes. */
  ghost predicate CreatedBefore(works: seq<Work>, i: int) {
    exists n :: 0 <= n < i < |works| && Creates(works[n]) && works[n].dest == works[i].dest
  }

  /** The error of the i-th of these works when they run one after the other. */
  ghost function ErrorAt(f: Fleet, k: ObjectKey, works: seq<Work>, i: nat): Option<SyncError>
    requires i < |works|
  {
    if CreatedBefore(works, i) && WorkError(f, k, works[i]) == Some(MissingDestination) then None
    else WorkError(f, k, works[i])
  }

  ghost predicate SomeError(f: Fleet, k: ObjectKey, works: seq<Work>, e: SyncError) {
    exists i: nat :: i < |works| && ErrorAt(f, k, works, i) == Some(e)
  }

  ghost predicate SomeCreates(works: seq<Work>, d: Dest) {
    exists i :: 0 <= i < |works| && Creates(works[i]) && works[i].dest == Some(d)
  }

  /** The first work as the later ones see it. */
  lemma AfterFirst(f: Fleet, g: Fleet, k: ObjectKey, works: seq<Work>, j: nat)
    requires works != [] && !works[0].task.Remove? && j < |works| - 1
    requires forall d :: Holds(g, k, Some(d)) <==>
               Holds(f, k, Some(d)) || (works[0].dest == Some(d) && WorkError(f, k, works[0]).None?)
    ensures ErrorAt(g, k, works[1..], j) == ErrorAt(f, k, works, j + 1)
  {
    var rest := works[1..];
    if CreatedBefore(rest, j) {
      var n :| 0 <= n < j < |rest| && Creates(rest[n]) && rest[n].dest == rest[j].dest;
      assert Creates(works[n + 1]) && works[n + 1].dest == works[j + 1].dest;
    }
    if CreatedBefore(works, j + 1) && !(Creates(works[0]) && works[0].dest == works[j + 1].dest) {
      var n :| 0 <= n < j + 1 && Creates(works[n]) && works[n].dest == works[j + 1].dest;
      assert Creates(rest[n - 1]) && rest[n - 1].dest == rest[j].dest;
    }
  }

  lemma ErrorsShift(f: Fleet, g: Fleet, k: ObjectKey, works: seq<Work>, e: SyncError)
    requires works != []
    requires forall j: nat | j < |works| - 1 :: ErrorAt(g, k, works[1..], j) == ErrorAt(f, k, works, j + 1)
    ensures SomeError(f, k, works, e) <==> ErrorAt(f, k, works, 0) == Some(e) || SomeError(g, k, works[1..], e)
  {
    if SomeError(f, k, works, e) && ErrorAt(f, k, works, 0) != Some(e) {
      var i: nat :| i < |works| && ErrorAt(f, k, works, i) == Some(e);
      assert ErrorAt(g, k, works[1..], i - 1) == Some(e);
    }
    if SomeError(g, k, works[1..], e) {
      var j: nat :| j < |works[1..]| && ErrorAt(g, k, works[1..], j) == Some(e);
      assert ErrorAt(f, k, works, j + 1) == Some(e);
    }
  }

  lemma CreatesShift(works: seq<Work>, d: Dest)
    requires works != []
    ensures SomeCreates(works, d) <==> (Creates(works[0]) && works[0].dest == Some(d)) || SomeCreates(works[1..], d)
  {
    if SomeCreates(works[1..], d) {
      var i :| 0 <= i < |works[1..]| && Creates(works[1..][i]) && works[1..][i].dest == Some(d);
      assert Creates(works[i + 1]) && works[i + 1].dest == Some(d);
    }
    if SomeCreates(works, d) {
      var i :| 0 <= i < |works| && Creates(works[i]) && works[i].dest == Some(d);
      assert i > 0 ==> works[1..][i - 1] == works[i];
    }
  }

  /** What the works of a present source leave behind. */
  ghost predicate Outcome(s: State, z: State) {
    var k, works := s.attempt.key, s.attempt.todo;
    && (forall e :: e in z.attempt.errors <==> e in s.attempt.errors || SomeError(s.fleet, k, works, e))
    && (forall d :: Holds(z.fleet, k, Some(d)) <==> Holds(s.fleet, k, Some(d)) || SomeCreates(works, d))
    && (forall d :: On(s.fleet, d).namespaces <= On(z.fleet, d).namespaces)
    && (forall i: nat | i < |works| && ErrorAt(s.fleet, k, works, i).None? :: HasNamespace(k, z.fleet, Target(works[i])))
  }

  lemma OutcomeOfRest(s: State, s': State, z: State)
    requires AfterWork(s, s') && Outcome(s', z) && !s.attempt.todo[0].task.Remove?
    ensures Outcome(s, z)
  {
    var k, works := s.attempt.key, s.attempt.todo;
    assert !CreatedBefore(works, 0);
    forall j: nat | j < |works| - 1 ensures ErrorAt(s'.fleet, k, works[1..], j) == ErrorAt(s.fleet, k, works, j + 1) {
      AfterFirst(s.fleet, s'.fleet, k, works, j);
    }
    forall e ensures e in z.attempt.errors <==> e in s.attempt.errors || SomeError(s.fleet, k, works, e) {
      ErrorsShift(s.fleet, s'.fleet, k, works, e);
    }
    forall d ensures Holds(z.fleet, k, Some(d)) <==> Holds(s.fleet, k, Some(d)) || SomeCreates(works, d) {
      CreatesShift(works, d);
    }
    forall d ensures On(s.fleet, d).namespaces <= On(z.fleet, d).namespaces {
      assert On(s.fleet, d).namespaces <= On(s'.fleet, d).namespaces;
    }
    forall i: nat | i < |works| && ErrorAt(s.fleet, k, works, i).None? ensures HasNamespace(k, z.fleet, Target(works[i])) {
      if i > 0 {
        assert works[1..][i - 1] == works[i] && ErrorAt(s'.fleet, k, works[1..], i - 1).None?;
      } else {
        assert On(s'.fleet, Target(works[0])).namespaces <= On(z.fleet, Target(works[0])).namespaces;
      }
    }
  }

  lemma {:induction false} WorksRun(s: State)
    requires Phased(s.attempt) && s.attempt.phase.Resolving?
    requires forall i | 0 <= i < |s.attempt.todo| :: !s.attempt.todo[i].task.Remove?
    ensures Outcome(s, Run(s, NO_FAULTS))
    decreases |s.attempt.todo|
  {
    if s.attempt.todo != [] {
      var s' := WorkRuns(s);
      WorksRun(s');
      OutcomeOfRest(s, s', Run(s', NO_FAULTS));
    }
  }

  // ---- Passes, on syncers and rules ----

  /** The source can be filtered for this rule. */
  predicate IsReadable(src: Fields, rule: ResourceRule) {
    Filtered(src, rule.syncFields).Success?
  }

  /** The rule of an earlier job lists `spec` and goes to the same destination. */
  ghost predicate SpecBefore(src: Fields, jobs: seq<Job>, i: int) {
    exists n :: 0 <= n < i < |jobs| && jobs[n].dest == jobs[i].dest
                && "spec" in jobs[n].rule.syncFields && IsReadable(src, jobs[n].rule)
  }

  /** The object is, or will by then be, where the i-th job goes. */
  ghost predicate FindsObject(f: Fleet, k: ObjectKey, src: Fields, jobs: seq<Job>, i: nat)
    requires i < |jobs| && jobs[i].dest.Some?
  {
    ObjectOn(f, jobs[i].dest.value, k).Some? || SpecBefore(src, jobs, i)
  }

  /** Why the i-th job fails when every call is answered, if it does: no destination,
      a source that cannot be filtered, or a rule without `spec` for an object that is
      not there. */
  ghost function Reason(f: Fleet, k: ObjectKey, src: Fields, jobs: seq<Job>, i: nat): Option<SyncError>
    requires i < |jobs|
  {
    if jobs[i].dest.None? then Some(ClientError)
    else if !IsReadable(src, jobs[i].rule) then Some(FilterFailed)
    else if "spec" !in jobs[i].rule.syncFields && !FindsObject(f, k, src, jobs, i) then Some(MissingDestination)
    else None
  }

  /** The works as far as the reasons depend on them. */
  ghost predicate Mirrors(src: Fields, jobs: seq<Job>, works: seq<Work>) {
    && |works| == |jobs|
    && forall n | 0 <= n < |jobs| ::
         && works[n].dest == jobs[n].dest && !works[n].task.Remove?
         && (works[n].task.Unreadable? <==> !IsReadable(src, jobs[n].rule))
         && (Creates(works[n]) <==> "spec" in jobs[n].rule.syncFields && IsReadable(src, jobs[n].rule))
  }

  lemma WorksMirrorJobs(src: Fields, jobs: seq<Job>)
    ensures Mirrors(src, jobs, WorksOf(Some(src), jobs))
  {
  }

  lemma BeforeMeansSpec(src: Fields, jobs: seq<Job>, works: seq<Work>, i: nat)
    requires Mirrors(src, jobs, works) && i < |jobs|
    ensures CreatedBefore(works, i) <==> SpecBefore(src, jobs, i)
  {
    if SpecBefore(src, jobs, i) {
      var n :| 0 <= n < i < |jobs| && jobs[n].dest == jobs[i].dest
               && "spec" in jobs[n].rule.syncFields && IsReadable(src, jobs[n].rule);
      assert Creates(works[n]) && works[n].dest == works[i].dest;
    }
    if CreatedBefore(works, i) {
      var n :| 0 <= n < i < |works| && Creates(works[n]) && works[n].dest == works[i].dest;
      assert jobs[n].dest == jobs[i].dest;
    }
  }

  lemma ReasonIsError(f: Fleet, k: ObjectKey, src: Fields, jobs: seq<Job>, works: seq<Work>, i: nat)
    requires Mirrors(src, jobs, works) && i < |jobs|
    ensures ErrorAt(f, k, works, i) == Reason(f, k, src, jobs, i)
  {
    BeforeMeansSpec(src, jobs, works, i);
    var readable, spec := IsReadable(src, jobs[i].rule), "spec" in jobs[i].rule.syncFields;
    assert works[i].dest == jobs[i].dest && !works[i].task.Remove? && (works[i].task.Unreadable? <==> !readable);
    assert Creates(works[i]) <==> spec && readable;
  }

  lemma ErrorsAreReasons(f: Fleet, k: ObjectKey, src: Fields, jobs: seq<Job>, works: seq<Work>, e: SyncError)
    requires Mirrors(src, jobs, works)
    ensures SomeError(f, k, works, e) <==> SomeReason(f, k, src, jobs, e)
  {
    if SomeError(f, k, works, e) {
      var i: nat :| i < |works| && ErrorAt(f, k, works, i) == Some(e);
      ReasonIsError(f, k, src, jobs, works, i);
    }
    if SomeReason(f, k, src, jobs, e) {
      var i: nat :| i < |jobs| && Reason(f, k, src, jobs, i) == Some(e);
      ReasonIsError(f, k, src, jobs, works, i);
    }
  }

  ghost predicate SomeReason(f: Fleet, k: ObjectKey, src: Fields, jobs: seq<Job>, e: SyncError) {
    exists i: nat :: i < |jobs| && Reason(f, k, src, jobs, i) == Some(e)
  }

  lemma LeavesObject(s: State, z: State, i: nat)
    requires Outcome(s, z) && i < |s.attempt.todo| && !s.attempt.todo[i].task.Remove?
    requires ErrorAt(s.fleet, s.attempt.key, s.attempt.todo, i).None?
    ensures var d := s.attempt.todo[i].dest;
            d.Some? && Holds(z.fleet, s.attempt.key, d) && HasNamespace(s.attempt.key, z.fleet, d.value)
  {
    var works := s.attempt.todo;
    if CreatedBefore(works, i) {
      var n :| 0 <= n < i < |works| && Creates(works[n]) && works[n].dest == works[i].dest;
      assert works[i].dest.Some? ==> SomeCreates(works, works[i].dest.value);
    } else if Creates(works[i]) {
      assert works[i].dest.Some? ==> SomeCreates(works, works[i].dest.value);
    }
  }

  lemma OutcomeOfJobs(s: State, z: State, src: Fields, jobs: seq<Job>)
    requires Outcome(s, z) && Mirrors(src, jobs, s.attempt.todo) && s.attempt.errors == []
    ensures forall e :: e in z.attempt.errors <==> SomeReason(s.fleet, s.attempt.key, src, jobs, e)
    ensures forall i: nat | i < |jobs| && Reason(s.fleet, s.attempt.key, src, jobs, i).None? ::
              && ObjectOn(z.fleet, jobs[i].dest.value, s.attempt.key).Some?
              && HasNamespace(s.attempt.key, z.fleet, jobs[i].dest.value)
  {
    var k, works := s.attempt.key, s.attempt.todo;
    forall e ensures e in z.attempt.errors <==> SomeReason(s.fleet, k, src, jobs, e) {
      ErrorsAreReasons(s.fleet, k, src, jobs, works, e);
    }
    forall i: nat | i < |jobs| && Reason(s.fleet, k, src, jobs, i).None?
      ensures ObjectOn(z.fleet, jobs[i].dest.value, k).Some? && HasNamespace(k, z.fleet, jobs[i].dest.value)
    {
      ReasonIsError(s.fleet, k, src, jobs, works, i);
      LeavesObject(s, z, i);
    }
  }

  /** A pass on a present source in which every call is answered. It reports exactly the
      reasons of the jobs that fail, so no error if and only if none does; and every
      other job leaves the object at its destination, in its namespace. */
  lemma FaultlessPass(fleet: Fleet, w: Watcher, syncers: seq<KRMSyncer>, req: Request, src: Fields)
    ensures var jobs := JobsOf(w, syncers, req.namespace);
            var k, z := KeyOf(w, req), Pass(fleet, w, syncers, req, Some(src), NO_FAULTS);
            && (forall e :: e in z.attempt.errors <==> SomeReason(fleet, k, src, jobs, e))
            && (z.attempt.errors == [] <==> forall i: nat | i < |jobs| :: Reason(fleet, k, src, jobs, i).None?)
            && (forall i: nat | i < |jobs| && Reason(fleet, k, src, jobs, i).None? ::
                  && ObjectOn(z.fleet, jobs[i].dest.value, k).Some?
                  && (req.namespace != "" ==> req.namespace in On(z.fleet, jobs[i].dest.value).namespaces))
  {
    var jobs, k := JobsOf(w, syncers, req.namespace), KeyOf(w, req);
    var s := State(fleet, Begin(k, WorksFor(w, syncers, req, Some(src))));
    WorksMirrorJobs(src, jobs);
    WorksRun(s);
    OutcomeOfJobs(s, Run(s, NO_FAULTS), src, jobs);
    var errors := Run(s, NO_FAULTS).attempt.errors;
    if errors != [] {
      assert errors[0] in errors;
    } else {
      forall i: nat | i < |jobs| ensures Reason(fleet, k, src, jobs, i).None? {
        if Reason(fleet, k, src, jobs, i).Some? {
          assert SomeReason(fleet, k, src, jobs, Reason(fleet, k, src, jobs, i).value);
        }
      }
    }
  }

  // ---- A deleted source ----

  lemma RemovalRuns(s: State) returns (s': State)
    requires Phased(s.attempt) && s.attempt.phase.Resolving? && s.attempt.todo != [] && s.attempt.todo[0].task.Remove?
    ensures Phased(s'.attempt) && Run(s, NO_FAULTS) == Run(s', NO_FAULTS)
    ensures s'.attempt == if s.attempt.todo[0].dest.Some? then ToNext(s.attempt) else WithError(s.attempt, ClientError)
  {
    OneStep(s);
    s' := Step(s, Done);
    if s.attempt.todo[0].dest.Some? {
      OneStep(s');
      s' := Step(s', Done);
    }
  }

  lemma {:induction false} RemovalsRun(s: State)
    requires Phased(s.attempt) && s.attempt.phase.Resolving? && AllRemoves(s.attempt.todo)
    ensures Run(s, NO_FAULTS).attempt.errors == []
            <==> s.attempt.errors == [] && forall i | 0 <= i < |s.attempt.todo| :: s.attempt.todo[i].dest.Some?
    decreases |s.attempt.todo|
  {
    if s.attempt.todo != [] {
      var s' := RemovalRuns(s);
      RemovalsRun(s');
      var todo := s.attempt.todo;
      assert forall i | 0 <= i < |todo| :: i == 0 || todo[i] == todo[1..][i - 1];
    }
  }

  /** A pass on a deleted source in which every call is answered: an object that is
      already gone is no error, so there is one only if a destination cannot be named. */
  lemma FaultlessDeletion(fleet: Fleet, w: Watcher, syncers: seq<KRMSyncer>, req: Request)
    ensures Pass(fleet, w, syncers, req, None, NO_FAULTS).attempt.errors == []
            <==> forall j | j in JobsOf(w, syncers, req.namespace) :: j.dest.Some?
  {
    var jobs, works := JobsOf(w, syncers, req.namespace), WorksFor(w, syncers, req, None);
    RemovalsRun(State(fleet, Begin(KeyOf(w, req), works)));
    assert forall i | 0 <= i < |jobs| :: works[i].dest == jobs[i].dest && jobs[i] in jobs;
  }
}
