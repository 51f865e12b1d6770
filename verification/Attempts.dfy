/** One sync attempt for one key as a machine of API calls. The imperative
    Reconcile and the concurrent workers both run this machine. */
module Attempts {
  import opened Wrappers
  import opened ServerSideApply
  import opened Destinations

  datatype SyncError =
    | ClientError | DeleteError | FilterFailed | CheckError | MissingDestination
    | NamespaceError | ApplyError | StatusError

  /** What one matching rule asks for: removing the object, nothing because the
      source cannot be filtered, or writing the filtered object. `status` is
      there when the filtered object has a status. */
  datatype Task = Remove | Unreadable | Write(full: bool, main: Body, status: Option<Body>)

  /** A task and where it goes; `None` when the remote cannot be resolved. */
  datatype Work = Work(dest: Option<Dest>, task: Task)

  /** The next call to make for the work at hand. */
  datatype Phase = Resolving | Deleting | Checking | GettingNamespace | CreatingNamespace | Patching | PatchingStatus

  datatype Attempt = Attempt(key: ObjectKey, done: seq<Work>, todo: seq<Work>, phase: Phase, errors: seq<SyncError>)

  datatype State = State(fleet: Fleet, attempt: Attempt)

  function Begin(key: ObjectKey, works: seq<Work>): Attempt {
    Attempt(key, [], works, Resolving, [])
  }

  function Target(w: Work): Dest {
    match w.dest case Some(d) => d case None => Local
  }

  function ToNext(a: Attempt): Attempt
    requires a.todo != []
  {
    a.(done := a.done + [a.todo[0]], todo := a.todo[1..], phase := Resolving)
  }

  function WithError(a: Attempt, e: SyncError): Attempt
    requires a.todo != []
  {
    ToNext(a).(errors := a.errors + [e])
  }

  function ToApply(a: Attempt): Attempt {
    a.(phase := if a.key.namespace == "" then Patching else GettingNamespace)
  }

  /** With the destination client at hand: delete, or filter and go on. */
  function Dispatch(a: Attempt): Attempt
    requires a.todo != []
  {
    match a.todo[0].task
    case Remove => a.(phase := Deleting)
    case Unreadable => WithError(a, FilterFailed)
    case Write(full, _, _) => if full then ToApply(a) else a.(phase := Checking)
  }

  /** The phases an attempt can be in. */
  predicate Phased(a: Attempt) {
    && (!a.phase.Resolving? ==> a.todo != [] && a.todo[0].dest.Some?)
    && (a.phase.Deleting? ==> a.todo[0].task.Remove?)
    && (!a.phase.Resolving? && !a.phase.Deleting? ==> a.todo[0].task.Write?)
    && (a.phase.Checking? ==> !a.todo[0].task.full)
    && (a.phase.PatchingStatus? ==> a.todo[0].task.status.Some?)
    && (a.phase.GettingNamespace? || a.phase.CreatingNamespace? ==> a.key.namespace != "")
  }

  /** One API call with its outcome. */
  function Step(s: State, o: Outcome): State
    requires s.attempt.todo != [] && Phased(s.attempt)
  {
    var a := s.attempt;
    var work := a.todo[0];
    var d := Target(work);
    var c := On(s.fleet, d);
    match a.phase
    case Resolving =>
      if work.dest.None? || (d.Remote? && !o.Done?) then s.(attempt := WithError(a, ClientError))
      else s.(attempt := Dispatch(a))
    case Deleting =>
      var (c', r) := Delete(c, a.key, o);
      State(s.fleet[d := c'], if r.Failed? then WithError(a, DeleteError) else ToNext(a))
    case Checking =>
      var r := GetObject(c, a.key, o);
      s.(attempt := if r.Ok? then ToApply(a)
                    else WithError(a, if r.NotFound? then MissingDestination else CheckError))
    case GettingNamespace =>
      var r := GetNamespace(c, a.key.namespace, o);
      s.(attempt := if r.Ok? then a.(phase := Patching)
                    else if r.NotFound? then a.(phase := CreatingNamespace)
                    else WithError(a, NamespaceError))
    case CreatingNamespace =>
      var (c', r) := CreateNamespace(c, a.key.namespace, o);
      State(s.fleet[d := c'], if r.Failed? then WithError(a, NamespaceError) else a.(phase := Patching))
    case Patching =>
      var (c', r) := PatchMain(c, a.key, work.task.main, o);
      State(s.fleet[d := c'], if !r.Ok? then WithError(a, ApplyError)
                              else if work.task.status.Some? then a.(phase := PatchingStatus)
                              else ToNext(a))
    case PatchingStatus =>
      var (c', r) := PatchStatus(c, a.key, work.task.status.value, o);
      State(s.fleet[d := c'], if !r.Ok? then WithError(a, StatusError) else ToNext(a))
  }

  /** Calls left for the work at hand, at most. */
  function Rank(p: Phase): nat {
    match p
    case Resolving => 5
    case Deleting => 0
    case Checking => 4
    case GettingNamespace => 3
    case CreatingNamespace => 2
    case Patching => 1
    case PatchingStatus => 0
  }

  lemma StepPhased(s: State, o: Outcome)
    requires s.attempt.todo != [] && Phased(s.attempt)
    ensures Phased(Step(s, o).attempt)
  {
  }

  /** A step stays with the work at hand or moves on to the next; errors only
      accumulate, one per work. */
  lemma StepMoves(s: State, o: Outcome)
    requires s.attempt.todo != [] && Phased(s.attempt)
    ensures var a, a' := s.attempt, Step(s, o).attempt;
            || a' == a.(phase := a'.phase)
            || a' == ToNext(a)
            || (exists e :: a' == WithError(a, e))
    ensures var a, a' := s.attempt, Step(s, o).attempt;
            a'.key == a.key && a'.done + a'.todo == a.done + a.todo && a.errors <= a'.errors
  {
    var a := s.attempt;
    assert a.done + [a.todo[0]] + a.todo[1..] == a.done + a.todo;
  }

  /** A step touches nothing but the key's object and namespace at the
      destination of the work at hand, and removes no namespace. */
  lemma StepFrame(s: State, o: Outcome)
    requires s.attempt.todo != [] && Phased(s.attempt)
    ensures var a := s.attempt; var f' := Step(s, o).fleet;
            && (forall d | a.todo[0].dest != Some(d) :: On(f', d) == On(s.fleet, d))
            && (forall d :: Confined(On(s.fleet, d), On(f', d), a.key))
  {
    var a := s.attempt;
    var c := On(s.fleet, Target(a.todo[0]));
    CallsAreConfined(c, a.key, if a.phase.Patching? then a.todo[0].task.main else map[], o);
    CallsAreConfined(c, a.key, if a.phase.PatchingStatus? then a.todo[0].task.status.value else map[], o);
  }

  /** A call that is refused changes nothing, one whose reply is lost has the whole
      effect, and both end the work at hand with the error of that call. The client of
      the local cluster is there without a call. */
  lemma FailedCalls(s: State, o: Outcome)
    requires s.attempt.todo != [] && Phased(s.attempt) && !o.Done?
    ensures s.attempt.phase.Resolving? && s.attempt.todo[0].dest == Some(Local) ==> Step(s, o) == Step(s, Done)
    ensures !(s.attempt.phase.Resolving? && s.attempt.todo[0].dest == Some(Local)) ==>
              Step(s, o).attempt == WithError(s.attempt, match s.attempt.phase
                                                         case Resolving => ClientError
                                                         case Deleting => DeleteError
                                                         case Checking => CheckError
                                                         case GettingNamespace => NamespaceError
                                                         case CreatingNamespace => NamespaceError
                                                         case Patching => ApplyError
                                                         case PatchingStatus => StatusError)
    ensures o.Refused? ==> forall d :: On(Step(s, o).fleet, d) == On(s.fleet, d)
    ensures o.LostReply? ==> Step(s, o).fleet == Step(s, Done).fleet
  {
  }

  /** What the network does with each call of an attempt: work number and phase. */
  type Faults = (nat, Phase) -> Outcome

  /** Runs an attempt to its end, alone. */
  function Run(s: State, faults: Faults): State
    requires Phased(s.attempt)
    decreases |s.attempt.todo|, Rank(s.attempt.phase)
  {
    if s.attempt.todo == [] then s
    else
      var o := faults(|s.attempt.done|, s.attempt.phase);
      assert Phased(Step(s, o).attempt) by { StepPhased(s, o); }
      Run(Step(s, o), faults)
  }

  // ---- What a sequence of error-free works does to the object ----

  /** The effect of one error-free work on the object at its destination. */
  function ApplyWork(obj: Option<DestObject>, w: Work): Option<DestObject> {
    match w.task
    case Remove => None
    case Unreadable => obj
    case Write(_, main, status) =>
      var patched := PatchedMain(obj, main);
      Some(if status.Some? then PatchedStatus(patched, status.value) else patched)
  }

  /** The effect of error-free works on the object at destination `d`. */
  function ApplyWorks(obj: Option<DestObject>, works: seq<Work>, d: Dest): Option<DestObject> {
    if works == [] then obj
    else
      var before := ApplyWorks(obj, works[..|works| - 1], d);
      var w := works[|works| - 1];
      if w.dest == Some(d) then ApplyWork(before, w) else before
  }

  lemma ApplyWorksOneMore(obj: Option<DestObject>, works: seq<Work>, w: Work, d: Dest)
    ensures ApplyWorks(obj, works + [w], d) ==
            var before := ApplyWorks(obj, works, d);
            if w.dest == Some(d) then ApplyWork(before, w) else before
  {
    assert (works + [w])[..|works|] == works;
  }

  /** The object at `d` while an attempt without errors is under way. */
  function Expected(obj: Option<DestObject>, a: Attempt, d: Dest): Option<DestObject>
    requires Phased(a)
  {
    var before := ApplyWorks(obj, a.done, d);
    if a.phase.PatchingStatus? && a.todo[0].dest == Some(d) then Some(PatchedMain(before, a.todo[0].task.main))
    else before
  }

  predicate Targets(works: seq<Work>, d: Dest) {
    exists i | 0 <= i < |works| :: works[i].dest == Some(d)
  }

  // ---- Attempts that have met no error so far ----

  /** The attempt has met no error and the fleet shows exactly the effect of the
      works done, on top of what the key's objects were in `base`. */
  ghost predicate OnTrack(base: Fleet, s: State) {
    var a := s.attempt;
    && Phased(a)
    && a.errors == []
    && (forall d :: ObjectOn(s.fleet, d, a.key) == Expected(ObjectOn(base, d, a.key), a, d))
    && (forall i | 0 <= i < |a.done| :: Completed(a.key, a.done[i], s.fleet))
    && (a.phase.PatchingStatus? ==> HasNamespace(a.key, s.fleet, Target(a.todo[0])))
  }

  predicate HasNamespace(k: ObjectKey, f: Fleet, d: Dest) {
    k.namespace != "" ==> k.namespace in On(f, d).namespaces
  }

  /** What a work done without error leaves behind besides the object itself. */
  ghost predicate Completed(k: ObjectKey, w: Work, f: Fleet) {
    w.dest.Some? && !w.task.Unreadable? && (w.task.Write? ==> HasNamespace(k, f, w.dest.value))
  }

  lemma BeginOnTrack(fleet: Fleet, key: ObjectKey, works: seq<Work>)
    ensures OnTrack(fleet, State(fleet, Begin(key, works)))
  {
  }

  /** The steps that meet no error, with their effect on the key's objects. */
  ghost predicate CleanStep(s: State, s': State)
    requires s.attempt.todo != [] && Phased(s.attempt)
  {
    var a, a' := s.attempt, s'.attempt;
    var d, task := Target(a.todo[0]), a.todo[0].task;
    var obj, obj' := ObjectOn(s.fleet, d, a.key), ObjectOn(s'.fleet, d, a.key);
    && Phased(a')
    && (forall e | a.todo[0].dest != Some(e) :: On(s'.fleet, e) == On(s.fleet, e))
    && (forall e :: Confined(On(s.fleet, e), On(s'.fleet, e), a.key))
    && match a.phase
       case Deleting => a' == ToNext(a) && obj'.None?
       case Patching =>
         && a' == (if task.status.Some? then a.(phase := PatchingStatus) else ToNext(a))
         && obj' == Some(PatchedMain(obj, task.main))
         && HasNamespace(a.key, s.fleet, d)
       case PatchingStatus => a' == ToNext(a) && obj.Some? && obj' == Some(PatchedStatus(obj.value, task.status.value))
       case _ => a' == a.(phase := a'.phase) && !a'.phase.PatchingStatus? && obj' == obj
  }

  lemma StepIsClean(s: State, o: Outcome)
    requires s.attempt.todo != [] && Phased(s.attempt)
    requires s.attempt.errors == [] == Step(s, o).attempt.errors
    ensures CleanStep(s, Step(s, o))
  {
    StepFrame(s, o);
    StepPhased(s, o);
  }

  lemma CleanStepExpected(base: Fleet, s: State, s': State, d: Dest)
    requires s.attempt.todo != [] && OnTrack(base, s) && CleanStep(s, s')
    ensures ObjectOn(s'.fleet, d, s'.attempt.key) == Expected(ObjectOn(base, d, s.attempt.key), s'.attempt, d)
  {
    var a := s.attempt;
    ApplyWorksOneMore(ObjectOn(base, d, a.key), a.done, a.todo[0], d);
    assert ObjectOn(s.fleet, d, a.key) == Expected(ObjectOn(base, d, a.key), a, d);
  }

  lemma CleanStepOnTrack(base: Fleet, s: State, s': State)
    requires s.attempt.todo != [] && OnTrack(base, s) && CleanStep(s, s')
    ensures OnTrack(base, s')
  {
    var a, a' := s.attempt, s'.attempt;
    forall d ensures ObjectOn(s'.fleet, d, a'.key) == Expected(ObjectOn(base, d, a'.key), a', d) {
      CleanStepExpected(base, s, s', d);
    }
    forall d ensures On(s.fleet, d).namespaces <= On(s'.fleet, d).namespaces {
      assert Confined(On(s.fleet, d), On(s'.fleet, d), a.key);
    }
    forall i | 0 <= i < |a'.done| ensures Completed(a.key, a'.done[i], s'.fleet) {
      if i < |a.done| {
        assert Completed(a.key, a.done[i], s.fleet);
      }
    }
  }

  /** A step without error keeps an attempt on track. */
  lemma StepOnTrack(base: Fleet, s: State, o: Outcome)
    requires s.attempt.todo != [] && OnTrack(base, s)
    requires Step(s, o).attempt.errors == []
    ensures OnTrack(base, Step(s, o))
  {
    StepIsClean(s, o);
    CleanStepOnTrack(base, s, Step(s, o));
  }
}
