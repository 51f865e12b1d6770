/** Rest can be reached, unless a gap in the informer's reports stands in the way. */
module Quiescence {
  import opened Wrappers
  import opened Json
  import opened Destinations
  import opened Attempts
  import opened Jobs
  import opened Runs
  import opened Passes
  import opened Prescriptions
  import opened Convergence

  // ---- Attempts without API failures ----

  /** Without API failures this work meets no error: it removes, or it writes in
      full mode or to an object that is there. */
  predicate Doable(f: Fleet, k: ObjectKey, w: Work) {
    w.dest.Some? && (w.task.Remove? || (w.task.Write? && (w.task.full || k in On(f, Target(w)).objects)))
  }

  predicate AllDoable(f: Fleet, k: ObjectKey, works: seq<Work>) {
    forall i | 0 <= i < |works| :: Doable(f, k, works[i])
  }

  /** All works of one version of the source remove, or all write. */
  predicate OfOneKind(works: seq<Work>) {
    AllRemoves(works) || forall i | 0 <= i < |works| :: !works[i].task.Remove?
  }

  ghost predicate Smooth(s: State) {
    var a := s.attempt;
    && Phased(a) && a.errors == [] && OfOneKind(a.todo)
    && AllDoable(s.fleet, a.key, a.todo)
    && (a.phase.Patching? ==> HasNamespace(a.key, s.fleet, Target(a.todo[0])))
    && (a.phase.PatchingStatus? ==> a.key in On(s.fleet, Target(a.todo[0])).objects)
  }

  lemma SmoothStep(s: State)
    requires Smooth(s) && s.attempt.todo != []
    ensures Smooth(Step(s, Done))
  {
    var a, s' := s.attempt, Step(s, Done);
    StepPhased(s, Done);
    assert Doable(s.fleet, a.key, a.todo[0]);
    forall i | 0 <= i < |s'.attempt.todo| ensures Doable(s'.fleet, a.key, s'.attempt.todo[i]) {
      var j := if s'.attempt.todo == a.todo then i else i + 1;
      assert s'.attempt.todo[i] == a.todo[j];
      assert Doable(s.fleet, a.key, a.todo[j]);
    }
  }

  lemma {:induction false} SmoothRun(s: State)
    requires Smooth(s)
    ensures Run(s, NO_FAULTS).attempt.errors == []
    decreases |s.attempt.todo|, Rank(s.attempt.phase)
  {
    if s.attempt.todo != [] {
      SmoothStep(s);
      StepMoves(s, Done);
      SmoothRun(Step(s, Done));
    }
  }

  /** An attempt that only writes removes no object. */
  lemma {:induction false} WritesKeepObjects(s: State, faults: Faults)
    requires Phased(s.attempt) && forall i | 0 <= i < |s.attempt.todo| :: !s.attempt.todo[i].task.Remove?
    ensures forall d :: On(s.fleet, d).objects.Keys <= On(Run(s, faults).fleet, d).objects.Keys
    decreases |s.attempt.todo|, Rank(s.attempt.phase)
  {
    if s.attempt.todo != [] {
      var s' := NextOf(s, faults);
      StepMoves(s, faults(|s.attempt.done|, s.attempt.phase));
      forall d ensures On(s.fleet, d).objects.Keys <= On(s'.fleet, d).objects.Keys {
      }
      WritesKeepObjects(s', faults);
    }
  }

  // ---- The outcome of an attempt does not depend on others ----

  /** As far as one key goes, the clusters hold the same object and no fewer
      namespaces. */
  ghost predicate Wider(f: Fleet, g: Fleet, k: ObjectKey) {
    && (forall d :: ObjectOn(g, d, k) == ObjectOn(f, d, k))
    && (forall d :: On(f, d).namespaces <= On(g, d).namespaces)
  }

  lemma StepsWider(f: Fleet, g: Fleet, a: Attempt)
    requires Phased(a) && a.todo != [] && PatchesInNamespace(f, a) && Wider(f, g, a.key)
    ensures var sf, sg := Step(State(f, a), Done), Step(State(g, a), Done);
            && (sf.attempt == sg.attempt ==> Wider(sf.fleet, sg.fleet, a.key))
            && (sf.attempt != sg.attempt ==>
                  && a.phase.GettingNamespace? && sf == State(f, a.(phase := CreatingNamespace))
                  && sg == State(g, a.(phase := Patching)) && a.key.namespace in On(g, Target(a.todo[0])).namespaces)
  {
    var d := Target(a.todo[0]);
    var sf, sg := Step(State(f, a), Done), Step(State(g, a), Done);
    assert ObjectOn(g, d, a.key) == ObjectOn(f, d, a.key) && On(f, d).namespaces <= On(g, d).namespaces;
    if sf.attempt == sg.attempt {
      forall e ensures ObjectOn(sg.fleet, e, a.key) == ObjectOn(sf.fleet, e, a.key)
                       && On(sf.fleet, e).namespaces <= On(sg.fleet, e).namespaces
      {
        assert ObjectOn(g, e, a.key) == ObjectOn(f, e, a.key) && On(f, e).namespaces <= On(g, e).namespaces;
      }
    }
  }

  lemma CreatesNamespace(f: Fleet, g: Fleet, a: Attempt)
    requires Phased(a) && a.phase.CreatingNamespace? && Wider(f, g, a.key)
    requires a.key.namespace in On(g, Target(a.todo[0])).namespaces
    ensures var s := Step(State(f, a), Done);
            s.attempt == a.(phase := Patching) && Wider(s.fleet, g, a.key) && PatchesInNamespace(s.fleet, s.attempt)
  {
  }

  /** An attempt meets the same errors whatever namespaces others create meanwhile. */
  lemma {:induction false} SameOutcome(f: Fleet, g: Fleet, a: Attempt)
    requires Phased(a) && PatchesInNamespace(f, a) && Wider(f, g, a.key)
    ensures Run(State(g, a), NO_FAULTS).attempt.errors == Run(State(f, a), NO_FAULTS).attempt.errors
    decreases |a.todo|, Rank(a.phase)
  {
    if a.todo != [] {
      var sf, sg := Step(State(f, a), Done), Step(State(g, a), Done);
      StepPhased(State(f, a), Done);
      StepMoves(State(f, a), Done);
      StepsWider(f, g, a);
      StepInNamespace(State(f, a), Done);
      if sf.attempt == sg.attempt {
        SameOutcome(sf.fleet, sg.fleet, sf.attempt);
      } else {
        var s2 := Step(sf, Done);
        CreatesNamespace(f, g, sf.attempt);
        SameOutcome(s2.fleet, g, s2.attempt);
      }
    }
  }

  // ---- Continuations of a run ----

  /** Steps of the controller and its informer alone, and no API failure. */
  predicate IsSmooth(e: Event) {
    match e
    case Deliver(_, _) => true
    case Enqueue(_) => true
    case Take(_) => true
    case ReadSucceeds(_, _) => true
    case Call(_, o) => o == Done
    case Finish(_) => true
    case _ => false
  }

  predicate AllSmooth(events: seq<Event>) {
    forall i | 0 <= i < |events| :: IsSmooth(events[i])
  }

  lemma {:induction false} ExecAppend(cfg: Config, s: Controller, a: seq<Event>, b: seq<Event>)
    ensures Exec(cfg, s, a + b) == Exec(cfg, Exec(cfg, s, a), b)
    decreases |b|
  {
    if b == [] {
      assert a + b == a;
    } else {
      var n := |b| - 1;
      ExecAppend(cfg, s, a, b[..n]);
      assert (a + b)[..|a + b| - 1] == a + b[..n];
    }
  }

  lemma ExecOne(cfg: Config, s: Controller, e: Event)
    ensures Exec(cfg, s, [e]) == Next(cfg, s, e)
  {
    assert [e][..0] == [];
  }

  lemma ExecFirst(cfg: Config, s: Controller, e: Event, events: seq<Event>)
    ensures Exec(cfg, s, [e] + events) == Exec(cfg, Next(cfg, s, e), events)
  {
    ExecAppend(cfg, s, [e], events);
    ExecOne(cfg, s, e);
  }

  function WithAttempt(s: Controller, k: Request, z: State): Controller
    requires k in s.inflight && s.inflight[k].Running?
  {
    s.(fleet := z.fleet, inflight := s.inflight[k := s.inflight[k].(attempt := z.attempt)])
  }

  /** The state after the attempt of a key has run to its end. */
  function Ended(s: Controller, k: Request): Controller
    requires IsRunning(s, k)
  {
    WithAttempt(s, k, Run(State(s.fleet, s.inflight[k].attempt), NO_FAULTS))
  }

  lemma WithAttemptTwice(s: Controller, k: Request, y: State, z: State)
    requires k in s.inflight && s.inflight[k].Running?
    ensures WithAttempt(WithAttempt(s, k, y), k, z) == WithAttempt(s, k, z)
    ensures WithAttempt(s, k, State(s.fleet, s.inflight[k].attempt)) == s
  {
    var f, g := s.inflight[k].(attempt := y.attempt), s.inflight[k].(attempt := z.attempt);
    assert s.inflight[k := f][k := g] == s.inflight[k := g];
    assert s.inflight[k := s.inflight[k]] == s.inflight;
  }

  lemma CallIsStep(cfg: Config, s: Controller, k: Request, o: Outcome)
    requires IsRunning(s, k) && s.inflight[k].attempt.todo != []
    ensures Next(cfg, s, Call(k, o)) == WithAttempt(s, k, Step(State(s.fleet, s.inflight[k].attempt), o))
  {
  }

  /** The calls of an attempt, one after the other, are its run. */
  lemma {:induction false} CallsRun(cfg: Config, s: Controller, k: Request, faults: Faults) returns (events: seq<Event>)
    requires IsRunning(s, k)
    ensures Exec(cfg, s, events) == WithAttempt(s, k, Run(State(s.fleet, s.inflight[k].attempt), faults))
    ensures forall e | e in events :: e.Call? && e.key == k && exists n, p :: e.outcome == faults(n, p)
    decreases |s.inflight[k].attempt.todo|, Rank(s.inflight[k].attempt.phase)
  {
    var st := State(s.fleet, s.inflight[k].attempt);
    WithAttemptTwice(s, k, st, st);
    if st.attempt.todo == [] {
      events := [];
    } else {
      var o := faults(|st.attempt.done|, st.attempt.phase);
      var next := Step(st, o);
      StepPhased(st, o);
      StepMoves(st, o);
      var s' := WithAttempt(s, k, next);
      var rest := CallsRun(cfg, s', k, faults);
      WithAttemptTwice(s, k, next, Run(next, faults));
      CallIsStep(cfg, s, k, o);
      events := [Call(k, o)] + rest;
      ExecFirst(cfg, s, Call(k, o), rest);
    }
  }

  lemma CallsEnd(cfg: Config, s: Controller, k: Request) returns (events: seq<Event>)
    requires IsRunning(s, k)
    ensures AllSmooth(events) && Exec(cfg, s, events) == Ended(s, k)
  {
    events := CallsRun(cfg, s, k, NO_FAULTS);
    forall i | 0 <= i < |events| ensures IsSmooth(events[i]) {
      assert events[i] in events;
    }
  }

  /** Two states agree on all keys but one: records and objects. */
  ghost predicate SameElsewhere(cfg: Config, s: Controller, s': Controller, k: Request) {
    && (forall x | x != k :: SameFor(s, s', x))
    && (forall x, d | x != k :: ObjectOn(s'.fleet, d, KeyOf(cfg.watcher, x)) == ObjectOn(s.fleet, d, KeyOf(cfg.watcher, x)))
    && (forall d :: On(s.fleet, d).namespaces <= On(s'.fleet, d).namespaces)
    && s'.history == s.history
  }

  lemma SameElsewhereChain(cfg: Config, a: Controller, b: Controller, c: Controller, k: Request)
    requires SameElsewhere(cfg, a, b, k) && SameElsewhere(cfg, b, c, k)
    ensures SameElsewhere(cfg, a, c, k)
  {
    forall x | x != k ensures SameFor(a, c, x) {
      assert SameFor(a, b, x) && SameFor(b, c, x);
    }
  }

  lemma EndedElsewhere(cfg: Config, s: Controller, k: Request)
    requires IsRunning(s, k) && s.inflight[k].attempt.key == KeyOf(cfg.watcher, k)
    ensures SameElsewhere(cfg, s, Ended(s, k), k)
    ensures IsRunning(Ended(s, k), k) && Ended(s, k).inflight[k].attempt.todo == []
  {
    var st := State(s.fleet, s.inflight[k].attempt);
    RunKeeps(st, NO_FAULTS);
    RunPhased(st);
    RunGrowsNamespaces(st);
    forall x | x != k ensures SameFor(s, Ended(s, k), x) {
      AttemptSameFor(s, k, Run(st, NO_FAULTS), x);
    }
    forall x, d | x != k
      ensures ObjectOn(Ended(s, k).fleet, d, KeyOf(cfg.watcher, x)) == ObjectOn(s.fleet, d, KeyOf(cfg.watcher, x))
    {
      RunSparesOthers(cfg, st, k, x, d);
    }
  }

  lemma AttemptSameFor(s: Controller, k: Request, z: State, x: Request)
    requires k in s.inflight && s.inflight[k].Running? && x != k
    ensures SameFor(s, WithAttempt(s, k, z), x)
  {
  }

  lemma RunSparesOthers(cfg: Config, s: State, k: Request, x: Request, d: Dest)
    requires Phased(s.attempt) && s.attempt.key == KeyOf(cfg.watcher, k) && x != k
    ensures ObjectOn(Run(s, NO_FAULTS).fleet, d, KeyOf(cfg.watcher, x)) == ObjectOn(s.fleet, d, KeyOf(cfg.watcher, x))
  {
    RunFrame(s, NO_FAULTS);
    assert Confined(On(s.fleet, d), On(Run(s, NO_FAULTS).fleet, d), s.attempt.key);
  }

  lemma RunGrowsNamespaces(s: State)
    requires Phased(s.attempt)
    ensures forall d :: On(s.fleet, d).namespaces <= On(Run(s, NO_FAULTS).fleet, d).namespaces
  {
    RunFrame(s, NO_FAULTS);
    forall d ensures On(s.fleet, d).namespaces <= On(Run(s, NO_FAULTS).fleet, d).namespaces {
      assert Confined(On(s.fleet, d), On(Run(s, NO_FAULTS).fleet, d), s.attempt.key);
    }
  }

  lemma RunPhased(s: State)
    requires Phased(s.attempt)
    ensures Phased(Run(s, NO_FAULTS).attempt)
  {
    RunEnds(s, NO_FAULTS);
  }

  // ---- One key to rest ----

  predicate NeedsObject(works: seq<Work>) {
    exists i :: 0 <= i < |works| && works[i].task.Write? && !works[i].task.full
  }

  predicate StillRemoves(s: Controller, k: Request) {
    k in s.inflight && s.inflight[k].Running?
    && exists i :: 0 <= i < |s.inflight[k].attempt.todo| && s.inflight[k].attempt.todo[i].task.Remove?
  }

  /** The current version of a key can be synced: its works can be done, and no
      attempt under way is about to remove what a status-mode work needs. */
  ghost predicate CanSync(cfg: Config, s: Controller, k: Request) {
    var works := Works(cfg, k, Now(s, k));
    AllDoable(s.fleet, KeyOf(cfg.watcher, k), works) && !(NeedsObject(works) && StillRemoves(s, k))
  }

  /** The attempt under way will meet no error, if no API call fails. */
  predicate EndsClean(s: Controller, k: Request)
    requires IsRunning(s, k)
  {
    Run(State(s.fleet, s.inflight[k].attempt), NO_FAULTS).attempt.errors == []
  }

  /** A gap that nothing is going to close: the informer has no later version to
      show, and the key is neither going to be read nor to be retried. */
  predicate Stuck(s: Controller, k: Request) {
    && k in s.gaps && SeenOf(s, k) == Current(s, k)
    && (k in s.inflight ==> IsRunning(s, k) && EndsClean(s, k))
  }

  ghost predicate KeyAtRest(s: Controller, k: Request) {
    Settled(s, k) && CaughtUp(s, k)
  }

  /** A continuation that only concerns one key. */
  ghost predicate Continues(cfg: Config, start: Fleet, s: Controller, events: seq<Event>, k: Request) {
    AllSmooth(events) && Inv(cfg, start, Exec(cfg, s, events)) && SameElsewhere(cfg, s, Exec(cfg, s, events), k)
  }

  lemma ContinuesChain(cfg: Config, start: Fleet, s: Controller, a: seq<Event>, b: seq<Event>, k: Request)
    requires Continues(cfg, start, s, a, k) && Continues(cfg, start, Exec(cfg, s, a), b, k)
    ensures Continues(cfg, start, s, a + b, k) && Exec(cfg, s, a + b) == Exec(cfg, Exec(cfg, s, a), b)
  {
    ExecAppend(cfg, s, a, b);
    SameElsewhereChain(cfg, s, Exec(cfg, s, a), Exec(cfg, s, a + b), k);
  }

  lemma InformerSameFor(cfg: Config, s: Controller, e: Event, x: Request)
    requires x != e.key && (e.Deliver? || e.Enqueue?)
    ensures SameFor(s, Next(cfg, s, e), x)
  {
  }

  lemma WorkerSameFor(cfg: Config, s: Controller, e: Event, x: Request)
    requires x != e.key && (e.Take? || e.ReadSucceeds?)
    ensures SameFor(s, Next(cfg, s, e), x)
  {
  }

  lemma FinishSameFor(cfg: Config, s: Controller, k: Request, x: Request)
    requires x != k
    ensures SameFor(s, Next(cfg, s, Finish(k)), x)
  {
  }

  lemma NextSameFor(cfg: Config, s: Controller, e: Event, x: Request)
    requires x != e.key && IsSmooth(e) && !e.Call?
    ensures SameFor(s, Next(cfg, s, e), x)
  {
    match e
    case Finish(k) => FinishSameFor(cfg, s, k, x);
    case Take(_) => WorkerSameFor(cfg, s, e, x);
    case ReadSucceeds(_, _) => WorkerSameFor(cfg, s, e, x);
    case _ => InformerSameFor(cfg, s, e, x);
  }

  lemma NextKeepsFleet(cfg: Config, s: Controller, e: Event)
    requires IsSmooth(e) && !e.Call?
    ensures Next(cfg, s, e).fleet == s.fleet
  {
  }

  lemma NextKeepsHistory(cfg: Config, s: Controller, e: Event)
    requires IsSmooth(e) && !e.Call?
    ensures Next(cfg, s, e).history == s.history
  {
  }

  lemma StepContinues(cfg: Config, start: Fleet, s: Controller, e: Event)
    requires Inv(cfg, start, s) && IsSmooth(e) && !e.Call?
    ensures Continues(cfg, start, s, [e], e.key) && Exec(cfg, s, [e]) == Next(cfg, s, e)
    ensures Next(cfg, s, e).fleet == s.fleet && Next(cfg, s, e).history == s.history
  {
    var s' := Next(cfg, s, e);
    ExecOne(cfg, s, e);
    NextKeepsInv(cfg, start, s, e);
    NextKeepsFleet(cfg, s, e);
    NextKeepsHistory(cfg, s, e);
    forall x | x != e.key ensures SameFor(s, s', x) {
      NextSameFor(cfg, s, e, x);
    }
  }

  /** The attempt of a key runs to its end and returns. */
  lemma Return(cfg: Config, start: Fleet, s: Controller, k: Request) returns (events: seq<Event>)
    requires Inv(cfg, start, s) && IsRunning(s, k)
    ensures Continues(cfg, start, s, events, k) && Exec(cfg, s, events) == Next(cfg, Ended(s, k), Finish(k))
    ensures k !in Exec(cfg, s, events).inflight
  {
    assert KeyFits(cfg, start, s, k);
    var calls := CallsEnd(cfg, s, k);
    ExecKeepsInv(cfg, start, s, calls);
    EndedElsewhere(cfg, s, k);
    StepContinues(cfg, start, Ended(s, k), Finish(k));
    ContinuesChain(cfg, start, s, calls, [Finish(k)], k);
    events := calls + [Finish(k)];
  }

  lemma WorksAreOfOneKind(cfg: Config, k: Request, source: Source)
    ensures OfOneKind(Works(cfg, k, source))
  {
  }

  /** A key that has just been taken is synced with the current version. */
  lemma SyncTaken(cfg: Config, start: Fleet, s: Controller, k: Request) returns (events: seq<Event>)
    requires Inv(cfg, start, s) && IsTaken(s, k) && CanSync(cfg, s, k)
    ensures Continues(cfg, start, s, events, k)
    ensures Synced(cfg, s, Exec(cfg, s, events), k)
  {
    var v := Current(s, k);
    assert KeyFits(cfg, start, s, k);
    var s1 := Next(cfg, s, ReadSucceeds(k, v));
    StepContinues(cfg, start, s, ReadSucceeds(k, v));
    var rest := Return(cfg, start, s1, k);
    ContinuesChain(cfg, start, s, [ReadSucceeds(k, v)], rest, k);
    events := [ReadSucceeds(k, v)] + rest;
    TakenIsSynced(cfg, s, k);
  }

  /** The key has been synced with the current version, and can be again. */
  ghost predicate Synced(cfg: Config, s: Controller, z: Controller, k: Request) {
    && k !in z.inflight && (k in z.queued <==> k in s.queued) && k !in z.gaps && k !in z.failed
    && SeenOf(z, k) == SeenOf(s, k) && z.history == s.history
    && (k in z.delivered <==> k in s.delivered)
    && k in z.agreed && z.agreed[k] == Current(s, k)
    && CanSync(cfg, z, k)
  }

  lemma TakenIsSynced(cfg: Config, s: Controller, k: Request)
    requires IsTaken(s, k) && SeenOf(s, k) <= Current(s, k) && CanSync(cfg, s, k)
    ensures var s1 := Next(cfg, s, ReadSucceeds(k, Current(s, k)));
            IsRunning(s1, k) && Synced(cfg, s, Next(cfg, Ended(s1, k), Finish(k)), k)
  {
    var s1 := Next(cfg, s, ReadSucceeds(k, Current(s, k)));
    var works := Works(cfg, k, Now(s, k));
    var st := State(s.fleet, Begin(KeyOf(cfg.watcher, k), works));
    assert s1.inflight[k].attempt == st.attempt && s1.history == s.history;
    WorksAreOfOneKind(cfg, k, Now(s, k));
    SmoothBegin(s.fleet, KeyOf(cfg.watcher, k), works);
    FinishesClean(cfg, s1, k);
    CanSyncIdle(cfg, s, Next(cfg, Ended(s1, k), Finish(k)), k, Run(st, NO_FAULTS).fleet);
  }

  /** An attempt of doable works runs to its end without error, and its works stay
      doable. */
  lemma SmoothBegin(fleet: Fleet, key: ObjectKey, works: seq<Work>)
    requires AllDoable(fleet, key, works) && OfOneKind(works)
    ensures var z := Run(State(fleet, Begin(key, works)), NO_FAULTS);
            && z.attempt.errors == [] && z.attempt.todo == [] && Phased(z.attempt)
            && AllDoable(z.fleet, key, works)
  {
    var st := State(fleet, Begin(key, works));
    SmoothRun(st);
    RunKeeps(st, NO_FAULTS);
    RunPhased(st);
    RunKeepsDoable(st, works);
  }

  lemma FinishesClean(cfg: Config, s: Controller, k: Request)
    requires IsRunning(s, k)
    requires var z := Run(State(s.fleet, s.inflight[k].attempt), NO_FAULTS).attempt;
             Phased(z) && z.todo == [] && z.errors == []
    ensures var y := Next(cfg, Ended(s, k), Finish(k));
            y == s.(fleet := Ended(s, k).fleet, inflight := s.inflight - {k}, failed := s.failed - {k},
                    agreed := s.agreed[k := s.inflight[k].version])
  {
    assert Ended(s, k).inflight - {k} == s.inflight - {k};
  }

  lemma CanSyncIdle(cfg: Config, s: Controller, z: Controller, k: Request, fleet: Fleet)
    requires z.history == s.history && z.fleet == fleet && !StillRemoves(z, k)
    requires AllDoable(fleet, KeyOf(cfg.watcher, k), Works(cfg, k, Now(s, k)))
    ensures CanSync(cfg, z, k)
  {
  }

  /** What could be done before an attempt can be done after it, unless the attempt
      removes objects that the works need. */
  lemma RunKeepsDoable(s: State, works: seq<Work>)
    requires Phased(s.attempt) && AllDoable(s.fleet, s.attempt.key, works)
    requires NeedsObject(works) ==> forall i | 0 <= i < |s.attempt.todo| :: !s.attempt.todo[i].task.Remove?
    ensures AllDoable(Run(s, NO_FAULTS).fleet, s.attempt.key, works)
  {
    if NeedsObject(works) {
      WritesKeepObjects(s, NO_FAULTS);
    }
    forall i | 0 <= i < |works| ensures Doable(Run(s, NO_FAULTS).fleet, s.attempt.key, works[i]) {
      assert Doable(s.fleet, s.attempt.key, works[i]);
    }
  }

  /** Whatever a worker is doing with the key comes to an end. */
  lemma ClearFlight(cfg: Config, start: Fleet, s: Controller, k: Request) returns (events: seq<Event>)
    requires Inv(cfg, start, s) && CanSync(cfg, s, k) && !Stuck(s, k)
    ensures Continues(cfg, start, s, events, k)
    ensures var z := Exec(cfg, s, events); k !in z.inflight && CanSync(cfg, z, k) && !Stuck(z, k)
  {
    if k !in s.inflight {
      events := [];
    } else if s.inflight[k].Taken? {
      events := SyncTaken(cfg, start, s, k);
    } else {
      assert KeyFits(cfg, start, s, k);
      events := Return(cfg, start, s, k);
      ReturnKeepsDoable(cfg, s, k);
      ReturnKeepsFree(cfg, s, k);
    }
  }

  lemma FinishKeepsRest(cfg: Config, s: Controller, k: Request)
    ensures Next(cfg, s, Finish(k)).history == s.history && Next(cfg, s, Finish(k)).fleet == s.fleet
  {
  }

  lemma ReturnKeepsDoable(cfg: Config, s: Controller, k: Request)
    requires IsRunning(s, k) && CanSync(cfg, s, k) && s.inflight[k].attempt.key == KeyOf(cfg.watcher, k)
    ensures k !in Next(cfg, Ended(s, k), Finish(k)).inflight ==> CanSync(cfg, Next(cfg, Ended(s, k), Finish(k)), k)
  {
    var z := Next(cfg, Ended(s, k), Finish(k));
    RunKeepsDoable(State(s.fleet, s.inflight[k].attempt), Works(cfg, k, Now(s, k)));
    FinishKeepsRest(cfg, Ended(s, k), k);
    if k !in z.inflight {
      CanSyncIdle(cfg, s, z, k, Ended(s, k).fleet);
    }
  }

  /** A gap that is still there after the attempt has another way out. */
  lemma ReturnKeepsFree(cfg: Config, s: Controller, k: Request)
    requires IsRunning(s, k) && !Stuck(s, k)
    ensures !Stuck(Next(cfg, Ended(s, k), Finish(k)), k)
  {
    var st := State(s.fleet, s.inflight[k].attempt);
    RunKeeps(st, NO_FAULTS);
    RunPhased(st);
    assert IsRunning(Ended(s, k), k);
  }

  /** The informer shows every version up to the current one. */
  lemma {:induction false} DeliverAll(cfg: Config, start: Fleet, s: Controller, k: Request) returns (events: seq<Event>)
    requires Inv(cfg, start, s) && k !in s.inflight && CanSync(cfg, s, k) && !Stuck(s, k)
    ensures Continues(cfg, start, s, events, k)
    ensures var z := Exec(cfg, s, events);
            k !in z.inflight && SeenOf(z, k) == Current(z, k) && CanSync(cfg, z, k) && k !in z.gaps
    decreases Current(s, k) - SeenOf(s, k)
  {
    assert KeyFits(cfg, start, s, k);
    if SeenOf(s, k) == Current(s, k) {
      events := [];
    } else {
      var e := Deliver(k, SeenOf(s, k) + 1);
      var s' := Next(cfg, s, e);
      StepContinues(cfg, start, s, e);
      CanSyncIdle(cfg, s, s', k, s.fleet);
      var rest := DeliverAll(cfg, start, s', k);
      ContinuesChain(cfg, start, s, [e], rest, k);
      events := [e] + rest;
    }
  }

  lemma SettleKey(cfg: Config, start: Fleet, s: Controller, k: Request) returns (events: seq<Event>)
    requires Inv(cfg, start, s) && CanSync(cfg, s, k) && !Stuck(s, k)
    ensures Continues(cfg, start, s, events, k) && KeyAtRest(Exec(cfg, s, events), k)
  {
    var clear := ClearFlight(cfg, start, s, k);
    var s1 := Exec(cfg, s, clear);
    var delivery := DeliverAll(cfg, start, s1, k);
    ContinuesChain(cfg, start, s, clear, delivery, k);
    var s2 := Exec(cfg, s1, delivery);
    var sync := SyncIfNeeded(cfg, start, s2, k);
    ContinuesChain(cfg, start, s, clear + delivery, sync, k);
    events := clear + delivery + sync;
  }

  lemma SyncIfNeeded(cfg: Config, start: Fleet, s: Controller, k: Request) returns (events: seq<Event>)
    requires Inv(cfg, start, s) && k !in s.inflight && SeenOf(s, k) == Current(s, k) && CanSync(cfg, s, k) && k !in s.gaps
    ensures Continues(cfg, start, s, events, k) && KeyAtRest(Exec(cfg, s, events), k)
  {
    if k in s.queued {
      events := SyncQueued(cfg, start, s, k);
    } else {
      events := [];
    }
  }

  lemma SyncQueued(cfg: Config, start: Fleet, s: Controller, k: Request) returns (events: seq<Event>)
    requires Inv(cfg, start, s) && k in s.queued && k !in s.inflight && SeenOf(s, k) == Current(s, k) && CanSync(cfg, s, k)
    ensures Continues(cfg, start, s, events, k) && KeyAtRest(Exec(cfg, s, events), k)
  {
    var s1 := Next(cfg, s, Take(k));
    StepContinues(cfg, start, s, Take(k));
    CanSyncIdle(cfg, s, s1, k, s.fleet);
    var sync := SyncTaken(cfg, start, s1, k);
    ContinuesChain(cfg, start, s, [Take(k)], sync, k);
    events := [Take(k)] + sync;
  }

  // ---- All keys to rest ----

  lemma CanSyncKept(cfg: Config, s: Controller, s': Controller, k: Request, x: Request)
    requires SameElsewhere(cfg, s, s', k) && x != k && CanSync(cfg, s, x)
    ensures CanSync(cfg, s', x)
  {
    RecordSame(s, s', x);
    DoableKept(s.fleet, s'.fleet, KeyOf(cfg.watcher, x), Works(cfg, x, Now(s, x)));
  }

  lemma RecordSame(s: Controller, s': Controller, x: Request)
    requires SameFor(s, s', x)
    ensures Now(s', x) == Now(s, x) && (StillRemoves(s', x) <==> StillRemoves(s, x))
    ensures KeyAtRest(s, x) <==> KeyAtRest(s', x)
  {
    assert x in s'.inflight <==> x in s.inflight;
  }

  lemma DoableKept(f: Fleet, g: Fleet, k: ObjectKey, works: seq<Work>)
    requires AllDoable(f, k, works) && forall d :: ObjectOn(g, d, k) == ObjectOn(f, d, k)
    ensures AllDoable(g, k, works)
  {
    forall i | 0 <= i < |works| ensures Doable(g, k, works[i]) {
      assert Doable(f, k, works[i]);
      assert ObjectOn(g, Target(works[i]), k) == ObjectOn(f, Target(works[i]), k);
    }
  }

  lemma StuckKept(cfg: Config, start: Fleet, s: Controller, s': Controller, k: Request, x: Request)
    requires Inv(cfg, start, s) && SameElsewhere(cfg, s, s', k) && x != k
    ensures Stuck(s', x) <==> Stuck(s, x)
  {
    assert KeyFits(cfg, start, s, x) && SameFor(s, s', x);
    assert Get(s'.inflight, x) == Get(s.inflight, x);
    if IsRunning(s, x) {
      SameOutcome(s.fleet, s'.fleet, s.inflight[x].attempt);
    }
  }

  /** These keys can be brought to rest. */
  ghost predicate AllFree(cfg: Config, s: Controller, keys: set<Request>) {
    forall k | k in keys :: CanSync(cfg, s, k) && !Stuck(s, k)
  }

  lemma AllFreeKept(cfg: Config, start: Fleet, s: Controller, s': Controller, k: Request, keys: set<Request>)
    requires Inv(cfg, start, s) && SameElsewhere(cfg, s, s', k) && AllFree(cfg, s, keys)
    ensures AllFree(cfg, s', keys - {k})
  {
    forall x | x in keys - {k} ensures CanSync(cfg, s', x) && !Stuck(s', x) {
      CanSyncKept(cfg, s, s', k, x);
      StuckKept(cfg, start, s, s', k, x);
    }
  }

  lemma {:induction false} SettleKeys(cfg: Config, start: Fleet, s: Controller, keys: set<Request>) returns (events: seq<Event>)
    requires Inv(cfg, start, s)
    requires AllFree(cfg, s, keys)
    requires forall k | k !in keys :: KeyAtRest(s, k)
    ensures AllSmooth(events) && forall k :: KeyAtRest(Exec(cfg, s, events), k)
    decreases |keys|
  {
    if keys == {} {
      events := [];
    } else {
      var k :| k in keys;
      var first := SettleKey(cfg, start, s, k);
      var s' := Exec(cfg, s, first);
      AllFreeKept(cfg, start, s, s', k, keys);
      forall x | x !in keys - {k} ensures KeyAtRest(s', x) {
        if x != k {
          RecordSame(s, s', x);
        }
      }
      var rest := SettleKeys(cfg, start, s', keys - {k});
      ExecAppend(cfg, s, first, rest);
      events := first + rest;
    }
  }

  /** The keys that are not at rest; all of them have a source object or had one. */
  ghost function Restless(s: Controller): set<Request> {
    set k | k in s.history.Keys && !KeyAtRest(s, k)
  }

  /** Rest is within reach: from every reachable state in which the current version
      of every key that is not at rest can be synced, and no gap is stuck, some
      continuation without API failures and without further changes of the source
      ends at rest. */
  lemma RestIsReachable(cfg: Config, source: map<Request, Fields>, fleet: Fleet, events: seq<Event>) returns (more: seq<Event>)
    requires var s := Exec(cfg, Start(source, fleet), events);
             AllFree(cfg, s, Restless(s))
    ensures AllSmooth(more) && AtRest(Exec(cfg, Start(source, fleet), events + more))
  {
    var s := Exec(cfg, Start(source, fleet), events);
    RunInv(cfg, source, fleet, events);
    forall k | k !in Restless(s) ensures KeyAtRest(s, k) {
      assert KeyFits(cfg, fleet, s, k);
    }
    more := SettleKeys(cfg, fleet, s, Restless(s));
    ExecAppend(cfg, Start(source, fleet), events, more);
    var z := Exec(cfg, s, more);
    forall k ensures k !in z.queued && k !in z.inflight && CaughtUp(z, k) {
      assert KeyAtRest(z, k);
    }
  }
}
