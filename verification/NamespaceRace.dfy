/** Any number of workers that look a namespace up, create it and apply, under
    any interleaving, with others creating namespaces at the same time. The API
    answers every call; AlreadyExists and NotFound are its only refusals. */
module NamespaceRace {
  import opened Wrappers
  import opened Destinations
  import opened Attempts
  import opened Runs

  datatype Pool = Pool(fleet: Fleet, workers: seq<Attempt>)

  datatype Move = Call(worker: nat) | ForeignNamespace(at: Dest, ns: string)

  predicate AllPhased(p: Pool) {
    forall i | 0 <= i < |p.workers| :: Phased(p.workers[i])
  }

  function Next(p: Pool, m: Move): (p': Pool)
    requires AllPhased(p)
    ensures AllPhased(p') && |p'.workers| == |p.workers|
  {
    match m
    case Call(i) =>
      if i >= |p.workers| || p.workers[i].todo == [] then p
      else
        var s := State(p.fleet, p.workers[i]);
        StepPhased(s, Done);
        Pool(Step(s, Done).fleet, p.workers[i := Step(s, Done).attempt])
    case ForeignNamespace(d, ns) =>
      p.(fleet := p.fleet[d := CreateNamespace(On(p.fleet, d), ns, Done).0])
  }

  function Exec(p: Pool, moves: seq<Move>): (p': Pool)
    requires AllPhased(p)
    ensures AllPhased(p') && |p'.workers| == |p.workers|
  {
    if moves == [] then p else Next(Exec(p, moves[..|moves| - 1]), moves[|moves| - 1])
  }

  predicate Exists(f: Fleet, k: ObjectKey, w: Work) {
    k in On(f, Target(w)).objects
  }

  /** The work applies, in full mode or to an object that is there. */
  predicate Applies(f: Fleet, k: ObjectKey, w: Work) {
    w.dest.Some? && w.task.Write? && (w.task.full || Exists(f, k, w))
  }

  /** A worker that has met no error and will meet none. */
  ghost predicate Sound(f: Fleet, a: Attempt) {
    && Phased(a)
    && a.errors == []
    && (forall i | 0 <= i < |a.todo| :: Applies(f, a.key, a.todo[i]))
    && (forall i | 0 <= i < |a.done| :: Exists(f, a.key, a.done[i]))
    && (a.phase.Patching? ==> HasNamespace(a.key, f, Target(a.todo[0])))
    && (a.phase.PatchingStatus? ==> Exists(f, a.key, a.todo[0]))
  }

  /** Nothing is removed. */
  ghost predicate Grows(f: Fleet, g: Fleet) {
    forall d :: On(f, d).namespaces <= On(g, d).namespaces && On(f, d).objects.Keys <= On(g, d).objects.Keys
  }

  lemma SoundIsStable(f: Fleet, g: Fleet, a: Attempt)
    requires Sound(f, a) && Grows(f, g)
    ensures Sound(g, a)
  {
    forall w: Work | Exists(f, a.key, w) ensures Exists(g, a.key, w) {
      assert On(f, Target(w)).objects.Keys <= On(g, Target(w)).objects.Keys;
    }
    forall i | 0 <= i < |a.todo| ensures Applies(g, a.key, a.todo[i]) {
      assert Applies(f, a.key, a.todo[i]);
    }
    forall i | 0 <= i < |a.done| ensures Exists(g, a.key, a.done[i]) {
      assert Exists(f, a.key, a.done[i]);
    }
    if a.phase.Patching? {
      assert On(f, Target(a.todo[0])).namespaces <= On(g, Target(a.todo[0])).namespaces;
    }
  }

  lemma SoundStep(s: State)
    requires Sound(s.fleet, s.attempt) && s.attempt.todo != [] && NamespacesFirst(s.fleet)
    ensures Grows(s.fleet, Step(s, Done).fleet)
    ensures Sound(Step(s, Done).fleet, Step(s, Done).attempt)
    ensures NamespacesFirst(Step(s, Done).fleet)
  {
    var a, s' := s.attempt, Step(s, Done);
    StepPhased(s, Done);
    assert Applies(s.fleet, a.key, a.todo[0]);
    SoundStepFleet(s);
    SoundIsStable(s.fleet, s'.fleet, a);
  }

  /** The fleet after a sound step: at most one more namespace or object. */
  lemma SoundStepFleet(s: State)
    requires Sound(s.fleet, s.attempt) && s.attempt.todo != [] && NamespacesFirst(s.fleet)
    ensures Grows(s.fleet, Step(s, Done).fleet)
    ensures NamespacesFirst(Step(s, Done).fleet)
  {
    var f' := Step(s, Done).fleet;
    assert Applies(s.fleet, s.attempt.key, s.attempt.todo[0]);
    forall d, k | k in On(f', d).objects ensures HasNamespace(k, f', d) {
      if k in On(s.fleet, d).objects {
        assert HasNamespace(k, s.fleet, d);
      }
    }
  }

  ghost predicate Safe(p: Pool) {
    NamespacesFirst(p.fleet) && forall i | 0 <= i < |p.workers| :: Sound(p.fleet, p.workers[i])
  }

  lemma NextIsSafe(p: Pool, m: Move)
    requires AllPhased(p) && Safe(p)
    ensures Safe(Next(p, m))
  {
    var p' := Next(p, m);
    match m
    case Call(i) =>
      if i < |p.workers| && p.workers[i].todo != [] {
        SoundStep(State(p.fleet, p.workers[i]));
        forall j | 0 <= j < |p.workers| ensures Sound(p'.fleet, p'.workers[j]) {
          if j != i {
            SoundIsStable(p.fleet, p'.fleet, p.workers[j]);
          }
        }
      }
    case ForeignNamespace(d, ns) =>
      assert Grows(p.fleet, p'.fleet);
      forall j | 0 <= j < |p.workers| ensures Sound(p'.fleet, p'.workers[j]) {
        SoundIsStable(p.fleet, p'.fleet, p.workers[j]);
      }
      forall e, k | k in On(p'.fleet, e).objects ensures HasNamespace(k, p'.fleet, e) {
        assert HasNamespace(k, p.fleet, e);
      }
  }

  /** Workers about to start. */
  ghost predicate Ready(p: Pool) {
    && NamespacesFirst(p.fleet)
    && forall i | 0 <= i < |p.workers| ::
         && p.workers[i] == Begin(p.workers[i].key, p.workers[i].todo)
         && forall j | 0 <= j < |p.workers[i].todo| :: Applies(p.fleet, p.workers[i].key, p.workers[i].todo[j])
  }

  lemma {:induction false} ExecIsSafe(p: Pool, moves: seq<Move>)
    requires Ready(p) && AllPhased(p)
    ensures Safe(Exec(p, moves))
  {
    if moves != [] {
      ExecIsSafe(p, moves[..|moves| - 1]);
      NextIsSafe(Exec(p, moves[..|moves| - 1]), moves[|moves| - 1]);
    }
  }

  // ---- Every worker finishes ----

  /** Calls a worker still needs, at most. */
  function Left(a: Attempt): nat {
    if a.todo == [] then 0 else 6 * (|a.todo| - 1) + Rank(a.phase) + 1
  }

  function Turns(moves: seq<Move>, i: nat): nat {
    if moves == [] then 0
    else Turns(moves[..|moves| - 1], i) + if moves[|moves| - 1] == Call(i) then 1 else 0
  }

  lemma StepUsesTurn(s: State, o: Outcome)
    requires s.attempt.todo != [] && Phased(s.attempt)
    ensures Left(Step(s, o).attempt) < Left(s.attempt)
  {
    StepMoves(s, o);
  }

  lemma {:induction false} TurnsUsed(p: Pool, moves: seq<Move>, i: nat)
    requires AllPhased(p) && i < |p.workers|
    ensures var a := Exec(p, moves).workers[i];
            && (a.todo == [] || Left(a) + Turns(moves, i) <= Left(p.workers[i]))
            && a.key == p.workers[i].key && a.done + a.todo == p.workers[i].done + p.workers[i].todo
  {
    if moves != [] {
      var before := Exec(p, moves[..|moves| - 1]);
      TurnsUsed(p, moves[..|moves| - 1], i);
      if moves[|moves| - 1] == Call(i) && before.workers[i].todo != [] {
        StepUsesTurn(State(before.fleet, before.workers[i]), Done);
        StepMoves(State(before.fleet, before.workers[i]), Done);
      }
    }
  }

  /** Namespace race: in every reachable state no worker has met an error and an
      object's namespace exists before the object does; and a worker that has had
      six turns per rule is done, with its object at each of its destinations. */
  lemma EveryWorkerSucceeds(p: Pool, moves: seq<Move>, i: nat)
    requires Ready(p) && AllPhased(p) && i < |p.workers|
    ensures var z := Exec(p, moves);
            && NamespacesFirst(z.fleet)
            && z.workers[i].errors == []
            && (Turns(moves, i) >= 6 * |p.workers[i].todo| ==>
                  z.workers[i].todo == []
                  && forall j | 0 <= j < |p.workers[i].todo| :: Exists(z.fleet, p.workers[i].key, p.workers[i].todo[j]))
  {
    ExecIsSafe(p, moves);
    TurnsUsed(p, moves, i);
    var a := Exec(p, moves).workers[i];
    assert Sound(Exec(p, moves).fleet, a);
    if Turns(moves, i) >= 6 * |p.workers[i].todo| {
      assert a.done + [] == a.done && [] + p.workers[i].todo == p.workers[i].todo;
    }
  }
}
