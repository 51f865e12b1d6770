/** Attempts run to their end, alone, with any pattern of API failures. */
module Runs {
  import opened Wrappers
  import opened Destinations
  import opened Attempts

  const NO_FAULTS: Faults := (n, p) => Done

  function NextOf(s: State, faults: Faults): State
    requires s.attempt.todo != [] && Phased(s.attempt)
    ensures Phased(NextOf(s, faults).attempt)
  {
    StepPhased(s, faults(|s.attempt.done|, s.attempt.phase));
    Step(s, faults(|s.attempt.done|, s.attempt.phase))
  }

  lemma {:induction false} RunKeeps(s: State, faults: Faults)
    requires Phased(s.attempt)
    ensures var a, z := s.attempt, Run(s, faults).attempt;
            z.key == a.key && z.done == a.done + a.todo && z.todo == [] && a.errors <= z.errors
    decreases |s.attempt.todo|, Rank(s.attempt.phase)
  {
    if s.attempt.todo == [] {
      assert s.attempt.done + [] == s.attempt.done;
    } else {
      StepMoves(s, faults(|s.attempt.done|, s.attempt.phase));
      RunKeeps(NextOf(s, faults), faults);
    }
  }

  lemma {:induction false} RunEnds(s: State, faults: Faults)
    requires Phased(s.attempt)
    ensures Phased(Run(s, faults).attempt) && Run(s, faults).attempt.todo == []
    decreases |s.attempt.todo|, Rank(s.attempt.phase)
  {
    if s.attempt.todo != [] {
      StepMoves(s, faults(|s.attempt.done|, s.attempt.phase));
      RunEnds(NextOf(s, faults), faults);
    }
  }

  /** Frame: whatever fails, a run touches only the key's object and namespace,
      and only at destinations of its works. */
  lemma {:induction false} RunFrame(s: State, faults: Faults)
    requires Phased(s.attempt)
    ensures forall d :: Confined(On(s.fleet, d), On(Run(s, faults).fleet, d), s.attempt.key)
    ensures forall d | !Targets(s.attempt.todo, d) :: On(Run(s, faults).fleet, d) == On(s.fleet, d)
    decreases |s.attempt.todo|, Rank(s.attempt.phase)
  {
    if s.attempt.todo != [] {
      var o := faults(|s.attempt.done|, s.attempt.phase);
      StepFrame(s, o);
      StepMoves(s, o);
      RunFrame(NextOf(s, faults), faults);
      FramesChain(s, NextOf(s, faults), Run(NextOf(s, faults), faults).fleet);
    }
  }

  lemma FramesChain(s: State, s': State, f: Fleet)
    requires s.attempt.todo != [] && s'.attempt.todo in {s.attempt.todo, s.attempt.todo[1..]}
    requires forall d :: Confined(On(s.fleet, d), On(s'.fleet, d), s.attempt.key)
    requires forall d :: Confined(On(s'.fleet, d), On(f, d), s.attempt.key)
    requires forall d | s.attempt.todo[0].dest != Some(d) :: On(s'.fleet, d) == On(s.fleet, d)
    requires forall d | !Targets(s'.attempt.todo, d) :: On(f, d) == On(s'.fleet, d)
    ensures forall d :: Confined(On(s.fleet, d), On(f, d), s.attempt.key)
    ensures forall d | !Targets(s.attempt.todo, d) :: On(f, d) == On(s.fleet, d)
  {
    forall d ensures Confined(On(s.fleet, d), On(f, d), s.attempt.key) {
      assert Confined(On(s.fleet, d), On(s'.fleet, d), s.attempt.key);
      assert Confined(On(s'.fleet, d), On(f, d), s.attempt.key);
    }
    forall d | !Targets(s.attempt.todo, d) ensures On(f, d) == On(s.fleet, d) {
      assert s.attempt.todo[0].dest != Some(d);
      assert !Targets(s'.attempt.todo, d);
    }
  }

  /** An error-free run has exactly the effect of its works. */
  lemma {:induction false} RunOnTrack(base: Fleet, s: State, faults: Faults)
    requires OnTrack(base, s)
    requires Run(s, faults).attempt.errors == []
    ensures OnTrack(base, Run(s, faults))
    decreases |s.attempt.todo|, Rank(s.attempt.phase)
  {
    if s.attempt.todo != [] {
      var o := faults(|s.attempt.done|, s.attempt.phase);
      StepMoves(s, o);
      RunKeeps(NextOf(s, faults), faults);
      StepOnTrack(base, s, o);
      RunOnTrack(base, NextOf(s, faults), faults);
    }
  }

  /** A run that only removes creates no namespace. */
  lemma {:induction false} RemovingCreatesNothing(s: State, faults: Faults)
    requires Phased(s.attempt)
    requires forall i | 0 <= i < |s.attempt.todo| :: s.attempt.todo[i].task.Remove?
    ensures forall d :: On(Run(s, faults).fleet, d).namespaces == On(s.fleet, d).namespaces
    decreases |s.attempt.todo|, Rank(s.attempt.phase)
  {
    if s.attempt.todo != [] {
      StepMoves(s, faults(|s.attempt.done|, s.attempt.phase));
      RemovingCreatesNothing(NextOf(s, faults), faults);
    }
  }

  // ---- Status mode ----

  /** Works of a pass on a present source whose matching rules all lack `spec`. */
  predicate StatusOnly(works: seq<Work>) {
    forall i | 0 <= i < |works| :: works[i].task.Unreadable? || (works[i].task.Write? && !works[i].task.full)
  }

  /** Every object of a namespace lies in a namespace that exists. */
  ghost predicate NamespacesFirst(f: Fleet) {
    forall d, k | k in On(f, d).objects :: HasNamespace(k, f, d)
  }

  /** The destinations hold the same objects and namespaces, values aside. */
  ghost predicate SameNames(f: Fleet, g: Fleet) {
    forall d :: On(f, d).objects.Keys == On(g, d).objects.Keys && On(f, d).namespaces == On(g, d).namespaces
  }

  /** Past the existence check, the object is there. */
  ghost predicate Confirmed(s: State)
    requires Phased(s.attempt)
  {
    s.attempt.phase in {Resolving, Checking} || s.attempt.key in On(s.fleet, Target(s.attempt.todo[0])).objects
  }

  lemma StatusStepCreatesNothing(s: State, o: Outcome)
    requires s.attempt.todo != [] && Phased(s.attempt) && StatusOnly(s.attempt.todo)
    requires NamespacesFirst(s.fleet) && Confirmed(s)
    ensures Phased(Step(s, o).attempt)
    ensures SameNames(s.fleet, Step(s, o).fleet) && Confirmed(Step(s, o))
    ensures StatusOnly(Step(s, o).attempt.todo)
  {
    StepPhased(s, o);
    assert s.attempt.phase.CreatingNamespace? ==> HasNamespace(s.attempt.key, s.fleet, Target(s.attempt.todo[0]));
  }

  /** In status mode nothing is created, for any pattern of failures. */
  lemma {:induction false} StatusRunCreatesNothing(s: State, faults: Faults)
    requires Phased(s.attempt) && StatusOnly(s.attempt.todo)
    requires NamespacesFirst(s.fleet) && Confirmed(s)
    ensures SameNames(s.fleet, Run(s, faults).fleet)
    decreases |s.attempt.todo|, Rank(s.attempt.phase)
  {
    if s.attempt.todo != [] {
      var o := faults(|s.attempt.done|, s.attempt.phase);
      StatusStepCreatesNothing(s, o);
      StepMoves(s, o);
      SameNamesKeepNamespaces(s.fleet, NextOf(s, faults).fleet);
      StatusRunCreatesNothing(NextOf(s, faults), faults);
    }
  }

  lemma SameNamesKeepNamespaces(f: Fleet, g: Fleet)
    requires NamespacesFirst(f) && SameNames(f, g)
    ensures NamespacesFirst(g)
  {
    forall d, k | k in On(g, d).objects ensures HasNamespace(k, g, d) {
      assert k in On(f, d).objects;
      assert HasNamespace(k, f, d);
    }
  }

  /** A status-mode work whose destination object is missing always ends in an error. */
  lemma {:induction false} MissingDestinationFails(s: State, faults: Faults, i: nat)
    requires Phased(s.attempt) && StatusOnly(s.attempt.todo)
    requires NamespacesFirst(s.fleet) && Confirmed(s)
    requires i < |s.attempt.todo|
    requires s.attempt.key !in On(s.fleet, Target(s.attempt.todo[i])).objects
    ensures Run(s, faults).attempt.errors != []
    decreases |s.attempt.todo|, Rank(s.attempt.phase)
  {
    var o := faults(|s.attempt.done|, s.attempt.phase);
    var s' := NextOf(s, faults);
    StatusStepCreatesNothing(s, o);
    StepMoves(s, o);
    SameNamesKeepNamespaces(s.fleet, s'.fleet);
    if s'.attempt.errors != [] {
      RunKeeps(s', faults);
    } else if s'.attempt.todo == s.attempt.todo {
      MissingDestinationFails(s', faults, i);
    } else {
      MissingDestinationFails(s', faults, i - 1);
    }
  }
}
