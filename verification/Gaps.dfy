/** Gaps in the informer's reports: a source object that comes and goes between two
    lists, and what that can leave behind at the destinations. */
module Gaps {
  import opened Wrappers
  import opened Json
  import opened Destinations
  import opened Attempts
  import opened Jobs
  import opened Runs
  import opened Passes
  import opened Prescriptions
  import opened Convergence
  import opened Quiescence

  // ---- One step and the keys it does not concern ----

  lemma SourceSameFor(cfg: Config, s: Controller, e: Event, x: Request)
    requires x != e.key && (e.Create? || e.Erase? || e.Gap?)
    ensures SameFor(s, Next(cfg, s, e), x) && Next(cfg, s, e).fleet == s.fleet
  {
  }

  lemma FailureSameFor(cfg: Config, s: Controller, e: Event, x: Request)
    requires x != e.key && (e.ReadFails? || e.ListFails?)
    ensures SameFor(s, Next(cfg, s, e), x) && Next(cfg, s, e).fleet == s.fleet
  {
  }

  lemma CallSameFor(cfg: Config, s: Controller, k: Request, o: Outcome, x: Request)
    requires x != k
    ensures SameFor(s, Next(cfg, s, Call(k, o)), x)
  {
    if IsRunning(s, k) && s.inflight[k].attempt.todo != [] {
      AttemptSameFor(s, k, Step(State(s.fleet, s.inflight[k].attempt), o), x);
    }
  }

  lemma CallWider(cfg: Config, start: Fleet, s: Controller, k: Request, o: Outcome, x: Request)
    requires Inv(cfg, start, s) && x != k
    ensures Wider(s.fleet, Next(cfg, s, Call(k, o)).fleet, KeyOf(cfg.watcher, x))
  {
    if IsRunning(s, k) && s.inflight[k].attempt.todo != [] {
      var st, s' := State(s.fleet, s.inflight[k].attempt), Next(cfg, s, Call(k, o));
      assert KeyFits(cfg, start, s, k);
      CallKeepsOther(cfg, s, k, o, x);
      StepFrame(st, o);
      forall d ensures On(s.fleet, d).namespaces <= On(s'.fleet, d).namespaces {
        assert Confined(On(s.fleet, d), On(s'.fleet, d), st.attempt.key);
      }
    }
  }

  /** A step for one key leaves the record of another as it is, and its objects. */
  lemma NextElsewhere(cfg: Config, start: Fleet, s: Controller, e: Event, x: Request)
    requires Inv(cfg, start, s) && x != e.key
    ensures SameFor(s, Next(cfg, s, e), x) && Wider(s.fleet, Next(cfg, s, e).fleet, KeyOf(cfg.watcher, x))
  {
    if e.Call? {
      CallSameFor(cfg, s, e.key, e.outcome, x);
      CallWider(cfg, start, s, e.key, e.outcome, x);
    } else if IsSmooth(e) {
      NextSameFor(cfg, s, e, x);
      NextKeepsFleet(cfg, s, e);
    } else if e.ReadFails? || e.ListFails? {
      FailureSameFor(cfg, s, e, x);
    } else {
      SourceSameFor(cfg, s, e, x);
    }
  }

  // ---- A stuck gap stays ----

  lemma StuckElsewhere(cfg: Config, start: Fleet, s: Controller, e: Event, k: Request)
    requires Inv(cfg, start, s) && Stuck(s, k) && k != e.key
    ensures Stuck(Next(cfg, s, e), k)
  {
    var s' := Next(cfg, s, e);
    NextElsewhere(cfg, start, s, e, k);
    assert KeyFits(cfg, start, s, k);
    assert Get(s'.inflight, k) == Get(s.inflight, k);
    if k in s.inflight {
      SameOutcome(s.fleet, s'.fleet, s.inflight[k].attempt);
    }
  }

  lemma StuckCall(cfg: Config, s: Controller, k: Request)
    requires Stuck(s, k)
    ensures Stuck(Next(cfg, s, Call(k, Done)), k)
  {
    if k in s.inflight && s.inflight[k].attempt.todo != [] {
      StepPhased(State(s.fleet, s.inflight[k].attempt), Done);
    }
  }

  lemma StuckOwnStep(cfg: Config, start: Fleet, s: Controller, e: Event)
    requires Inv(cfg, start, s) && Stuck(s, e.key) && IsSmooth(e)
    ensures Stuck(Next(cfg, s, e), e.key)
  {
    assert KeyFits(cfg, start, s, e.key);
    if e.Call? {
      StuckCall(cfg, s, e.key);
    }
  }

  lemma {:induction false} StuckStays(cfg: Config, start: Fleet, s: Controller, events: seq<Event>, k: Request)
    requires Inv(cfg, start, s) && Stuck(s, k) && AllSmooth(events)
    ensures Stuck(Exec(cfg, s, events), k)
    decreases |events|
  {
    if events != [] {
      var n := |events| - 1;
      var before := Exec(cfg, s, events[..n]);
      StuckStays(cfg, start, s, events[..n], k);
      ExecKeepsInv(cfg, start, s, events[..n]);
      if events[n].key == k {
        StuckOwnStep(cfg, start, before, events[n]);
      } else {
        StuckElsewhere(cfg, start, before, events[n], k);
      }
    }
  }

  // ---- When rest can be reached ----

  /** A continuation of the run that ends at rest, without API failures and without
      further changes of the source. */
  ghost predicate EndsAtRest(cfg: Config, s: Controller, more: seq<Event>) {
    AllSmooth(more) && AtRest(Exec(cfg, s, more))
  }

  lemma StuckIsRestless(cfg: Config, start: Fleet, s: Controller, k: Request)
    requires Inv(cfg, start, s) && Stuck(s, k)
    ensures k in Restless(s)
  {
    assert KeyFits(cfg, start, s, k);
  }

  lemma StuckNeverRests(cfg: Config, start: Fleet, s: Controller, k: Request, more: seq<Event>)
    requires Inv(cfg, start, s) && Stuck(s, k)
    ensures !EndsAtRest(cfg, s, more)
  {
    if AllSmooth(more) {
      StuckStays(cfg, start, s, more, k);
      StuckIsNotRest(Exec(cfg, s, more), k);
    }
  }

  lemma StuckIsNotRest(s: Controller, k: Request)
    requires Stuck(s, k)
    ensures !AtRest(s)
  {
    assert !CaughtUp(s, k);
  }

  ghost predicate CanRest(cfg: Config, s: Controller) {
    exists more :: EndsAtRest(cfg, s, more)
  }

  lemma StuckCannotRest(cfg: Config, start: Fleet, s: Controller, k: Request)
    requires Inv(cfg, start, s) && Stuck(s, k)
    ensures !CanRest(cfg, s)
  {
    forall more ensures !EndsAtRest(cfg, s, more) {
      StuckNeverRests(cfg, start, s, k, more);
    }
  }

  ghost predicate AnyStuck(s: Controller) {
    exists k :: Stuck(s, k)
  }

  /** The exact condition for rest to be within reach, from every reachable state in
      which the current version of every key that is not at rest can be synced: some
      continuation without API failures and without further changes of the source
      ends at rest if and only if no gap is stuck. */
  lemma RestIsReachableIff(cfg: Config, source: map<Request, Fields>, fleet: Fleet, events: seq<Event>)
    requires var s := Exec(cfg, Start(source, fleet), events);
             forall k | k in Restless(s) :: CanSync(cfg, s, k)
    ensures var s := Exec(cfg, Start(source, fleet), events);
            CanRest(cfg, s) <==> !AnyStuck(s)
  {
    var s := Exec(cfg, Start(source, fleet), events);
    RunInv(cfg, source, fleet, events);
    if AnyStuck(s) {
      var k :| Stuck(s, k);
      StuckCannotRest(cfg, fleet, s, k);
    } else {
      var more := RestIsReachable(cfg, source, fleet, events);
      ExecAppend(cfg, Start(source, fleet), events, more);
      assert EndsAtRest(cfg, s, more);
    }
  }

  // ---- What a gap may hide ----

  /** Why agreement needs the condition on gaps. From any reachable state in which the
      informer shows an object that is there and nobody works on it, and another
      version of it can be synced, without any API failure: the object is deleted
      and the deletion delivered; before the worker reads the source it is created
      again, so it is synced; it is deleted once more, and the informer's next list
      shows nothing where nothing was. Then nothing is queued for the key, the
      informer is up to date and the key is not failed, but the object is still at
      its destinations. */
  lemma GapHidesDeletion(cfg: Config, start: Fleet, s: Controller, k: Request, content: Fields, d: Dest)
    returns (events: seq<Event>)
    requires Inv(cfg, start, s) && k !in s.inflight && SeenOf(s, k) == Current(s, k) && Now(s, k).Some?
    requires GoesTo(JobsFor(cfg, k), d)
    requires AllDoable(s.fleet, KeyOf(cfg.watcher, k), Works(cfg, k, Some(content)))
    ensures WithoutFailures(events)
    ensures Hidden(cfg, Exec(cfg, s, events), k, d)
  {
    var s4 := CreateUnseen(cfg, start, s, k, content);
    var sync := SyncUnseen(cfg, start, s4, k, d);
    events := HideEvents(cfg, s, s4, k, content, sync, d);
  }

  /** No API call fails. */
  predicate WithoutFailures(events: seq<Event>) {
    forall i | 0 <= i < |events| :: IsSmooth(events[i]) || events[i].Create? || events[i].Erase? || events[i].Gap?
  }

  lemma WithoutFailuresAppend(a: seq<Event>, b: seq<Event>)
    requires WithoutFailures(a) && WithoutFailures(b)
    ensures WithoutFailures(a + b)
  {
  }

  function Recreate(k: Request, content: Fields, deleted: nat): seq<Event> {
    [Erase(k), Deliver(k, deleted)] + [Take(k), Create(k, content)]
  }

  /** Deleted, delivered, taken, and created again before the source is read. */
  lemma CreateUnseen(cfg: Config, start: Fleet, s: Controller, k: Request, content: Fields) returns (s4: Controller)
    requires Inv(cfg, start, s) && k !in s.inflight && SeenOf(s, k) == Current(s, k) && Now(s, k).Some?
    requires AllDoable(s.fleet, KeyOf(cfg.watcher, k), Works(cfg, k, Some(content)))
    ensures s4 == Exec(cfg, s, Recreate(k, content, Current(s, k) + 1))
    ensures Inv(cfg, start, s4) && IsTaken(s4, k) && CanSync(cfg, s4, k) && k !in s4.queued && k in s4.delivered
    ensures Now(s4, k) == Some(content) && SeenOf(s4, k) == Current(s4, k) - 1 && VersionAt(s4, k, SeenOf(s4, k)).None?
  {
    var s2 := DeleteSeen(cfg, start, s, k);
    s4 := Next(cfg, Next(cfg, s2, Take(k)), Create(k, content));
    NextKeepsInv(cfg, start, s2, Take(k));
    NextKeepsInv(cfg, start, Next(cfg, s2, Take(k)), Create(k, content));
    assert VersionsOf(s4, k) == VersionsOf(s2, k) + [Some(content)];
    ExecTwo(cfg, s2, Take(k), Create(k, content));
    ExecAppend(cfg, s, [Erase(k), Deliver(k, Current(s, k) + 1)], [Take(k), Create(k, content)]);
  }

  lemma DeleteSeen(cfg: Config, start: Fleet, s: Controller, k: Request) returns (s2: Controller)
    requires Inv(cfg, start, s) && k !in s.inflight && SeenOf(s, k) == Current(s, k) && Now(s, k).Some?
    ensures s2 == Exec(cfg, s, [Erase(k), Deliver(k, Current(s, k) + 1)])
    ensures Inv(cfg, start, s2) && k in s2.queued && k !in s2.inflight && k in s2.delivered && s2.fleet == s.fleet
    ensures SeenOf(s2, k) == Current(s2, k) && Now(s2, k).None?
  {
    var s1 := Next(cfg, s, Erase(k));
    s2 := Next(cfg, s1, Deliver(k, Current(s, k) + 1));
    NextKeepsInv(cfg, start, s, Erase(k));
    NextKeepsInv(cfg, start, s1, Deliver(k, Current(s, k) + 1));
    assert VersionsOf(s1, k) == VersionsOf(s, k) + [None];
    ExecTwo(cfg, s, Erase(k), Deliver(k, Current(s, k) + 1));
  }

  lemma ExecTwo(cfg: Config, s: Controller, a: Event, b: Event)
    ensures Exec(cfg, s, [a, b]) == Next(cfg, Next(cfg, s, a), b)
  {
    assert [a, b] == [a] + [b];
    ExecFirst(cfg, s, a, [b]);
    ExecOne(cfg, Next(cfg, s, a), b);
  }

  lemma HideEvents(cfg: Config, s: Controller, s4: Controller, k: Request, content: Fields, sync: seq<Event>, d: Dest)
    returns (events: seq<Event>)
    requires s4 == Exec(cfg, s, Recreate(k, content, Current(s, k) + 1))
    requires AllSmooth(sync) && Ahead(cfg, Exec(cfg, s4, sync), k, d)
    ensures WithoutFailures(events)
    ensures Hidden(cfg, Exec(cfg, s, events), k, d)
  {
    var first := Recreate(k, content, Current(s, k) + 1);
    var s5 := Exec(cfg, s4, sync);
    var last := [Erase(k), Gap(k, Current(s5, k) + 1)];
    EraseUnseen(cfg, s5, k, d);
    ExecThree(cfg, s, first, sync, last);
    NoFailuresAround(k, content, sync, Current(s, k) + 1, Current(s5, k) + 1);
    events := first + sync + last;
  }

  lemma NoFailuresAround(k: Request, content: Fields, sync: seq<Event>, deleted: nat, passed: nat)
    requires AllSmooth(sync)
    ensures WithoutFailures(Recreate(k, content, deleted) + sync + [Erase(k), Gap(k, passed)])
  {
    assert WithoutFailures(sync);
    WithoutFailuresAppend(Recreate(k, content, deleted), sync);
    WithoutFailuresAppend(Recreate(k, content, deleted) + sync, [Erase(k), Gap(k, passed)]);
  }

  lemma ExecThree(cfg: Config, s: Controller, a: seq<Event>, b: seq<Event>, c: seq<Event>)
    ensures Exec(cfg, s, a + b + c) == Exec(cfg, Exec(cfg, Exec(cfg, s, a), b), c)
  {
    ExecAppend(cfg, s, a, b);
    ExecAppend(cfg, s, a + b, c);
  }

  /** The object is there, ahead of what the informer shows. */
  ghost predicate Ahead(cfg: Config, s: Controller, k: Request, d: Dest) {
    && Settled(s, k) && k in s.delivered && k !in s.failed && Now(s, k).Some?
    && SeenOf(s, k) < Current(s, k) && VersionAt(s, k, SeenOf(s, k)).None?
    && ObjectOn(s.fleet, d, KeyOf(cfg.watcher, k)).Some?
  }

  lemma SyncUnseen(cfg: Config, start: Fleet, s: Controller, k: Request, d: Dest) returns (sync: seq<Event>)
    requires Inv(cfg, start, s) && IsTaken(s, k) && CanSync(cfg, s, k) && k !in s.queued && k in s.delivered
    requires Now(s, k).Some? && SeenOf(s, k) == Current(s, k) - 1 && VersionAt(s, k, SeenOf(s, k)).None?
    requires GoesTo(JobsFor(cfg, k), d)
    ensures AllSmooth(sync) && Ahead(cfg, Exec(cfg, s, sync), k, d)
  {
    sync := SyncTaken(cfg, start, s, k);
    SyncedIsThere(cfg, start, s, Exec(cfg, s, sync), k, d);
    SyncedIsAhead(cfg, s, Exec(cfg, s, sync), k, d);
  }

  lemma SyncedIsThere(cfg: Config, start: Fleet, s: Controller, z: Controller, k: Request, d: Dest)
    requires Inv(cfg, start, z) && Synced(cfg, s, z, k) && k !in s.queued && k in s.delivered && Now(s, k).Some?
    requires GoesTo(JobsFor(cfg, k), d)
    ensures ObjectOn(z.fleet, d, KeyOf(cfg.watcher, k)).Some?
  {
    RestIsPrescribed(cfg, start, z, k, d);
  }

  lemma SyncedIsAhead(cfg: Config, s: Controller, z: Controller, k: Request, d: Dest)
    requires Synced(cfg, s, z, k) && k !in s.queued && k in s.delivered && Now(s, k).Some?
    requires SeenOf(s, k) < Current(s, k) && VersionAt(s, k, SeenOf(s, k)).None?
    requires ObjectOn(z.fleet, d, KeyOf(cfg.watcher, k)).Some?
    ensures Ahead(cfg, z, k, d)
  {
  }

  /** It is deleted again and the informer's list passes over both. */
  lemma EraseUnseen(cfg: Config, s: Controller, k: Request, d: Dest)
    requires Ahead(cfg, s, k, d)
    ensures Hidden(cfg, Exec(cfg, s, [Erase(k), Gap(k, Current(s, k) + 1)]), k, d)
  {
    ExecTwo(cfg, s, Erase(k), Gap(k, Current(s, k) + 1));
    var s5 := Next(cfg, s, Erase(k));
    assert VersionsOf(s5, k) == VersionsOf(s, k) + [None];
  }

  /** At rest, by all appearances, with the object of a deleted source in place. */
  ghost predicate Hidden(cfg: Config, s: Controller, k: Request, d: Dest) {
    && Settled(s, k) && SeenOf(s, k) == Current(s, k) && k !in s.failed && k in s.gaps
    && Now(s, k).None? && ObjectOn(s.fleet, d, KeyOf(cfg.watcher, k)).Some?
  }

  // ---- ... and until when ----

  lemma HiddenOwnStep(cfg: Config, start: Fleet, s: Controller, e: Event, d: Dest)
    requires Inv(cfg, start, s) && Hidden(cfg, s, e.key, d) && !e.Create?
    ensures Hidden(cfg, Next(cfg, s, e), e.key, d)
  {
    assert KeyFits(cfg, start, s, e.key);
  }

  lemma HiddenElsewhere(cfg: Config, start: Fleet, s: Controller, e: Event, k: Request, d: Dest)
    requires Inv(cfg, start, s) && Hidden(cfg, s, k, d) && k != e.key
    ensures Hidden(cfg, Next(cfg, s, e), k, d)
  {
    var s' := Next(cfg, s, e);
    NextElsewhere(cfg, start, s, e, k);
    assert Get(s'.inflight, k) == Get(s.inflight, k);
    assert ObjectOn(s'.fleet, d, KeyOf(cfg.watcher, k)) == ObjectOn(s.fleet, d, KeyOf(cfg.watcher, k));
  }

  /** The object stays for as long as the source object is not created again,
      whatever else happens: no resync, retry or failure brings the key back. */
  lemma {:induction false} HiddenUntilCreated(cfg: Config, start: Fleet, s: Controller, events: seq<Event>, k: Request, d: Dest)
    requires Inv(cfg, start, s) && Hidden(cfg, s, k, d)
    requires forall i | 0 <= i < |events| :: !(events[i].Create? && events[i].key == k)
    ensures Hidden(cfg, Exec(cfg, s, events), k, d)
    decreases |events|
  {
    if events != [] {
      var n := |events| - 1;
      var before := Exec(cfg, s, events[..n]);
      HiddenUntilCreated(cfg, start, s, events[..n], k, d);
      ExecKeepsInv(cfg, start, s, events[..n]);
      if events[n].key == k {
        HiddenOwnStep(cfg, start, before, events[n], d);
      } else {
        HiddenElsewhere(cfg, start, before, events[n], k, d);
      }
    }
  }
}
