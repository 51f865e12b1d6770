/** The sync controller of one watcher over all its runs: every version of the
    source objects, the informer's view of them, the de-duplicating work queue, the
    attempts in flight (several keys at a time, one API call at a step), the
    destinations and the set of failed keys. An attempt reads the source itself, so
    its snapshot may be newer than what the informer has shown. The configuration
    is fixed during a run and nobody else writes the watcher's objects on the
    destinations. */
module Convergence {
  import opened Wrappers
  import opened Json
  import opened Rules
  import opened Destinations
  import opened Attempts
  import opened Jobs
  import opened Passes
  import opened Prescriptions

  /** A key that a worker holds: just taken, or with an attempt under way on a
      version of the source. `base` is the fleet when the attempt began. */
  datatype Flight = Taken | Running(attempt: Attempt, base: Fleet, version: nat)

  /** `history` holds every version of a source object, oldest first, deletions
      included; `seen` is the version the informer shows. For the record, `agreed`
      is the version of the latest successful attempt, and `gaps` are the keys with
      changes that the informer will never report and no attempt has read since. */
  datatype Controller = Controller(
    history: map<Request, seq<Source>>,
    seen: map<Request, nat>,
    delivered: set<Request>,
    queued: set<Request>,
    inflight: map<Request, Flight>,
    fleet: Fleet,
    failed: set<Request>,
    agreed: map<Request, nat>,
    gaps: set<Request>)

  datatype Event =
    | Create(key: Request, content: Fields)    // the source object is created or changed
    | Erase(key: Request)                      // the source object is deleted
    | Deliver(key: Request, version: nat)      // the informer shows a later version and enqueues the key
    | Gap(key: Request, version: nat)          // a new list shows nothing where nothing was: no event
    | Enqueue(key: Request)                    // resync of a key that the informer shows as present
    | Take(key: Request)                       // a worker takes the key from the queue
    | ReadFails(key: Request)                  // the source cannot be read
    | ListFails(key: Request)                  // the syncers cannot be listed
    | ReadSucceeds(key: Request, version: nat) // source and syncers are read; the attempt begins
    | Call(key: Request, outcome: Outcome)     // the next API call of the attempt
    | Finish(key: Request)                     // the attempt returns

  /** The fixed configuration of a run. */
  datatype Config = Config(watcher: Watcher, syncers: seq<KRMSyncer>)

  function Works(cfg: Config, k: Request, source: Source): seq<Work> {
    WorksFor(cfg.watcher, cfg.syncers, k, source)
  }

  /** Version 0 of every object is that it was never there. */
  function VersionsOf(s: Controller, k: Request): (versions: seq<Source>)
    ensures versions != []
  {
    if k in s.history && s.history[k] != [] then s.history[k] else [None]
  }

  function Current(s: Controller, k: Request): nat {
    |VersionsOf(s, k)| - 1
  }

  function SeenOf(s: Controller, k: Request): nat {
    if k in s.seen then s.seen[k] else 0
  }

  function VersionAt(s: Controller, k: Request, v: nat): Source {
    if v <= Current(s, k) then VersionsOf(s, k)[v] else None
  }

  /** The source as it is now. */
  function Now(s: Controller, k: Request): Source {
    VersionAt(s, k, Current(s, k))
  }

  predicate IsRunning(s: Controller, k: Request) {
    k in s.inflight && s.inflight[k].Running? && Phased(s.inflight[k].attempt)
  }

  predicate IsTaken(s: Controller, k: Request) {
    k in s.inflight && s.inflight[k].Taken?
  }

  /** The informer may move on to this version. */
  predicate IsNext(s: Controller, k: Request, v: nat) {
    SeenOf(s, k) < v <= Current(s, k)
  }

  function Queue(s: Controller, k: Request): Controller {
    s.(queued := s.queued + {k}, gaps := s.gaps - {k})
  }

  /** One step; an event that is not possible in a state leaves it as it is. */
  function Next(cfg: Config, s: Controller, e: Event): Controller {
    var k := e.key;
    match e
    case Create(_, content) => s.(history := s.history[k := VersionsOf(s, k) + [Some(content)]])
    case Erase(_) =>
      if Now(s, k).None? then s else s.(history := s.history[k := VersionsOf(s, k) + [None]])
    case Deliver(_, v) =>
      if IsNext(s, k, v) && (VersionAt(s, k, SeenOf(s, k)).Some? || VersionAt(s, k, v).Some?)
      then Queue(s, k).(seen := s.seen[k := v], delivered := s.delivered + {k})
      else s
    case Gap(_, v) =>
      if IsNext(s, k, v) && VersionAt(s, k, SeenOf(s, k)).None? && VersionAt(s, k, v).None?
      then s.(seen := s.seen[k := v], gaps := if k in s.delivered - s.queued then s.gaps + {k} else s.gaps)
      else s
    case Enqueue(_) => if k in s.delivered && VersionAt(s, k, SeenOf(s, k)).Some? then Queue(s, k) else s
    case Take(_) =>
      if k in s.queued && k !in s.inflight
      then s.(queued := s.queued - {k}, inflight := s.inflight[k := Taken])
      else s
    case ReadFails(_) =>
      if IsTaken(s, k) then Queue(s, k).(inflight := s.inflight - {k}, failed := s.failed + {k}) else s
    case ListFails(_) =>
      if IsTaken(s, k) then Queue(s, k).(inflight := s.inflight - {k}) else s
    case ReadSucceeds(_, v) =>
      if IsTaken(s, k) && SeenOf(s, k) <= v <= Current(s, k)
      then
        var attempt := Begin(KeyOf(cfg.watcher, k), Works(cfg, k, VersionAt(s, k, v)));
        s.(inflight := s.inflight[k := Running(attempt, s.fleet, v)], gaps := s.gaps - {k})
      else s
    case Call(_, o) =>
      if IsRunning(s, k) && s.inflight[k].attempt.todo != []
      then
        var next := Step(State(s.fleet, s.inflight[k].attempt), o);
        s.(fleet := next.fleet, inflight := s.inflight[k := s.inflight[k].(attempt := next.attempt)])
      else s
    case Finish(_) =>
      if !IsRunning(s, k) || s.inflight[k].attempt.todo != [] then s
      else if s.inflight[k].attempt.errors != []
      then Queue(s, k).(inflight := s.inflight - {k}, failed := s.failed + {k})
      else s.(inflight := s.inflight - {k}, failed := s.failed - {k}, agreed := s.agreed[k := s.inflight[k].version])
  }

  function Start(source: map<Request, Fields>, fleet: Fleet): Controller {
    Controller(map k | k in source :: [None, Some(source[k])], map[], {}, {}, map[], fleet, {}, map[], {})
  }

  function Exec(cfg: Config, s: Controller, events: seq<Event>): Controller {
    if events == [] then s else Next(cfg, Exec(cfg, s, events[..|events| - 1]), events[|events| - 1])
  }

  // ---- The invariant ----

  /** Starts with absence, and no two deletions in a row. */
  predicate IsHistory(versions: seq<Source>) {
    && versions != [] && versions[0].None?
    && forall v | 0 <= v < |versions| - 1 :: versions[v].Some? || versions[v + 1].Some?
  }

  /** An attempt works through the jobs of its key for the version it has read, and
      patches objects in namespaces that exist; that version is no older than the
      informer's, unless the key is queued again or has a gap; and while the attempt
      has met no error the destinations show exactly the works done. */
  ghost predicate FlightFits(cfg: Config, s: Controller, k: Request, f: Flight) {
    f.Running? ==>
      && Phased(f.attempt)
      && f.attempt.key == KeyOf(cfg.watcher, k)
      && f.version <= Current(s, k)
      && f.attempt.done + f.attempt.todo == Works(cfg, k, VersionAt(s, k, f.version))
      && (k in s.queued || k in s.gaps || SeenOf(s, k) <= f.version)
      && PatchesInNamespace(s.fleet, f.attempt)
      && (f.attempt.errors == [] ==> OnTrack(f.base, State(s.fleet, f.attempt)))
  }

  predicate PatchesInNamespace(f: Fleet, a: Attempt)
    requires Phased(a)
  {
    a.phase.Patching? ==> HasNamespace(a.key, f, Target(a.todo[0]))
  }

  ghost predicate Settled(s: Controller, k: Request) {
    k !in s.queued && k !in s.inflight
  }

  /** A key at rest agrees with the version of its latest successful attempt, which
      is no older than the informer's unless the key has a gap. */
  ghost predicate RestFits(cfg: Config, s: Controller, k: Request) {
    && k in s.agreed && s.agreed[k] <= Current(s, k)
    && (k in s.gaps || SeenOf(s, k) <= s.agreed[k])
    && Agrees(s.fleet, KeyOf(cfg.watcher, k), Works(cfg, k, VersionAt(s, k, s.agreed[k])))
  }

  ghost predicate Untouched(cfg: Config, start: Fleet, s: Controller, k: Request) {
    && VersionAt(s, k, SeenOf(s, k)).None?
    && forall d :: ObjectOn(s.fleet, d, KeyOf(cfg.watcher, k)) == ObjectOn(start, d, KeyOf(cfg.watcher, k))
  }

  /** The part that does not speak of destinations. */
  ghost predicate BookFits(s: Controller, k: Request) {
    && IsHistory(VersionsOf(s, k)) && SeenOf(s, k) <= Current(s, k)
    && (k in s.failed ==> k in s.queued || k in s.inflight)
    && (k in s.queued || k in s.inflight || k in s.gaps ==> k in s.delivered)
    && (k in s.delivered ==> k in s.history)
    && (k in s.gaps ==> k !in s.queued && VersionAt(s, k, SeenOf(s, k)).None?)
  }

  ghost predicate KeyFits(cfg: Config, start: Fleet, s: Controller, k: Request) {
    && BookFits(s, k)
    && (k in s.inflight ==> FlightFits(cfg, s, k, s.inflight[k]))
    && (k in s.delivered && Settled(s, k) ==> RestFits(cfg, s, k))
    && (k !in s.delivered ==> Untouched(cfg, start, s, k))
  }

  ghost predicate Inv(cfg: Config, start: Fleet, s: Controller) {
    forall k :: KeyFits(cfg, start, s, k)
  }

  /** Two states record the same for a key. */
  ghost predicate SameFor(s: Controller, s': Controller, k: Request) {
    && (k in s'.history <==> k in s.history) && VersionsOf(s', k) == VersionsOf(s, k) && SeenOf(s', k) == SeenOf(s, k)
    && (k in s'.delivered <==> k in s.delivered) && (k in s'.queued <==> k in s.queued)
    && (k in s'.gaps <==> k in s.gaps) && (k in s'.failed <==> k in s.failed)
    && Get(s'.inflight, k) == Get(s.inflight, k) && Get(s'.agreed, k) == Get(s.agreed, k)
  }

  lemma SameKeyFits(cfg: Config, start: Fleet, s: Controller, s': Controller, k: Request)
    requires KeyFits(cfg, start, s, k) && SameFor(s, s', k) && s'.fleet == s.fleet
    ensures KeyFits(cfg, start, s', k)
  {
    assert k in s'.inflight <==> k in s.inflight;
  }

  /** A step that changes nothing but the record of one key. */
  lemma OneKeyChanges(cfg: Config, start: Fleet, s: Controller, s': Controller, k: Request)
    requires Inv(cfg, start, s) && s'.fleet == s.fleet
    requires forall x | x != k :: SameFor(s, s', x)
    requires KeyFits(cfg, start, s', k)
    ensures Inv(cfg, start, s')
  {
    forall x ensures KeyFits(cfg, start, s', x) {
      if x != k {
        assert KeyFits(cfg, start, s, x);
        SameKeyFits(cfg, start, s, s', x);
      }
    }
  }

  /** Calls for one key leave the objects of other keys alone. */
  lemma OthersUntouched(cfg: Config, s: State, o: Outcome, k: Request, x: Request)
    requires s.attempt.todo != [] && Phased(s.attempt) && s.attempt.key == KeyOf(cfg.watcher, k) && x != k
    ensures forall d :: ObjectOn(Step(s, o).fleet, d, KeyOf(cfg.watcher, x)) == ObjectOn(s.fleet, d, KeyOf(cfg.watcher, x))
  {
    StepFrame(s, o);
    forall d ensures ObjectOn(Step(s, o).fleet, d, KeyOf(cfg.watcher, x)) == ObjectOn(s.fleet, d, KeyOf(cfg.watcher, x)) {
      assert Confined(On(s.fleet, d), On(Step(s, o).fleet, d), s.attempt.key);
    }
  }

  lemma AgreesKept(f: Fleet, g: Fleet, k: ObjectKey, works: seq<Work>)
    requires Agrees(f, k, works) && forall d :: ObjectOn(g, d, k) == ObjectOn(f, d, k)
    ensures Agrees(g, k, works)
  {
    forall d | Targets(works, d) ensures AgreesAt(ObjectOn(g, d, k), works, d) {
      assert AgreesAt(ObjectOn(f, d, k), works, d);
    }
  }

  lemma OnTrackKept(base: Fleet, f: Fleet, g: Fleet, a: Attempt)
    requires OnTrack(base, State(f, a))
    requires forall d :: ObjectOn(g, d, a.key) == ObjectOn(f, d, a.key)
    requires forall d :: On(f, d).namespaces <= On(g, d).namespaces
    ensures OnTrack(base, State(g, a))
  {
    forall i | 0 <= i < |a.done| ensures Completed(a.key, a.done[i], g) {
      assert Completed(a.key, a.done[i], f);
    }
    forall d ensures ObjectOn(g, d, a.key) == Expected(ObjectOn(base, d, a.key), a, d) {
      assert ObjectOn(f, d, a.key) == Expected(ObjectOn(base, d, a.key), a, d);
    }
  }

  /** An attempt that returns without error leaves its key agreeing. */
  lemma FinishedAgrees(cfg: Config, base: Fleet, s: State, k: Request, source: Source)
    requires OnTrack(base, s) && s.attempt.todo == []
    requires s.attempt.key == KeyOf(cfg.watcher, k) && s.attempt.done == Works(cfg, k, source)
    ensures Agrees(s.fleet, s.attempt.key, Works(cfg, k, source))
  {
    var works := Works(cfg, k, source);
    CompletedKinds(source, JobsOf(cfg.watcher, cfg.syncers, k.namespace), s.attempt.key, s.fleet);
    forall d | Targets(works, d) ensures AgreesAt(ObjectOn(s.fleet, d, s.attempt.key), works, d) {
      AppliedAgrees(ObjectOn(base, d, s.attempt.key), works, d);
      assert ObjectOn(s.fleet, d, s.attempt.key) == Expected(ObjectOn(base, d, s.attempt.key), s.attempt, d);
    }
  }

  // ---- Every step keeps it ----

  lemma CallKeepsInv(cfg: Config, start: Fleet, s: Controller, k: Request, o: Outcome)
    requires Inv(cfg, start, s) && IsRunning(s, k) && s.inflight[k].attempt.todo != []
    ensures Inv(cfg, start, Next(cfg, s, Call(k, o)))
  {
    var s' := Next(cfg, s, Call(k, o));
    assert KeyFits(cfg, start, s, k);
    CallKeepsFlight(cfg, s, k, o);
    forall x ensures KeyFits(cfg, start, s', x) {
      if x != k {
        assert KeyFits(cfg, start, s, x);
        CallKeepsOther(cfg, s, k, o, x);
        CallKeepsKey(cfg, start, s, s', x);
      }
    }
  }

  lemma CallKeepsKey(cfg: Config, start: Fleet, s: Controller, s': Controller, x: Request)
    requires KeyFits(cfg, start, s, x) && SameFor(s, s', x)
    requires forall d :: ObjectOn(s'.fleet, d, KeyOf(cfg.watcher, x)) == ObjectOn(s.fleet, d, KeyOf(cfg.watcher, x))
    requires x in s.inflight ==> FlightFits(cfg, s', x, s.inflight[x])
    ensures KeyFits(cfg, start, s', x)
  {
    assert x in s'.inflight <==> x in s.inflight;
    if x in s.delivered && Settled(s, x) {
      AgreesKept(s.fleet, s'.fleet, KeyOf(cfg.watcher, x), Works(cfg, x, VersionAt(s, x, s.agreed[x])));
    }
  }

  /** What a call leaves true of an attempt and the destinations. */
  lemma CallKeepsAttempt(base: Fleet, st: State, o: Outcome)
    requires st.attempt.todo != [] && Phased(st.attempt) && PatchesInNamespace(st.fleet, st.attempt)
    requires st.attempt.errors == [] ==> OnTrack(base, st)
    ensures var next := Step(st, o);
            && Phased(next.attempt) && PatchesInNamespace(next.fleet, next.attempt)
            && next.attempt.key == st.attempt.key
            && next.attempt.done + next.attempt.todo == st.attempt.done + st.attempt.todo
            && (next.attempt.errors == [] ==> OnTrack(base, next))
  {
    StepPhased(st, o);
    StepMoves(st, o);
    StepInNamespace(st, o);
    if Step(st, o).attempt.errors == [] {
      StepOnTrack(base, st, o);
    }
  }

  /** The attempt that makes the call. */
  lemma CallKeepsFlight(cfg: Config, s: Controller, k: Request, o: Outcome)
    requires IsRunning(s, k) && s.inflight[k].attempt.todo != [] && FlightFits(cfg, s, k, s.inflight[k])
    ensures FlightFits(cfg, Next(cfg, s, Call(k, o)), k, Next(cfg, s, Call(k, o)).inflight[k])
  {
    CallKeepsAttempt(s.inflight[k].base, State(s.fleet, s.inflight[k].attempt), o);
  }

  lemma StepInNamespace(s: State, o: Outcome)
    requires s.attempt.todo != [] && Phased(s.attempt) && PatchesInNamespace(s.fleet, s.attempt)
    ensures Phased(Step(s, o).attempt) && PatchesInNamespace(Step(s, o).fleet, Step(s, o).attempt)
  {
    StepPhased(s, o);
  }

  /** Another key: its objects stay, and its attempt stays on track. */
  lemma CallKeepsOther(cfg: Config, s: Controller, k: Request, o: Outcome, x: Request)
    requires IsRunning(s, k) && s.inflight[k].attempt.todo != [] && FlightFits(cfg, s, k, s.inflight[k]) && x != k
    ensures var f' := Next(cfg, s, Call(k, o)).fleet;
            && (forall d :: ObjectOn(f', d, KeyOf(cfg.watcher, x)) == ObjectOn(s.fleet, d, KeyOf(cfg.watcher, x)))
            && (x in s.inflight && FlightFits(cfg, s, x, s.inflight[x]) ==>
                  FlightFits(cfg, Next(cfg, s, Call(k, o)), x, s.inflight[x]))
  {
    var st := State(s.fleet, s.inflight[k].attempt);
    var s' := Next(cfg, s, Call(k, o));
    OthersUntouched(cfg, st, o, k, x);
    if x in s.inflight && FlightFits(cfg, s, x, s.inflight[x]) && s.inflight[x].Running? {
      StepFrame(st, o);
      forall d ensures On(s.fleet, d).namespaces <= On(s'.fleet, d).namespaces {
        assert Confined(On(s.fleet, d), On(s'.fleet, d), st.attempt.key);
      }
      if s.inflight[x].attempt.errors == [] {
        OnTrackKept(s.inflight[x].base, s.fleet, s'.fleet, s.inflight[x].attempt);
      }
    }
  }

  lemma FinishKeepsKey(cfg: Config, start: Fleet, s: Controller, k: Request)
    requires KeyFits(cfg, start, s, k) && IsRunning(s, k) && s.inflight[k].attempt.todo == []
    ensures KeyFits(cfg, start, Next(cfg, s, Finish(k)), k)
  {
    var f := s.inflight[k];
    assert f.attempt.done + [] == f.attempt.done;
    if f.attempt.errors == [] {
      FinishedAgrees(cfg, f.base, State(s.fleet, f.attempt), k, VersionAt(s, k, f.version));
    }
  }

  lemma FinishKeepsInv(cfg: Config, start: Fleet, s: Controller, k: Request)
    requires Inv(cfg, start, s) && IsRunning(s, k) && s.inflight[k].attempt.todo == []
    ensures Inv(cfg, start, Next(cfg, s, Finish(k)))
  {
    FinishKeepsKey(cfg, start, s, k);
    OneKeyChanges(cfg, start, s, Next(cfg, s, Finish(k)), k);
  }

  lemma BeginKeepsInv(cfg: Config, start: Fleet, s: Controller, k: Request, v: nat)
    requires Inv(cfg, start, s) && IsTaken(s, k) && SeenOf(s, k) <= v <= Current(s, k)
    ensures Inv(cfg, start, Next(cfg, s, ReadSucceeds(k, v)))
  {
    var works := Works(cfg, k, VersionAt(s, k, v));
    assert KeyFits(cfg, start, s, k);
    BeginOnTrack(s.fleet, KeyOf(cfg.watcher, k), works);
    assert [] + works == works;
    OneKeyChanges(cfg, start, s, Next(cfg, s, ReadSucceeds(k, v)), k);
  }

  /** A new version of the source: the earlier ones stay what they were. */
  lemma NewVersionKeepsInv(cfg: Config, start: Fleet, s: Controller, k: Request, content: Source)
    requires Inv(cfg, start, s) && (content.Some? || Now(s, k).Some?)
    ensures Inv(cfg, start, s.(history := s.history[k := VersionsOf(s, k) + [content]]))
  {
    var s' := s.(history := s.history[k := VersionsOf(s, k) + [content]]);
    assert KeyFits(cfg, start, s, k);
    assert VersionsOf(s', k) == VersionsOf(s, k) + [content];
    assert forall v: nat | v <= Current(s, k) :: VersionAt(s', k, v) == VersionAt(s, k, v);
    OneKeyChanges(cfg, start, s, s', k);
  }

  lemma DeliverKeepsInv(cfg: Config, start: Fleet, s: Controller, k: Request, v: nat)
    requires Inv(cfg, start, s)
    ensures Inv(cfg, start, Next(cfg, s, Deliver(k, v)))
  {
    assert KeyFits(cfg, start, s, k);
    OneKeyChanges(cfg, start, s, Next(cfg, s, Deliver(k, v)), k);
  }

  /** The informer passes over versions, or reports a key again. */
  lemma InformerKeepsInv(cfg: Config, start: Fleet, s: Controller, e: Event)
    requires Inv(cfg, start, s) && (e.Gap? || e.Enqueue?)
    ensures Inv(cfg, start, Next(cfg, s, e))
  {
    assert KeyFits(cfg, start, s, e.key);
    OneKeyChanges(cfg, start, s, Next(cfg, s, e), e.key);
  }

  /** A key is taken, or given back because a read failed. */
  lemma TakingKeepsInv(cfg: Config, start: Fleet, s: Controller, e: Event)
    requires Inv(cfg, start, s) && (e.Take? || e.ReadFails? || e.ListFails?)
    ensures Inv(cfg, start, Next(cfg, s, e))
  {
    assert KeyFits(cfg, start, s, e.key);
    OneKeyChanges(cfg, start, s, Next(cfg, s, e), e.key);
  }

  lemma NextKeepsInv(cfg: Config, start: Fleet, s: Controller, e: Event)
    requires Inv(cfg, start, s)
    ensures Inv(cfg, start, Next(cfg, s, e))
  {
    match e
    case Create(k, content) => NewVersionKeepsInv(cfg, start, s, k, Some(content));
    case Erase(k) =>
      if Now(s, k).Some? {
        NewVersionKeepsInv(cfg, start, s, k, None);
      }
    case Call(k, o) =>
      if IsRunning(s, k) && s.inflight[k].attempt.todo != [] {
        CallKeepsInv(cfg, start, s, k, o);
      }
    case Finish(k) =>
      if IsRunning(s, k) && s.inflight[k].attempt.todo == [] {
        FinishKeepsInv(cfg, start, s, k);
      }
    case ReadSucceeds(k, v) =>
      if IsTaken(s, k) && SeenOf(s, k) <= v <= Current(s, k) {
        BeginKeepsInv(cfg, start, s, k, v);
      }
    case Deliver(k, v) => DeliverKeepsInv(cfg, start, s, k, v);
    case Take(_) => TakingKeepsInv(cfg, start, s, e);
    case ReadFails(_) => TakingKeepsInv(cfg, start, s, e);
    case ListFails(_) => TakingKeepsInv(cfg, start, s, e);
    case _ => InformerKeepsInv(cfg, start, s, e);
  }

  lemma {:induction false} ExecKeepsInv(cfg: Config, start: Fleet, s: Controller, events: seq<Event>)
    requires Inv(cfg, start, s)
    ensures Inv(cfg, start, Exec(cfg, s, events))
    decreases |events|
  {
    if events != [] {
      ExecKeepsInv(cfg, start, s, events[..|events| - 1]);
      NextKeepsInv(cfg, start, Exec(cfg, s, events[..|events| - 1]), events[|events| - 1]);
    }
  }

  lemma StartInv(cfg: Config, source: map<Request, Fields>, fleet: Fleet)
    ensures Inv(cfg, fleet, Start(source, fleet))
  {
  }

  lemma RunInv(cfg: Config, source: map<Request, Fields>, fleet: Fleet, events: seq<Event>)
    ensures Inv(cfg, fleet, Exec(cfg, Start(source, fleet), events))
  {
    StartInv(cfg, source, fleet);
    ExecKeepsInv(cfg, fleet, Start(source, fleet), events);
  }

  // ---- The theorems ----

  function JobsFor(cfg: Config, k: Request): seq<Job> {
    JobsOf(cfg.watcher, cfg.syncers, k.namespace)
  }

  /** The informer shows the current version, and missed none that matters. */
  predicate CaughtUp(s: Controller, k: Request) {
    SeenOf(s, k) == Current(s, k) && k !in s.gaps
  }

  /** What convergence means for one key and destination. A key that is neither
      queued nor in flight is as the rules prescribe for one version of the source,
      that of its latest successful attempt, and this is no older than the one the
      informer shows unless the informer passed over a gap since; so once the
      informer has caught up, for the current source. A key that the informer never
      showed is as it was at the start. A failed key is queued or in flight. */
  ghost predicate Converged(cfg: Config, start: Fleet, s: Controller, k: Request, d: Dest) {
    var obj := ObjectOn(s.fleet, d, KeyOf(cfg.watcher, k));
    && (k in s.delivered && Settled(s, k) ==>
          && k in s.agreed && s.agreed[k] <= Current(s, k) && (k !in s.gaps ==> SeenOf(s, k) <= s.agreed[k])
          && Prescribed(obj, VersionAt(s, k, s.agreed[k]), JobsFor(cfg, k), d))
    && (k in s.delivered && Settled(s, k) && CaughtUp(s, k) ==> Prescribed(obj, Now(s, k), JobsFor(cfg, k), d))
    && (k !in s.delivered ==> obj == ObjectOn(start, d, KeyOf(cfg.watcher, k)))
    && (k !in s.delivered && CaughtUp(s, k) ==> Now(s, k).None?)
    && (k in s.failed ==> !Settled(s, k))
  }

  lemma RestIsPrescribed(cfg: Config, start: Fleet, s: Controller, k: Request, d: Dest)
    requires Inv(cfg, start, s) && k in s.delivered && Settled(s, k) && GoesTo(JobsFor(cfg, k), d)
    ensures k in s.agreed && s.agreed[k] <= Current(s, k) && (k !in s.gaps ==> SeenOf(s, k) <= s.agreed[k])
    ensures Prescribed(ObjectOn(s.fleet, d, KeyOf(cfg.watcher, k)), VersionAt(s, k, s.agreed[k]), JobsFor(cfg, k), d)
  {
    assert KeyFits(cfg, start, s, k);
    AgreesIsPrescribed(s.fleet, KeyOf(cfg.watcher, k), VersionAt(s, k, s.agreed[k]), JobsFor(cfg, k), d);
  }

  lemma StatesConverge(cfg: Config, start: Fleet, s: Controller, k: Request, d: Dest)
    requires Inv(cfg, start, s) && GoesTo(JobsFor(cfg, k), d)
    ensures Converged(cfg, start, s, k, d)
  {
    assert KeyFits(cfg, start, s, k);
    if k in s.delivered && Settled(s, k) {
      RestIsPrescribed(cfg, start, s, k, d);
    }
  }

  /** Convergence, over every run with any API failures, at all destinations of
      matching rules. */
  lemma RunsConverge(cfg: Config, source: map<Request, Fields>, fleet: Fleet, events: seq<Event>, k: Request, d: Dest)
    requires GoesTo(JobsFor(cfg, k), d)
    ensures Converged(cfg, fleet, Exec(cfg, Start(source, fleet), events), k, d)
  {
    RunInv(cfg, source, fleet, events);
    StatesConverge(cfg, fleet, Exec(cfg, Start(source, fleet), events), k, d);
  }

  lemma AbsenceDecides(obj: Option<DestObject>, agreed: Source, jobs: seq<Job>, d: Dest)
    requires Prescribed(obj, agreed, jobs, d)
    ensures Prescribed(obj, None, jobs, d) <==> agreed.None?
  {
  }

  lemma RestAgreesIff(cfg: Config, start: Fleet, s: Controller, k: Request, d: Dest)
    requires Inv(cfg, start, s) && GoesTo(JobsFor(cfg, k), d)
    requires k in s.delivered && Settled(s, k) && SeenOf(s, k) == Current(s, k)
    ensures k in s.agreed
    ensures Prescribed(ObjectOn(s.fleet, d, KeyOf(cfg.watcher, k)), Now(s, k), JobsFor(cfg, k), d)
            <==> k !in s.gaps || VersionAt(s, k, s.agreed[k]).None?
  {
    RestIsPrescribed(cfg, start, s, k, d);
    if k in s.gaps {
      assert BookFits(s, k) by {
        assert KeyFits(cfg, start, s, k);
      }
      AbsenceDecides(ObjectOn(s.fleet, d, KeyOf(cfg.watcher, k)), VersionAt(s, k, s.agreed[k]), JobsFor(cfg, k), d);
    }
  }

  /** The exact condition, over every run: a settled key whose current version the
      informer shows agrees with the current source if and only if no gap was passed
      over since it was last read, or the latest successful attempt found the
      object absent, as it is now. */
  lemma UpToDateAgreesIff(cfg: Config, source: map<Request, Fields>, fleet: Fleet, events: seq<Event>, k: Request, d: Dest)
    requires GoesTo(JobsFor(cfg, k), d)
    requires var s := Exec(cfg, Start(source, fleet), events);
             k in s.delivered && Settled(s, k) && SeenOf(s, k) == Current(s, k)
    ensures var s := Exec(cfg, Start(source, fleet), events);
            && k in s.agreed
            && (Prescribed(ObjectOn(s.fleet, d, KeyOf(cfg.watcher, k)), Now(s, k), JobsFor(cfg, k), d)
                <==> k !in s.gaps || VersionAt(s, k, s.agreed[k]).None?)
  {
    RunInv(cfg, source, fleet, events);
    RestAgreesIff(cfg, fleet, Exec(cfg, Start(source, fleet), events), k, d);
  }

  /** Nothing queued, in flight or unreported. */
  ghost predicate AtRest(s: Controller) {
    s.queued == {} && s.inflight == map[] && forall k :: CaughtUp(s, k)
  }

  /** At rest no key is failed, and every object that the informer ever showed, so
      every source object, is at all its destinations as the rules prescribe. */
  lemma QuiescenceIsAgreement(cfg: Config, source: map<Request, Fields>, fleet: Fleet, events: seq<Event>, k: Request, d: Dest)
    requires AtRest(Exec(cfg, Start(source, fleet), events)) && GoesTo(JobsFor(cfg, k), d)
    ensures var s := Exec(cfg, Start(source, fleet), events);
            && s.failed == {}
            && (Now(s, k).Some? ==> k in s.delivered)
            && (k in s.delivered ==> Prescribed(ObjectOn(s.fleet, d, KeyOf(cfg.watcher, k)), Now(s, k), JobsFor(cfg, k), d))
  {
    var s := Exec(cfg, Start(source, fleet), events);
    RunInv(cfg, source, fleet, events);
    RunsConverge(cfg, source, fleet, events, k, d);
    assert CaughtUp(s, k);
    forall x ensures x !in s.failed {
      assert KeyFits(cfg, fleet, s, x);
    }
  }
}
