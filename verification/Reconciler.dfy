/** DynamicResourceReconciler: the sync step for one request, as loops over
    syncers and rules that call the destination clusters. */
module Reconciler {
  import Remotes
  import opened Wrappers
  import opened Json
  import opened Gvks
  import opened Rules
  import opened FilterFields
  import opened Bodies
  import opened Destinations
  import opened Attempts
  import opened Jobs
  import opened Passes
  import opened Prescriptions
  import opened FailureTracking

  /** What reading the source object gives. */
  datatype Read = Present(content: Fields) | Absent | ReadFailed

  datatype Outcomes = Synced | SourceUnreadable | ListFailed | SyncFailed(errors: seq<SyncError>)

  function SourceOf(read: Read): Source {
    match read case Present(x) => Some(x) case _ => None
  }

  /** At every destination of these jobs the object is gone when the source was absent,
      and as the rules prescribe when it was present. */
  ghost predicate LeftAsRead(fleet: Fleet, key: ObjectKey, jobs: seq<Job>, read: Read) {
    forall d | GoesTo(jobs, d) ::
      && (read.Absent? ==> ObjectOn(fleet, d, key).None?)
      && (read.Present? ==> Prescribed(ObjectOn(fleet, d, key), Some(read.content), jobs, d))
  }

  /** The API server answers with the object that was asked for, and with an
      apiVersion that can be parsed. */
  predicate IsAnswerFor(read: Read, k: ObjectKey) {
    read.Present? ==>
      && ParseGroupVersion(StringAt(read.content, ["apiVersion"])).Some?
      && GvkOf(read.content) == k.gvk && NamespaceOf(read.content) == k.namespace && NameOf(read.content) == k.name
  }

  /** Where an attempt stands after a work, given the error it met. */
  function After(a: Attempt, e: Option<SyncError>): Attempt
    requires a.todo != []
  {
    match e case Some(x) => WithError(a, x) case None => ToNext(a)
  }

  class DynamicResourceReconciler {
    const watcher: Watcher
    const clients: Clients
    const failures: FailureTracker?<Request>

    constructor (watcher: Watcher, clients: Clients, failures: FailureTracker?<Request>)
      ensures this.watcher == watcher && this.clients == clients && this.failures == failures
    {
      this.watcher, this.clients, this.failures := watcher, clients, failures;
    }

    /** Makes sure that the namespace of the object exists. */
    method EnsureNamespace(d: Dest, key: ObjectKey, n: nat, faults: Faults, ghost a: Attempt)
      returns (e: Option<SyncError>)
      requires Phased(a) && a.phase.GettingNamespace? && |a.done| == n
      requires a.todo[0].dest == Some(d) && a.key == key
      modifies clients
      ensures Run(State(old(clients.fleet), a), faults)
              == Run(State(clients.fleet, if e.Some? then WithError(a, e.value) else a.(phase := Patching)), faults)
    {
      e := None;
      var got := GetNamespace(On(clients.fleet, d), key.namespace, faults(n, GettingNamespace));
      RunStep(State(clients.fleet, a), faults);
      if got.NotFound? {
        ghost var at := a.(phase := CreatingNamespace);
        RunStep(State(clients.fleet, at), faults);
        var created := clients.Create(d, key.namespace, faults(n, CreatingNamespace));
        if created.Failed? {
          e := Some(NamespaceError);
        }
      } else if !got.Ok? {
        e := Some(NamespaceError);
      }
    }

    /** applyToDestination: namespace first, then the object, then its status. */
    method ApplyToDestination(d: Dest, obj: Fields, n: nat, faults: Faults, ghost a: Attempt)
      returns (e: Option<SyncError>)
      requires Phased(a) && a.todo != [] && |a.done| == n
      requires a == ToApply(a) && a.todo[0].dest == Some(d) && a.todo[0].task.Write?
      requires a.todo[0].task.main == MainBody(obj)
      requires a.todo[0].task.status == if "status" in obj then Some(StatusBody(obj)) else None
      requires a.key == ObjectKey(GvkOf(obj), NamespaceOf(obj), NameOf(obj))
      modifies clients
      ensures Run(State(old(clients.fleet), a), faults) == Run(State(clients.fleet, After(a, e)), faults)
    {
      var key := ObjectKey(GvkOf(obj), NamespaceOf(obj), NameOf(obj));
      e := None;
      if key.namespace != "" {
        e := EnsureNamespace(d, key, n, faults, a);
        if e.Some? {
          return;
        }
      }
      ghost var at := a.(phase := Patching);
      RunStep(State(clients.fleet, at), faults);
      var patched := clients.Patch(d, key, MainBody(obj), faults(n, Patching));
      if !patched.Ok? {
        return Some(ApplyError);
      }
      if "status" in obj {
        at := at.(phase := PatchingStatus);
        RunStep(State(clients.fleet, at), faults);
        var status := clients.StatusPatch(d, key, StatusBody(obj), faults(n, PatchingStatus));
        if !status.Ok? {
          return Some(StatusError);
        }
      }
    }

    /** The client of the destination, from the cache of remote clients in push mode. */
    method FindClient(s: KRMSyncer, n: nat, faults: Faults, ghost a: Attempt) returns (d: Option<Dest>)
      requires Phased(a) && a.phase.Resolving? && a.todo != [] && |a.done| == n
      requires a.todo[0].dest == DestOf(watcher, s)
      ensures d.Some? ==> d == a.todo[0].dest
      ensures Step(State(clients.fleet, a), faults(n, Resolving))
              == State(clients.fleet, if d.Some? then Dispatch(a) else WithError(a, ClientError))
    {
      d := Some(Local);
      if watcher.mode == PUSH {
        var name := Remotes.ClusterName(s.remote);
        d := if name.None? || faults(n, Resolving) != Done then None else Some(Remote(name.value));
      }
    }

    method DeleteAt(d: Dest, key: ObjectKey, n: nat, faults: Faults, ghost a: Attempt) returns (e: Option<SyncError>)
      requires Phased(a) && a.phase.Deleting? && |a.done| == n && a.key == key && a.todo[0].dest == Some(d)
      modifies clients
      ensures Step(State(old(clients.fleet), a), faults(n, Deleting)) == State(clients.fleet, After(a, e))
      ensures e in {None, Some(DeleteError)}
    {
      var deleted := clients.Remove(d, key, faults(n, Deleting));
      e := if deleted.Failed? then Some(DeleteError) else None;
    }

    /** destinationExists, as an error when the answer is not yes. */
    method CheckExists(d: Dest, key: ObjectKey, n: nat, faults: Faults, ghost a: Attempt) returns (e: Option<SyncError>)
      requires Phased(a) && a.phase.Checking? && |a.done| == n && a.key == key && a.todo[0].dest == Some(d)
      ensures Step(State(clients.fleet, a), faults(n, Checking))
              == State(clients.fleet, if e.Some? then WithError(a, e.value) else ToApply(a))
    {
      var found := GetObject(On(clients.fleet, d), key, faults(n, Checking));
      e := if found.NotFound? then Some(MissingDestination) else if found.Ok? then None else Some(CheckError);
    }

    /** One matching rule: find the client, then delete or filter and apply. */
    method SyncRule(s: KRMSyncer, rule: ResourceRule, key: ObjectKey, source: Source, n: nat, faults: Faults,
                    ghost a: Attempt)
      returns (e: Option<SyncError>)
      requires Phased(a) && a.phase.Resolving? && a.todo != [] && |a.done| == n && a.key == key
      requires a.todo[0].dest == DestOf(watcher, s) && a.todo[0].task == TaskOf(source, rule)
      requires source.Some? ==> IsAnswerFor(Present(source.value), key)
      modifies clients
      ensures Run(State(old(clients.fleet), a), faults) == Run(State(clients.fleet, After(a, e)), faults)
    {
      RunStep(State(clients.fleet, a), faults);
      var d := FindClient(s, n, faults, a);
      if d.None? {
        return Some(ClientError);
      }
      if source.None? {
        RunStep(State(clients.fleet, Dispatch(a)), faults);
        e := DeleteAt(d.value, key, n, faults, Dispatch(a));
        return;
      }
      e := SyncPresent(d.value, source.value, rule, key, n, faults, a);
    }

    /** The object is there: filter it and apply it. */
    method SyncPresent(d: Dest, src: Fields, rule: ResourceRule, key: ObjectKey, n: nat, faults: Faults, ghost a: Attempt)
      returns (e: Option<SyncError>)
      requires Phased(a) && a.phase.Resolving? && a.todo != [] && |a.done| == n && a.key == key
      requires a.todo[0].dest == Some(d) && a.todo[0].task == TaskOf(Some(src), rule)
      requires IsAnswerFor(Present(src), key)
      modifies clients
      ensures Run(State(old(clients.fleet), Dispatch(a)), faults) == Run(State(clients.fleet, After(a, e)), faults)
    {
      var filtered := FilterFields.FilterFields(src, rule.syncFields);
      if filtered.Failure? {
        return Some(FilterFailed);
      }
      FilteredAnswers(src, rule.syncFields, key);
      e := SyncFiltered(d, Prepared(filtered.value), rule.syncFields, key, n, faults, Dispatch(a));
    }

    method SyncFiltered(d: Dest, obj: Fields, fields: seq<string>, key: ObjectKey, n: nat, faults: Faults, ghost a: Attempt)
      returns (e: Option<SyncError>)
      requires Phased(a) && a.todo != [] && |a.done| == n && a.key == key
      requires a == if IsFullSync(fields) then ToApply(a) else a.(phase := Checking)
      requires a.todo[0].dest == Some(d) && a.todo[0].task == TaskWriting(fields, obj)
      requires key == ObjectKey(GvkOf(obj), NamespaceOf(obj), NameOf(obj))
      modifies clients
      ensures Run(State(old(clients.fleet), a), faults) == Run(State(clients.fleet, After(a, e)), faults)
    {
      if !IsFullSync(fields) {
        RunStep(State(clients.fleet, a), faults);
        e := CheckExists(d, key, n, faults, a);
        if e.Some? {
          return;
        }
      }
      e := ApplyToDestination(d, obj, n, faults, ToApply(a));
    }

    /** Reconcile: reads, walks every syncer and rule, applies, accounts. If it reports no
        error, the object is gone from every destination of a matching rule when the
        source is, and otherwise is there as the rules prescribe for the source. */
    method Reconcile(req: Request, read: Read, listing: Option<seq<KRMSyncer>>, faults: Faults) returns (r: Outcomes)
      requires IsAnswerFor(read, KeyOf(watcher, req))
      modifies clients, FailureTracker<Request>.Touched(failures)
      ensures read.ReadFailed? ==> r == SourceUnreadable && clients.fleet == old(clients.fleet)
      ensures !read.ReadFailed? && listing.None? ==> r == ListFailed && clients.fleet == old(clients.fleet)
      ensures !read.ReadFailed? && listing.Some? ==>
                var z := Pass(old(clients.fleet), watcher, listing.value, req, SourceOf(read), faults);
                && clients.fleet == z.fleet
                && r == (if z.attempt.errors == [] then Synced else SyncFailed(z.attempt.errors))
      ensures r.Synced? ==>
                && !read.ReadFailed? && listing.Some?
                && LeftAsRead(clients.fleet, ObjectKey(watcher.gvk, req.namespace, req.name),
                              JobsOf(watcher, listing.value, req.namespace), read)
      ensures failures != null ==>
                && failures.failed == (if r.ListFailed? then old(failures.failed)
                                       else Marked(old(failures.failed), req, !r.Synced?))
                && failures.gauge.value - old(failures.gauge.value) == |failures.failed| - |old(failures.failed)|
    {
      if read.ReadFailed? {
        FailureTracker<Request>.MarkFailed(failures, req);
        return SourceUnreadable;
      }
      if listing.None? {
        return ListFailed;
      }
      var errors := SyncAll(req, SourceOf(read), listing.value, faults);
      if errors != [] {
        FailureTracker<Request>.MarkFailed(failures, req);
        return SyncFailed(errors);
      }
      FailureTracker<Request>.MarkSucceeded(failures, req);
      r := Synced;
      SyncedMeans(old(clients.fleet), watcher, listing.value, req, read, faults);
    }

    method SyncAll(req: Request, source: Source, syncers: seq<KRMSyncer>, faults: Faults) returns (errors: seq<SyncError>)
      requires source.Some? ==> IsAnswerFor(Present(source.value), KeyOf(watcher, req))
      modifies clients
      ensures var z := Pass(old(clients.fleet), watcher, syncers, req, source, faults);
              clients.fleet == z.fleet && errors == z.attempt.errors
    {
      var n := 0;
      ghost var a := Begin(KeyOf(watcher, req), WorksFor(watcher, syncers, req, source));
      errors := [];
      for i := 0 to |syncers|
        invariant At(a, req, n, errors)
        invariant a.todo == WorksFor(watcher, syncers[i..], req, source)
        invariant Run(State(clients.fleet, a), faults)
                  == Pass(old(clients.fleet), watcher, syncers, req, source, faults)
      {
        var s := syncers[i];
        ghost var later := WorksFor(watcher, syncers[i + 1..], req, source);
        FirstSyncer(watcher, syncers[i..], req, source);
        assert syncers[i..][1..] == syncers[i + 1..];
        if s.suspend || EffectiveMode(s) != watcher.mode
           || (watcher.mode == PULL && Remotes.Key(s.remote) != Some(watcher.connection))
        {
          continue;
        }
        n, errors, a := SyncRules(s, req, source, n, errors, faults, a, later);
      }
    }

    ghost predicate At(a: Attempt, req: Request, n: nat, errors: seq<SyncError>) {
      a.phase.Resolving? && a.key == KeyOf(watcher, req) && |a.done| == n && a.errors == errors
    }

    /** All rules of one accepted syncer. */
    method SyncRules(s: KRMSyncer, req: Request, source: Source, n0: nat, errors0: seq<SyncError>, faults: Faults,
                     ghost a0: Attempt, ghost later: seq<Work>)
      returns (n: nat, errors: seq<SyncError>, ghost a: Attempt)
      requires source.Some? ==> IsAnswerFor(Present(source.value), KeyOf(watcher, req))
      requires At(a0, req, n0, errors0)
      requires a0.todo == WorksOf(source, RuleJobs(watcher, s, s.rules, req.namespace)) + later
      modifies clients
      ensures At(a, req, n, errors) && a.todo == later
      ensures Run(State(old(clients.fleet), a0), faults) == Run(State(clients.fleet, a), faults)
    {
      n, errors, a := n0, errors0, a0;
      assert s.rules[0..] == s.rules;
      for j := 0 to |s.rules|
        invariant At(a, req, n, errors)
        invariant a.todo == WorksOf(source, RuleJobs(watcher, s, s.rules[j..], req.namespace)) + later
        invariant Run(State(old(clients.fleet), a0), faults) == Run(State(clients.fleet, a), faults)
      {
        var rule := s.rules[j];
        RuleTurn(watcher, s, j, req, source, a.todo, later);
        if !MatchesGvk(rule, watcher.gvk) || (rule.namespaces != [] && req.namespace !in rule.namespaces) {
          continue;
        }
        var e := SyncRule(s, rule, KeyOf(watcher, req), source, n, faults, a);
        a := After(a, e);
        n := n + 1;
        if e.Some? {
          errors := errors + [e.value];
        }
      }
      assert WorksOf(source, []) + later == later;
    }
  }

  /** What a sync without errors leaves at the destinations. */
  lemma SyncedMeans(fleet: Fleet, w: Watcher, syncers: seq<KRMSyncer>, req: Request, read: Read, faults: Faults)
    requires !read.ReadFailed? && Pass(fleet, w, syncers, req, SourceOf(read), faults).attempt.errors == []
    ensures LeftAsRead(Pass(fleet, w, syncers, req, SourceOf(read), faults).fleet, ObjectKey(w.gvk, req.namespace, req.name),
                       JobsOf(w, syncers, req.namespace), read)
  {
    forall d | GoesTo(JobsOf(w, syncers, req.namespace), d)
      ensures Prescribed(ObjectOn(Pass(fleet, w, syncers, req, SourceOf(read), faults).fleet, d, KeyOf(w, req)),
                         SourceOf(read), JobsOf(w, syncers, req.namespace), d)
    {
      PassPrescribes(fleet, w, syncers, req, SourceOf(read), faults, d);
    }
  }

  /** The object to apply is named as the request asks. */
  lemma FilteredAnswers(src: Fields, fields: seq<string>, key: ObjectKey)
    requires Filtered(src, fields).Success? && IsAnswerFor(Present(src), key)
    ensures var obj := Prepared(Filtered(src, fields).value);
            key == ObjectKey(GvkOf(obj), NamespaceOf(obj), NameOf(obj))
  {
    AnyFieldsKeepIdentity(src, fields);
    PreparedKeepsIdentity(Filtered(src, fields).value);
  }

  /** The works of a list of syncers, first syncer first. */
  lemma FirstSyncer(w: Watcher, syncers: seq<KRMSyncer>, req: Request, source: Source)
    requires syncers != []
    ensures WorksFor(w, syncers, req, source) ==
            (if AcceptsSyncer(w, syncers[0])
             then WorksOf(source, RuleJobs(w, syncers[0], syncers[0].rules, req.namespace)) else [])
            + WorksFor(w, syncers[1..], req, source)
  {
    var own := if AcceptsSyncer(w, syncers[0]) then RuleJobs(w, syncers[0], syncers[0].rules, req.namespace) else [];
    MapAppend(Worker(source), own, JobsOf(w, syncers[1..], req.namespace));
  }

  lemma FirstRule(w: Watcher, s: KRMSyncer, rules: seq<ResourceRule>, req: Request, source: Source)
    requires rules != []
    ensures var works := WorksOf(source, RuleJobs(w, s, rules, req.namespace));
            var rest := WorksOf(source, RuleJobs(w, s, rules[1..], req.namespace));
            if AcceptsRule(w, rules[0], req.namespace)
            then |works| == |rest| + 1 && works[1..] == rest
                 && works[0].dest == DestOf(w, s) && works[0].task == TaskOf(source, rules[0])
            else works == rest
  {
    var own := if AcceptsRule(w, rules[0], req.namespace) then [Job(DestOf(w, s), s, rules[0])] else [];
    MapAppend(Worker(source), own, RuleJobs(w, s, rules[1..], req.namespace));
  }

  /** What is left to do, before and after the j-th rule. */
  lemma RuleTurn(w: Watcher, s: KRMSyncer, j: nat, req: Request, source: Source, todo: seq<Work>, later: seq<Work>)
    requires j < |s.rules|
    requires todo == WorksOf(source, RuleJobs(w, s, s.rules[j..], req.namespace)) + later
    ensures var rest := WorksOf(source, RuleJobs(w, s, s.rules[j + 1..], req.namespace)) + later;
            if AcceptsRule(w, s.rules[j], req.namespace)
            then todo != [] && todo[1..] == rest
                 && todo[0].dest == DestOf(w, s) && todo[0].task == TaskOf(source, s.rules[j])
            else todo == rest
  {
    assert s.rules[j..][1..] == s.rules[j + 1..];
    FirstRule(w, s, s.rules[j..], req, source);
    DropFirst(WorksOf(source, RuleJobs(w, s, s.rules[j..], req.namespace)), later);
  }

  lemma DropFirst<T>(a: seq<T>, b: seq<T>)
    ensures a != [] ==> (a + b)[0] == a[0] && (a + b)[1..] == a[1..] + b
  {
  }

  lemma RunStep(s: State, faults: Faults)
    requires Phased(s.attempt) && s.attempt.todo != []
    ensures Phased(Step(s, faults(|s.attempt.done|, s.attempt.phase)).attempt)
    ensures Run(s, faults) == Run(Step(s, faults(|s.attempt.done|, s.attempt.phase)), faults)
  {
    StepPhased(s, faults(|s.attempt.done|, s.attempt.phase));
  }
}
