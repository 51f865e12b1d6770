/** Which syncers and rules a watcher works through for a request, and the work
    each of them asks for. */
module Jobs {
  import opened Wrappers
  import opened Json
  import opened Gvks
  import opened Remotes
  import opened Rules
  import opened FilterFields
  import opened Bodies
  import opened Destinations
  import opened Attempts

  /** A dynamic watcher; `connection` only matters in pull mode. */
  datatype Watcher = Watcher(gvk: Gvk, mode: string, connection: string)

  predicate AcceptsSyncer(w: Watcher, s: KRMSyncer) {
    !s.suspend && EffectiveMode(s) == w.mode && (w.mode == PULL ==> Key(s.remote) == Some(w.connection))
  }

  predicate AcceptsRule(w: Watcher, rule: ResourceRule, ns: string) {
    MatchesGvk(rule, w.gvk) && (rule.namespaces == [] || ns in rule.namespaces)
  }

  /** Where a syncer's objects go; `None` when its remote cannot be resolved. */
  function DestOf(w: Watcher, s: KRMSyncer): Option<Dest> {
    if w.mode != PUSH then Some(Local)
    else match ClusterName(s.remote)
      case Some(name) => Some(Remote(name))
      case None => None
  }

  datatype Job = Job(dest: Option<Dest>, syncer: KRMSyncer, rule: ResourceRule)

  function RuleJobs(w: Watcher, s: KRMSyncer, rules: seq<ResourceRule>, ns: string): seq<Job> {
    if rules == [] then []
    else (if AcceptsRule(w, rules[0], ns) then [Job(DestOf(w, s), s, rules[0])] else [])
         + RuleJobs(w, s, rules[1..], ns)
  }

  /** The (syncer, rule) pairs an attempt works through, in order. */
  function JobsOf(w: Watcher, syncers: seq<KRMSyncer>, ns: string): seq<Job> {
    if syncers == [] then []
    else (if AcceptsSyncer(w, syncers[0]) then RuleJobs(w, syncers[0], syncers[0].rules, ns) else [])
         + JobsOf(w, syncers[1..], ns)
  }

  lemma {:induction false} RuleJobsAre(w: Watcher, s: KRMSyncer, rules: seq<ResourceRule>, ns: string, j: Job)
    ensures j in RuleJobs(w, s, rules, ns) <==>
            j.dest == DestOf(w, s) && j.syncer == s && j.rule in rules && AcceptsRule(w, j.rule, ns)
  {
    if rules != [] {
      RuleJobsAre(w, s, rules[1..], ns, j);
    }
  }

  lemma {:induction false} JobsAre(w: Watcher, syncers: seq<KRMSyncer>, ns: string, j: Job)
    ensures j in JobsOf(w, syncers, ns) <==>
            && j.dest == DestOf(w, j.syncer)
            && j.syncer in syncers && AcceptsSyncer(w, j.syncer)
            && j.rule in j.syncer.rules && AcceptsRule(w, j.rule, ns)
  {
    if syncers != [] {
      JobsAre(w, syncers[1..], ns, j);
      RuleJobsAre(w, syncers[0], syncers[0].rules, ns, j);
    }
  }

  /** The jobs, on the fields of syncers and rules: every listed syncer that is not
      suspended and has the mode of the watcher, where unset means pull, with, in pull
      mode, the watcher's connection; and each of its rules that matches the watcher's
      GVK and names no namespaces or that of the request. In push mode they go to the
      cluster of the syncer's remote, if it can be named, otherwise to the local one. */
  lemma JobsAreAccepted(w: Watcher, syncers: seq<KRMSyncer>, ns: string, j: Job)
    ensures j in JobsOf(w, syncers, ns) <==>
            && j.syncer in syncers && !j.syncer.suspend
            && (if j.syncer.mode == "" then w.mode == "pull" else j.syncer.mode == w.mode)
            && (w.mode == "pull" ==> Key(j.syncer.remote) == Some(w.connection))
            && j.rule in j.syncer.rules && MatchesGvk(j.rule, w.gvk)
            && (j.rule.namespaces == [] || ns in j.rule.namespaces)
            && (w.mode != "push" ==> j.dest == Some(Local))
            && (w.mode == "push" ==>
                  j.dest == match ClusterName(j.syncer.remote) case Some(name) => Some(Remote(name)) case None => None)
  {
    JobsAre(w, syncers, ns, j);
  }

  /** The syncers that are not suspended. */
  function Active(syncers: seq<KRMSyncer>): seq<KRMSyncer> {
    if syncers == [] then []
    else (if syncers[0].suspend then [] else [syncers[0]]) + Active(syncers[1..])
  }

  lemma {:induction false} SuspendedHaveNoJobs(w: Watcher, syncers: seq<KRMSyncer>, ns: string)
    ensures JobsOf(w, Active(syncers), ns) == JobsOf(w, syncers, ns)
  {
    if syncers != [] {
      SuspendedHaveNoJobs(w, syncers[1..], ns);
      OneSyncer(w, syncers[0], ns);
      assert syncers == [syncers[0]] + syncers[1..];
      JobsAppend(w, [syncers[0]], syncers[1..], ns);
      JobsAppend(w, [syncers[0]], Active(syncers[1..]), ns);
      assert [] + Active(syncers[1..]) == Active(syncers[1..]);
    }
  }

  lemma {:induction false} RuleJobsAppend(w: Watcher, s: KRMSyncer, a: seq<ResourceRule>, b: seq<ResourceRule>, ns: string)
    ensures RuleJobs(w, s, a + b, ns) == RuleJobs(w, s, a, ns) + RuleJobs(w, s, b, ns)
    decreases |a|
  {
    if a == [] {
      assert a + b == b && RuleJobs(w, s, a, ns) == [];
    } else {
      RuleJobsAppend(w, s, a[1..], b, ns);
      assert (a + b)[0] == a[0] && (a + b)[1..] == a[1..] + b;
    }
  }

  lemma {:induction false} JobsAppend(w: Watcher, a: seq<KRMSyncer>, b: seq<KRMSyncer>, ns: string)
    ensures JobsOf(w, a + b, ns) == JobsOf(w, a, ns) + JobsOf(w, b, ns)
    decreases |a|
  {
    if a == [] {
      assert a + b == b && JobsOf(w, a, ns) == [];
    } else {
      JobsAppend(w, a[1..], b, ns);
      assert (a + b)[0] == a[0] && (a + b)[1..] == a[1..] + b;
    }
  }

  lemma OneRule(w: Watcher, s: KRMSyncer, rule: ResourceRule, ns: string)
    ensures RuleJobs(w, s, [rule], ns) == if AcceptsRule(w, rule, ns) then [Job(DestOf(w, s), s, rule)] else []
  {
    assert [rule][1..] == [];
    assert RuleJobs(w, s, [], ns) == [];
  }

  lemma OneSyncer(w: Watcher, s: KRMSyncer, ns: string)
    ensures JobsOf(w, [s], ns) == if AcceptsSyncer(w, s) then RuleJobs(w, s, s.rules, ns) else []
  {
    assert [s][1..] == [];
    assert JobsOf(w, [], ns) == [];
  }

  /** Order and multiplicity of syncers: the jobs of a listed syncer come after those
      of the syncers before it and before those of the syncers after it. */
  lemma JobsKeepOrder(w: Watcher, before: seq<KRMSyncer>, s: KRMSyncer, after: seq<KRMSyncer>, ns: string)
    ensures JobsOf(w, before + [s] + after, ns)
            == JobsOf(w, before, ns) + (if AcceptsSyncer(w, s) then RuleJobs(w, s, s.rules, ns) else [])
               + JobsOf(w, after, ns)
  {
    JobsAppend(w, before + [s], after, ns);
    JobsAppend(w, before, [s], ns);
    OneSyncer(w, s, ns);
  }

  /** Order and multiplicity of rules: one job for a rule that is accepted and none
      otherwise, after the jobs of the rules before it and before those after it. */
  lemma RulesKeepOrder(w: Watcher, s: KRMSyncer, first: seq<ResourceRule>, rule: ResourceRule, rest: seq<ResourceRule>,
                       ns: string)
    ensures RuleJobs(w, s, first + [rule] + rest, ns)
            == RuleJobs(w, s, first, ns) + (if AcceptsRule(w, rule, ns) then [Job(DestOf(w, s), s, rule)] else [])
               + RuleJobs(w, s, rest, ns)
  {
    RuleJobsAppend(w, s, first + [rule], rest, ns);
    RuleJobsAppend(w, s, first, [rule], ns);
    OneRule(w, s, rule, ns);
  }

  /** The source object as read: its fields, or `None` when it is not there. */
  type Source = Option<Fields>

  function TaskWriting(fields: seq<string>, obj: Fields): Task {
    Write(IsFullSync(fields), MainBody(obj), if "status" in obj then Some(StatusBody(obj)) else None)
  }

  /** What a job asks for, given the source snapshot of the attempt: the filtered
      object without the metadata that the API server sets. */
  function TaskOf(source: Source, rule: ResourceRule): Task {
    match source
    case None => Remove
    case Some(src) =>
      match Filtered(src, rule.syncFields)
      case Failure(_) => Unreadable
      case Success(obj) => TaskWriting(rule.syncFields, Prepared(obj))
  }

  /** What is applied is the filtered object without resourceVersion, uid, generation
      and managedFields, for any list of fields. */
  lemma ServerFieldsAreCleared(src: Fields, rule: ResourceRule, k: string, t: Path)
    requires TaskOf(Some(src), rule).Write?
    ensures Filtered(src, rule.syncFields).Success?
    ensures var q := ["metadata", k] + t;
            Get(TaskOf(Some(src), rule).main, q)
            == if k in {"resourceVersion", "uid", "generation", "managedFields"} then None
               else Get(MainBody(Filtered(src, rule.syncFields).value), q)
  {
    var obj := Filtered(src, rule.syncFields).value;
    PreparedEntry(obj, k, t);
    LeafPathsAreLeaves(Tree(obj), ["metadata", k] + t);
    LeafPathsAreLeaves(Tree(Prepared(obj)), ["metadata", k] + t);
  }

  function WorkOf(source: Source, job: Job): Work {
    Work(job.dest, TaskOf(source, job.rule))
  }

  function Worker(source: Source): Job -> Work {
    j => WorkOf(source, j)
  }

  function WorksOf(source: Source, jobs: seq<Job>): seq<Work> {
    Map(Worker(source), jobs)
  }
}
