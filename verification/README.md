# KRMSyncer, modelled and proved in Dafny

KRMSyncer replicates Kubernetes objects from a source cluster to destination
clusters. A KRMSyncer resource lists rules; for every kind that a rule names the
controller starts a watcher, and for every event of a watched object the watcher
reads the source, walks through all syncers and rules, projects the object onto
the fields a rule lists and applies the projection to the destination with
Server-Side Apply, under the single field manager `krm-syncer`.

The project models that controller, the connections it uses and the part of
`deploy.sh` that renders its configuration, and proves what they promise over all
inputs, all failure patterns and all runs.

## How the model is built

- **Objects.** A source object is a JSON tree (`Json`). A destination object has two
  lanes, one per API endpoint: everything but status, and status. A lane maps the
  path of each leaf to its value and its owning managers (`ServerSideApply`,
  `Destinations`). A leaf is anything that is not a non-empty map, so lists are
  atomic.
- **API calls.** Each call is carried out, refused, or carried out with the reply
  lost (`Outcome`). Proofs quantify over what becomes of every call.
- **The sync step.** `DynamicResourceReconciler` is a class whose methods loop over
  syncers and rules as the source does. It is proved equal to `Passes.Pass`, an
  attempt that makes one API call per step (`Attempts`); `FaultlessPasses` says what it
  does when every call is answered, `Retries` what failed ones leave behind. The same
  small steps, interleaved, give the concurrent machines: the work queue with several keys in
  flight (`Convergence`) and workers racing for a namespace (`NamespaceRace`). In
  `Convergence` every version of a source object is kept, deletions included; an
  attempt reads some version between the one the informer shows and the current
  one, which covers reads from the API server as well as from a cache. `Verdicts`
  ties that machine back to Reconcile and reads the failed set and the queue off the
  events of a run.
- **Watch setup.** `KRMSyncerReconciler` is a class over the maps of started
  watches, proved equal to `Watches.SetUp`; starting a watch or building a remote
  cluster may fail at each point.
- **Connections.** `GkeConfigProvider`, `RotatingTransport` and `RemoteClientCache`
  are classes, proved equal to functions on their state. `ConnectionThreads` runs
  the same functions as steps of any number of threads under a clock, with the
  lock released during a fetch. The only assumption on time is that a fetch takes
  at most a given bound up to its store (30 s in the source); `RequestFreshness` adds
  one where it needs it: a thread goes on within a given lag from its lookup to its
  refresh, and from a successful refresh to the send.
- **Accounting.** `FailureTracker` and its shared `Gauge` are classes; `GaugeConservation`
  interleaves markings of any number of trackers.
- **deploy.sh.** `GvkList.ResourceIdRules` is the read loop over the list of kinds
  with generated resource IDs; `SyncConfig.RenderSyncConfig` puts the rules in
  order. Strings are sequences of characters in the C locale.

The two calls of status mode, the existence check and the apply, are separate
steps; that nothing is created is proved for a pass during which nobody else acts
on the destination. The convergence theorem fixes the list of syncers during a run,
since a changed KRMSyncer does not enqueue objects that are already watched.

## Where the code and its documentation differ

The model follows the code.

- A KRMSyncer whose mode is neither `push` nor `pull` is set up without error and
  starts push watchers (`Watches.OtherModesSetUpCleanly`), and in no run does any
  watcher work for it (`Watches.OtherModesAreNeverWatched`). The CRD admits only the
  two modes; `Watches.NilMeansWatched` gives the exact condition.
- The comment on `gkeClusterTTL` promises of connections that a changed endpoint or CA
  is picked up within that interval. Three things are true instead. Lookups: a record
  returned TTL plus one fetch after the change is the new one, and this is exact
  (`ConnectionFreshness.ChangeIsPickedUp`, `ChangeMayBeMissedUntilThen`). Requests:
  one whose own refresh succeeded is sent with the new settings TTL plus one fetch
  plus twice the lag after the change, if every thread goes on within the lag, and
  this is exact (`RequestFreshness.RefreshedRequestsFollowChange`,
  `RequestLag.RequestBoundIsExact`). Without a bound on the lag there is none on the
  age of settings: a delayed thread that refreshes with an older record sets them
  back, also for a request that has just refreshed (`RequestLag.SettingsCanBeSetBack`).
- `api/v1alpha1` says that a rule without `syncFields` syncs only status. The
  defaulting is done by the API server, and only for a missing list. An empty list
  applies the bare identity: `krm-syncer` gives up all it owned in the main lane, and
  as no status patch is sent the status lane stays as it was
  (`Prescriptions.EmptyListReleasesMainLane`). A status patch is sent exactly when the
  rule lists `status` and the source has one (`Folds.TaskBodies`).
- Attempts read the source from the API server, ahead of the informer. If an object
  is deleted, created and synced before the informer shows it again, and is deleted
  once more, the informer's next list can show nothing where nothing was. Then
  nothing is queued and the object stays at its destinations until the source object
  is created again: a resync only covers what the informer shows
  (`Gaps.GapHidesDeletion`, `Gaps.HiddenUntilCreated`). `Convergence.UpToDateAgreesIff`
  gives the exact condition for a settled, up-to-date key to agree: no such gap since
  it was last read, or the last successful attempt found the object absent.
- The syncer's README names namespace mapping as a feature; the code has none.
- The wildcard group `*.cnrm.cloud.google.com` is matched by the suffix
  `cnrm.cloud.google.com`, without the dot, in expansion and matching alike. So it
  stands for the groups under that domain and, beyond them, for exactly those groups
  that end in the suffix with no dot before it (`Rules.WildcardTakesDotlessGroups`),
  such as `xcnrm.cloud.google.com` (`Rules.DotlessExample`).

## Model

Paths are relative to the root of the repository.

| member | source | states |
|---|---|---|
| FilterFields.FilterFields | syncer/controllers/krmsyncer_controller.go:643-670 | the loop over the listed fields computes `Filtered`, with the error of the first field that cannot be read |
| FilterFields.FilteredIsProjection | syncer/controllers/krmsyncer_controller.go:643-670 | for any list of fields outside apiVersion, kind and metadata: fails exactly when a value other than a map or null stands in the way of a listed path in the source, with the error of the first such path, never on writing; otherwise the result holds the source value at and below every listed path that the source has, maps above them, the identity, and nothing else |
| FilterFields.ProjectionIsUnique | syncer/controllers/krmsyncer_controller.go:643-670 | the path-by-path description leaves no freedom: only one tree satisfies it |
| FilterFields.FilteredIgnoresOrder | syncer/controllers/krmsyncer_controller.go:657-670 | order and duplicates of the listed fields do not change the result |
| FilterFields.FilteredIsIdempotent | syncer/controllers/krmsyncer_controller.go:643-670 | projecting a projection again gives it back |
| FilterFields.FilteredKeepsIdentity | syncer/controllers/krmsyncer_controller.go:647-655 | the projection has the GVK, name and namespace of the source |
| FilterFields.MetadataIsSource | syncer/controllers/krmsyncer_controller.go:648-655 | the metadata of the projection, entry by entry on the source itself: name and namespace if they are not empty, labels and annotations exactly when `spec` is listed and they map to strings, and no other entry |
| FilterFields.GroupAndKindAreSource | syncer/controllers/krmsyncer_controller.go:647 | apiVersion and kind of the projection are those of the source as they are written there, for an apiVersion that can be parsed and does not start with a slash |
| Gvks.ParseAfterRender | syncer/controllers/krmsyncer_controller.go:647 | a group and version read from apiVersion survive being written back and read again |
| Gvks.SlashesSeparate | syncer/controllers/krmsyncer_controller.go:176 | an apiVersion without a slash is a version of the core group, with one slash group and version, with more an error |
| Gvks.RenderedIsParsed | syncer/controllers/krmsyncer_controller.go:647 | writing a parsed apiVersion back gives the same text, unless it starts with a slash |
| Bodies.BodiesAreSourceLeaves | syncer/controllers/krmsyncer_controller.go:705-737 | outside the identity fields, main and status body together hold exactly the source's leaves at or below the listed fields |
| Bodies.StatusModeHasNoMetadata | syncer/controllers/krmsyncer_controller.go:650-655 | without `spec` in the list nothing of metadata is applied, so labels and annotations of the destination are left alone |
| Bodies.MainBodyMetadata | syncer/controllers/krmsyncer_controller.go:650-655 | of the metadata the main body holds the leaves of the source's labels and annotations, exactly when `spec` is listed, and nothing else |
| Bodies.MainBodyRoots | syncer/controllers/krmsyncer_controller.go:647 | apiVersion, kind and the metadata as a whole are not in the body |
| Bodies.ListedStatusIsSourceStatus | syncer/controllers/krmsyncer_controller.go:710-737 | if status is listed, the status patch is sent exactly when the source has a status, with the whole of it |
| Bodies.UnlistedStatusIsAbsent | syncer/controllers/krmsyncer_controller.go:710-721 | if status is not listed, no status patch is sent |
| ServerSideApply.ApplyOwns | syncer/config/templates/krmsyncer.yaml:14-20 | after a forced apply the manager owns exactly the body |
| ServerSideApply.ApplyAllTwice | syncer/config/templates/krmsyncer.yaml:14-20 | repeating any sequence of forced applies by one manager changes no value and no owner, also when the bodies set, drop and set a field again |
| ServerSideApply.AppliedAllKeeps | syncer/config/templates/krmsyncer.yaml:14-20 | a path no body names and the manager does not own keeps value and owners |
| Jobs.JobsAreAccepted | syncer/controllers/krmsyncer_controller.go:483-538 | which (syncer, rule) pairs an attempt works through and where they go, on the fields of both: exactly those with a listed syncer that is not suspended and has the watcher's mode (unset means pull) and, in pull mode, its connection, and a rule that matches the watcher's GVK and names no namespaces or the request's; in push mode to the cluster of the remote, otherwise to the local one |
| Jobs.JobsKeepOrder | syncer/controllers/krmsyncer_controller.go:484-503 | their order and multiplicity across syncers: the jobs of an accepted syncer, once, between those of the syncers before it and after it; none of another |
| Jobs.RulesKeepOrder | syncer/controllers/krmsyncer_controller.go:505-525 | the same across the rules of a syncer |
| Jobs.ServerFieldsAreCleared | syncer/controllers/krmsyncer_controller.go:570-574 | for any list of fields, what is applied is the filtered object without resourceVersion, uid, generation and managedFields |
| FilterFields.AnyFieldsKeepIdentity | syncer/controllers/krmsyncer_controller.go:643-670 | for any list of fields at all, apiVersion, kind and metadata included, the result has the source's GVK, name and namespace |
| FilterFields.ProjectionIsPrepared | syncer/controllers/krmsyncer_controller.go:570-574 | for lists outside apiVersion, kind and metadata there is no server-set metadata to clear before applying |
| Reconciler.DynamicResourceReconciler.EnsureNamespace | syncer/controllers/krmsyncer_controller.go:685-704 | looks the namespace up and creates it when it is not found; AlreadyExists is no error |
| Reconciler.DynamicResourceReconciler.ApplyToDestination | syncer/controllers/krmsyncer_controller.go:683-742 | namespace, then main endpoint, then status: has the effect and the error of the corresponding steps of the attempt |
| Reconciler.DynamicResourceReconciler.CheckExists | syncer/controllers/krmsyncer_controller.go:576-597 | goes on to the apply only if the destination object is there, otherwise reports which error |
| Reconciler.DynamicResourceReconciler.DeleteAt | syncer/controllers/krmsyncer_controller.go:540-556 | deletes at the destination; NotFound is no error |
| Attempts.FailedCalls | syncer/controllers/krmsyncer_controller.go:540-604 | a call that is refused changes nothing, one whose reply is lost has its whole effect, and either ends the rule at hand with the error of that call |
| Reconciler.DynamicResourceReconciler.SyncRule | syncer/controllers/krmsyncer_controller.go:527-604 | one matching rule: client, then deletion, or filter, check and apply, for any outcome of the calls |
| Reconciler.DynamicResourceReconciler.SyncAll | syncer/controllers/krmsyncer_controller.go:483-606 | the loops over syncers and rules do exactly what the pass does to the fleet, and collect its errors |
| Reconciler.DynamicResourceReconciler.Reconcile | syncer/controllers/krmsyncer_controller.go:459-614 | an unreadable source marks the key failed; a failed List touches neither destination nor tracker; otherwise the effect is that of the pass, and the key is marked failed exactly when some rule met an error. If none did, the object of the request is gone from every destination of a matching rule when the source is absent, and as prescribed there when it is present |
| Passes.PassIsFold | syncer/controllers/krmsyncer_controller.go:484-606 | an error-free pass is the fold of its works, destination by destination, from any starting state |
| Passes.PassFrame | syncer/controllers/krmsyncer_controller.go:484-606 | whatever fails, a pass changes nothing but the request's object and namespace, at destinations of its jobs |
| Passes.EveryWriteIsJustified | syncer/controllers/krmsyncer_controller.go:483-606 | any change at a destination is caused by a listed syncer that is not suspended and has the watcher's mode and connection, with a rule matching GVK and namespace, that goes there |
| Passes.SuspendedSyncersDoNothing | syncer/controllers/krmsyncer_controller.go:485-487 | a pass is the same without the suspended syncers of the list |
| Passes.DeletedSourceIsRemoved | syncer/controllers/krmsyncer_controller.go:540-556 | an error-free pass on a deleted source leaves the object absent at exactly the destinations of matching rules, every other object and namespace untouched |
| Passes.StatusModeCreatesNothing | syncer/controllers/krmsyncer_controller.go:573-597 | if no matching rule lists `spec`, the sets of objects and namespaces of all destinations are the same after the pass, for any failures |
| Passes.StatusModeNeedsDestination | syncer/controllers/krmsyncer_controller.go:584-597 | in status mode a destination without the object always makes the pass fail |
| FaultlessPasses.FaultlessPass | syncer/controllers/krmsyncer_controller.go:506-606 | when every call is answered, a pass on a present source reports exactly these errors: no destination, a source that cannot be filtered, a rule without `spec` for an object that is not there and that no earlier rule creates; every other rule, so every readable one that lists `spec`, leaves the object at its destination, in its namespace |
| FaultlessPasses.FaultlessDeletion | syncer/controllers/krmsyncer_controller.go:540-556 | and one on a deleted source reports an error only if a destination cannot be named: an object that is already gone is none |
| Passes.PassAgrees | syncer/controllers/krmsyncer_controller.go:506-606 | after an error-free pass every destination holds what the rules prescribe, whatever it held before |
| Passes.PassKeepsForeignFields | syncer/config/templates/krmsyncer.yaml:14-20 | fields that no rule of the pass names and `krm-syncer` did not own keep value and owners, in both lanes |
| Passes.PassIsIdempotent | syncer/controllers/krmsyncer_controller.go:506-606 | running an error-free pass twice on an unchanged source equals running it once, in values, owners, objects and namespaces, also for overlapping rules |
| Retries.RetriesMakeGood | syncer/controllers/krmsyncer_controller.go:606-613 | after any number of attempts on one version of the source, whatever failed in them and however far they came, an error-free one leaves every cluster, values and owners included, as an error-free one at once would have |
| Prescriptions.PassPrescribes | syncer/controllers/krmsyncer_controller.go:506-606 | after an error-free pass with any rules, every destination of a matching rule is as prescribed: absent for a deleted source; otherwise `krm-syncer` owns in the main lane exactly the filtered object of the last such rule, and in the status lane exactly the status of the last one whose filtered object has one |
| Prescriptions.PassKeepsStatus | syncer/controllers/krmsyncer_controller.go:710-721 | if no such rule has a status for the source, the status lane is as before |
| Prescriptions.PassKeepsUnlistedFields | syncer/config/templates/krmsyncer.yaml:14-20 | a field at or below no path that the rules for the destination list and the source has, and that `krm-syncer` did not own, keeps value and owners in both lanes |
| Prescriptions.EmptyListReleasesMainLane | syncer/controllers/krmsyncer_controller.go:657-670 | a rule with an empty list of fields makes `krm-syncer` give up everything in the main lane and leaves the status lane as it was |
| Folds.TaskBodies | syncer/controllers/krmsyncer_controller.go:710-721 | for the field values of the CRD, a status patch is sent exactly when the rule lists status and the source has one |
| Folds.PassOwnsLastProjection | syncer/controllers/krmsyncer_controller.go:506-606 | the case of the field values that the CRD admits, in terms of the source: after an error-free pass `krm-syncer` owns in the main lane exactly the projection of the last matching rule for the destination, and in the status lane exactly the source status if a matching rule lists it and the source has one; otherwise the status lane is as before |
| Folds.SyncerOrderAcrossDestinations | syncer/controllers/krmsyncer_controller.go:484-510 | reordering syncers that go to different destinations changes no destination |
| Convergence.RunsConverge | syncer/controllers/krmsyncer_controller.go:459-614 | in every reachable state of source versions, informer, queue, attempts in flight, destinations and failed set: a key that is neither queued nor in flight is, at all destinations of matching rules, as prescribed for one version of the source, no older than the informer's unless a gap was passed over, so for the current one once the informer has caught up; a key never shown is as at the start; every failed key is queued or in flight |
| Convergence.UpToDateAgreesIff | syncer/controllers/krmsyncer_controller.go:459-614 | the exact condition over every run: a settled key whose current version the informer shows agrees with the current source if and only if no gap was passed over since it was last read or its latest successful attempt found the object absent |
| Convergence.QuiescenceIsAgreement | syncer/controllers/krmsyncer_controller.go:459-614 | with nothing queued, in flight or unreported, every source object is at all its destinations as prescribed, every deleted one absent, and no key is failed |
| Verdicts.FailedMeansFailedLast | syncer/controllers/krmsyncer_controller.go:463-614 | over every run, a key is in the failed set if and only if the latest of its reads and attempts that ended was a failure; a failed List does not count |
| Verdicts.NoRequestIsLost | syncer/controllers/krmsyncer_controller.go:459-614 | over every run, once the informer has shown a change of a key, a resync has covered it or an attempt for it has failed, the key is queued, taken or under attempt until an attempt that read the source after that has ended without error |
| Verdicts.AttemptIsPass | syncer/controllers/krmsyncer_controller.go:459-614 | an attempt that no other step interrupts is one call of Reconcile: same clusters as the pass, same marking, for any outcome of the calls; a failed read marks the key, a failed List does not |
| Quiescence.RestIsReachable | syncer/controllers/krmsyncer_controller.go:459-614 | from every reachable state in which the current version of every key not at rest can be synced and no gap is stuck, some continuation without API failures or further changes ends at rest |
| Gaps.RestIsReachableIff | syncer/controllers/krmsyncer_controller.go:459-614 | the exact condition on gaps: where the current versions can be synced, rest can be reached if and only if no gap is stuck, that is, passed over by an up-to-date informer for a key that is neither about to be read nor about to be retried |
| Gaps.GapHidesDeletion | syncer/controllers/krmsyncer_controller.go:463-476 | why agreement needs the condition: without any API failure, an object deleted, created, synced and deleted between two reports stays at its destinations although nothing is queued, failed or unseen |
| Gaps.HiddenUntilCreated | syncer/controllers/krmsyncer_controller.go:463-476 | and it stays there through any further events, failures included, as long as the source object is not created again |
| NamespaceRace.EveryWorkerSucceeds | syncer/controllers/krmsyncer_controller.go:683-718 | any number of workers interleaving look-up, creation and apply, with others creating namespaces: no worker meets an error, every worker finishes in six turns per rule with its objects in place, and an object's namespace always exists before the object |
| StatusConfig.RenderedConfigKeepsResourceId | syncer/deploy.sh:303-328 | with the wildcard rule first, after every error-free pass for a listed GVK `krm-syncer` owns spec.resourceID with the source's value and nothing else outside status, other managers' fields are kept, and the status is the source's |
| StatusConfig.WildcardLastDropsResourceId | syncer/config/templates/krmsyncer.yaml:23-25 | with the wildcard rule last, spec.resourceID stays on the destination if and only if another manager held it there with the source's value |
| SyncConfig.RenderSyncConfig | syncer/deploy.sh:303-328 | fails exactly for a rejected list in status mode; the first rule is the wildcard, for spec and status in full mode and for status alone in any other, and in status mode alone one rule for status and spec.resourceID follows per listed GVK |
| SyncConfig.ListedTextKeepsResourceId | syncer/deploy.sh:272-328 | from the text of the list to the destination: a GVK listed in an accepted text keeps the source's spec.resourceID after every error-free pass |
| GvkList.ResourceIdRules | syncer/deploy.sh:272-295 | the read loop accepts exactly the texts in which every non-blank line matches, a dash comes first and every entry is complete, and returns the GVKs of the entries |
| GvkDocuments.WrittenGvksAreParsedBack | syncer/deploy.sh:272-294 | round trip: GVKs written as group, version, kind lines are parsed back one rule per entry in order, through any blank lines, comments, padding and carriage returns, with or without the last newline |
| GvkDocuments.WrittenEntriesAreParsed | syncer/deploy.sh:272-294 | the same for entries with their keys in any order; of several lines of an entry for one key the last counts |
| GvkDocuments.AcceptedTextsAreDocuments | syncer/deploy.sh:272-294 | the accepted texts are exactly those: every one is such a list, line by line |
| GvkDocuments.AcceptedListsLoseNothing | syncer/deploy.sh:262-294 | an accepted text yields as many GVKs as it has lines starting with a dash, all complete, and all its other lines are blank or match |
| Rules.ExpandRule | syncer/controllers/krmsyncer_controller.go:164-212 | the loops over discovery compute `Expansion`: an error exactly for rules that validation rejects |
| Rules.ExpansionAgreesWithMatching | syncer/controllers/krmsyncer_controller.go:445-457 | for every valid rule and every discovery result: the rule expands to g if and only if the sync step matches g and, for a glob, discovery lists g as a parseable entry that is not a subresource |
| Rules.StarsNeedKccGroup | syncer/controllers/krmsyncer_controller.go:136-147 | exactly which rules with a star are valid: version and kind are the star and the group is the KCC domain or ends in it after a dot |
| Rules.ValidRulesMatchTheirGroup | syncer/controllers/krmsyncer_controller.go:180-212 | a valid rule matches, and expands to if discovered, GVKs of its own group only, unless that is the wildcard: with stars all of them, otherwise the one it names |
| Rules.WildcardTakesDotlessGroups | syncer/controllers/krmsyncer_controller.go:180-184 | the wildcard rule matches, and expands to if discovered, exactly the groups that end in `.cnrm.cloud.google.com` and those that end in the suffix with no dot before it, which are not under the domain |
| Rules.DotlessExample | syncer/controllers/krmsyncer_controller.go:450-453 | a group of the second kind |
| Watches.SkippingDiscoveryIsSafe | syncer/controllers/krmsyncer_controller.go:236-262 | when no rule has a star, the setup without discovery is the same as with any discovery result |
| WatchSetup.KRMSyncerReconciler.GetOrCreateRemoteCluster | syncer/controllers/krmsyncer_controller.go:376-411 | reuses the cluster of the connection, builds and keeps a new one otherwise, keeps nothing when building fails |
| WatchSetup.KRMSyncerReconciler.StartRemoteWatcher | syncer/controllers/krmsyncer_controller.go:349-374 | a pull watch is recorded exactly when it starts; a cluster built for it stays even when the watch fails |
| WatchSetup.KRMSyncerReconciler.SetUpWatches | syncer/controllers/krmsyncer_controller.go:214-313 | the loops over rules and GVKs do what `SetUp` says: go on after a watch that does not start, return at an invalid rule |
| WatchSetup.KRMSyncerReconciler.Reconcile | syncer/controllers/krmsyncer_controller.go:92-134 | a KRMSyncer is marked failing exactly when its latest setup failed; a deleted or suspended one is not, a read error changes nothing |
| Watches.RunsAreConsistent | syncer/controllers/krmsyncer_controller.go:270-311 | over any run of reconciles with any failures: at most one successful start per local GVK and per connection and GVK, one cluster per connection, and every watched remote GVK has its cluster, built for that very connection |
| Watches.RunsGrow | syncer/controllers/krmsyncer_controller.go:270-311 | watches and clusters are never given up or replaced |
| Watches.NilMeansWatched | syncer/controllers/krmsyncer_controller.go:214-313 | after a reconcile that returns nil every rule is valid, discovery answered if a rule has a star, and every GVK that a rule matches (and, for a star, discovery lists) is watched by a watcher that accepts the syncer, if and only if the mode is unset, push or pull |
| Watches.BadRulesFail | syncer/controllers/krmsyncer_controller.go:245-274 | an invalid rule, or a star without an answer from discovery, or outside push mode without a cluster to ask, makes the reconcile fail |
| Watches.OtherModesAreNeverWatched | syncer/controllers/krmsyncer_controller.go:483-495 | with any other mode string, in no run is there ever a watcher that accepts the syncer |
| Watches.OtherModesSetUpCleanly | syncer/controllers/krmsyncer_controller.go:298-308 | a boundary fact: its setup succeeds and starts a push watcher |
| Watches.OnceNilAlwaysWatched | syncer/controllers/krmsyncer_controller.go:310-313 | a GVK stays watched for the rest of any run once its syncer was set up |
| Watches.FailuresAreIsolated | syncer/controllers/krmsyncer_controller.go:270-311 | one watch that fails to start does not hold back the others, nor does a later invalid rule; a remote cluster that is up is kept even if the watch on it does not start |
| Watches.InvalidRuleEndsSetUp | syncer/controllers/krmsyncer_controller.go:263-274 | at the first invalid rule the setup ends with that error alone, having started exactly what the rules before it ask for |
| Watches.SetUpSucceedsIff | syncer/controllers/krmsyncer_controller.go:214-313 | when every watch and cluster starts, the reconcile returns nil if and only if all rules are valid, discovery answers if one has a star (outside push mode from a cluster that can be named), and in pull mode the remote has a key unless the rules name no GVK |
| Watches.SetUpAgainIsNoOp | syncer/controllers/krmsyncer_controller.go:310-313 | after a setup without errors the same setup starts nothing again, even if every start would now fail |
| Watches.SharedClusterIsSameConnection | syncer/controllers/remote_cluster.go:39-41 | with slash-free names, syncers that share a remote cluster mean the same project, location, name and endpoint |
| Remotes.KeyIdentifies | syncer/controllers/remote_cluster.go:120-130 | with slash-free names, two remotes have the same key if and only if project, location, name and normalised endpoint are equal |
| Remotes.ClusterNameIdentifies | syncer/controllers/remote_cluster.go:50-59 | the same for the names that key the cluster lookups, without the endpoint |
| Remotes.NamesSpellTheCluster | syncer/controllers/remote_cluster.go:50-59 | the parts of both names between their slashes, and that there is a name exactly when project, location and name are set |
| Remotes.SlashesCollide | syncer/controllers/remote_cluster.go:58 | with slashes two different clusters can share a key |
| GkeConnections.EndpointAndCaBelongTogether | syncer/controllers/remote_cluster.go:228-273 | for every endpoint setting, when the selection succeeds, which host of the record it leads to (of the two private endpoint fields the newer one first) and which CA is trusted there: the cluster's, except on the DNS endpoint, which must be open to external traffic and uses the system roots |
| GkeConnections.EqualKeysMeanSameTarget | syncer/controllers/remote_cluster.go:117-130 | with slash-free names, remotes with equal keys look up the same cluster and are led by every record to the same host and CA |
| GkeConnections.RefreshedIs | syncer/controllers/rotating_transport.go:66-105 | a refresh leaves the host and CA of one record with a transport for that CA, or fails and changes nothing; it fails exactly when the record cannot be had or used, or a needed transport cannot be built |
| RotatingTransports.FollowsLastSuccess | syncer/controllers/rotating_transport.go:66-105 | after any sequence of lookups the settings are those of the last successful one, and the number of transports built is one plus the number of changes between successive successes |
| RotatingTransports.FailuresAreNotSuccesses | syncer/controllers/rotating_transport.go:69-79 | a request reports a failed refresh exactly when its lookup adds no success |
| RotatingTransports.GkeConfigProvider.Cluster | syncer/controllers/remote_cluster.go:183-203 | the cached record while it is fresh; otherwise the fetched one, which alone is stored |
| RotatingTransports.GkeConfigProvider.Open | syncer/controllers/remote_cluster.go:133-160 | RESTConfig gives a transport exactly when tokens, record, endpoint and TLS transport are available, and it is set from that record; without tokens the cluster is not looked up |
| RotatingTransports.GkeConfigProvider.TokenSource | syncer/controllers/remote_cluster.go:163-180 | tokens are kept once they were available, a failure is not kept |
| RotatingTransports.RotatingTransport.Update | syncer/controllers/rotating_transport.go:85-105 | switches host, CA and transport together, and only when they differ and the transport can be built |
| RotatingTransports.RotatingTransport.Current | syncer/controllers/rotating_transport.go:66-83 | continues the sequence of lookups by one and returns transport and host of the settings after it |
| ConnectionThreads.ReturnedRecordsAreYoung | syncer/controllers/remote_cluster.go:183-203 | for any interleaving of any number of threads, a record returned by `cluster` was at the API less than TTL plus one fetch before |
| ConnectionThreads.RequestsUseOneRecord | syncer/controllers/rotating_transport.go:53-83 | every request is sent with a transport, and its host and trusted CA come from one single record seen for the transport's own cluster and endpoint |
| ConnectionThreads.FetchedAtNeverDecreases | syncer/controllers/remote_cluster.go:196-203 | the stored fetch time of a cluster never decreases |
| ConnectionThreads.FailedLookupsFallBack | syncer/controllers/rotating_transport.go:63-83 | in any reachable state, a request whose lookup fails is sent with the settings its transport has by then, and there are some |
| ConnectionFreshness.RequestsReachTheirCluster | syncer/controllers/rotating_transport.go:53-83 | with slash-free names the record was the API's answer for that very project, location and name |
| ConnectionFreshness.ChangeIsPickedUp | syncer/controllers/remote_cluster.go:183-203 | lookups: every record returned TTL plus one fetch or more after a change at the API is the new one |
| ConnectionFreshness.ChangeMayBeMissedUntilThen | syncer/controllers/remote_cluster.go:183-203 | lookups: one tick earlier the old record can still be returned, so that bound is exact |
| RequestFreshness.RefreshedRequestsAreFresh | syncer/controllers/rotating_transport.go:53-83 | requests: if threads go on within a lag, one whose own refresh succeeded is sent with host and CA of a record seen less than TTL plus one fetch plus twice the lag before, whatever other threads did to the settings |
| RequestFreshness.RefreshedRequestsFollowChange | syncer/controllers/remote_cluster.go:63-68 | requests: that long after the last change of its cluster, such a request goes to the new host and trusts the new CA |
| RequestLag.RequestBoundIsExact | syncer/controllers/remote_cluster.go:63-68 | requests: one tick earlier, such a request can still go to the old host, so that bound is exact |
| RequestLag.SettingsCanBeSetBack | syncer/controllers/rotating_transport.go:66-105 | requests: without a bound on the lag, any time after a change a request that has itself just refreshed with the new record can be sent with the old settings, set back by a delayed thread |
| ConnectionFreshness.OlderMayReplaceNewer | syncer/controllers/remote_cluster.go:189-203 | two overlapping fetches can store the older record over the newer one |
| RemoteClients.RemoteClientCache.Fetch | syncer/controllers/remote_clients.go:41-63 | one call on the cache: the cached client, or one built now and kept, or an error and nothing kept |
| RemoteClients.CallsAreAccountedFor | syncer/controllers/remote_clients.go:41-63 | over any sequence of calls: at most one client per key, built for that key, and RESTConfig was called once per cached client and once per failed build |
| RemoteClients.ReturnsClientOfConnection | syncer/controllers/remote_clients.go:41-51 | a returned client was built for the same connection as asked for |
| RemoteClients.SameConnectionSameClient | syncer/controllers/remote_clients.go:46-51 | once a call got a client, all later calls for that connection get the same one |
| RemoteClients.ErrorsAreNotCached | syncer/controllers/remote_clients.go:53-62 | a call fails exactly when its remote has no key, or no earlier call got a client for it and building one fails now |
| FailureTracking.FailureTracker.MarkFailed | syncer/controllers/metrics.go:74-84 | adds the key and moves the gauge by exactly the growth of the set; a nil tracker ignores the update |
| FailureTracking.FailureTracker.MarkSucceeded | syncer/controllers/metrics.go:88-98 | removes the key and moves the gauge by exactly the shrinking of the set; a nil tracker ignores the update |
| GaugeConservation.GaugeIsConserved | syncer/controllers/metrics.go:57-98 | for any interleaving of markings by any number of trackers on one gauge: the gauge is never negative, it equals the sum of the failed sets whenever no step is outstanding, and a key is in a tracker exactly when its last marking there was a failure |

## Left out

- HTTP, TLS, OAuth tokens, JSON and base64 decoding, URL parsing: decoding and URL parsing are parameters (`GkeConnections.Params`), a fetch is a step that reads the API's record or fails.
- Informers, rate limits, backoff and controller names of controller-runtime: the queue is a set of keys that are put back on error, starting a watch succeeds or fails.
- FilterFields.MetadataIsSource: requires fields outside apiVersion, kind and metadata, as Bodies.MainBodyMetadata and Bodies.MainBodyRoots do.
- FilterFields.FilteredIsProjection: requires fields outside apiVersion, kind and metadata, which the CRD does not admit; for other lists FilterFields.AnyFieldsKeepIdentity still holds, and the sync step is proved for them too.
- Folds.PassOwnsLastProjection: is stated for the three values of `syncFields` that the CRD admits, because it says what happens to status by whether `status` is listed; Prescriptions.PassPrescribes is the theorem for any rule.
- Prescriptions.PassKeepsUnlistedFields: requires fields outside apiVersion, kind and metadata of the rules for the destination.
- Merging of lists by their schema and conflicts between a leaf and a map at the same path in Server-Side Apply.
- Finalizers, deletion in the background, defaulting and admission on the destination cluster.
- Namespaces as synced objects, and a source and destination that are the same cluster.
- Convergence.RunsConverge: is about one watcher; several watchers of the same object (served versions, several sources) have no order in the code.
- Passes.StatusModeCreatesNothing: does not cover another actor who deletes the object between the check and the apply.
- A remote cluster whose cache does not sync keeps running unrecorded; `WatchSetup.KRMSyncerReconciler` models it as not built.
- Status conditions of KRMSyncers, logging and controller options.
- `pkg/export`, `pkg/sink`, both `main.go` files, the generated code and manifests, and the gcloud, kubectl and docker parts of `deploy.sh`.
- The YAML reading of the rendered rules: printed values are taken as the strings they print, so a value such as `true` that YAML reads as something else is not covered.
- The placeholders and the file checks of `render_template` and `render_sync_config`, NUL bytes and locales in bash.
