/** render_sync_config of deploy.sh: the rules of the rendered KRMSyncer, from the
    sync mode and the list of GVKs with service-generated resource IDs. */
module SyncConfig {
  import L = GvkList
  import opened Wrappers
  import opened Json
  import opened Gvks
  import opened Rules
  import opened SyncFields
  import opened ServerSideApply
  import opened Destinations
  import opened Jobs
  import opened Attempts
  import opened Passes
  import opened StatusConfig

  const FULL_MODE := "full"
  const STATUS_MODE := "status"

  /** The rules are appended only in status mode; a rejected list aborts. */
  method RenderSyncConfig(syncMode: string, list: string) returns (r: Result<seq<ResourceRule>, L.ListError>)
    ensures r.Failure? <==> syncMode == "status" && !L.Accepted(list)
    ensures r.Success? ==>
              && r.value != []
              && r.value[0] == ResourceRule("*.cnrm.cloud.google.com", "*", "*", [],
                                            if syncMode == "full" then ["spec", "status"] else ["status"])
              && r.value[1..] == Map((g: Gvk) => ResourceRule(g.group, g.version, g.kind, [], ["status", "spec.resourceID"]),
                                     if syncMode == "status" then L.GvksIn(list) else [])
    ensures r.Success? && syncMode == "status" ==> r.value == StatusModeRules(L.GvksIn(list))
  {
    var syncFields := [SPEC, STATUS];
    if syncMode != FULL_MODE {
      syncFields := [STATUS];
    }
    var config := [WildcardRule(syncFields)];
    if syncMode == STATUS_MODE {
      var listed := L.ResourceIdRules(list);
      if listed.Failure? {
        return Failure(listed.error);
      }
      config := config + ResourceIdRules(listed.value);
    }
    r := Success(config);
  }

  /** From the text of the list to the destination: after an error-free pass with
      the rendered rules, every listed GVK keeps the source's spec.resourceID,
      and no field of another manager outside it is touched. */
  lemma ListedTextKeepsResourceId(list: string, fleet: Fleet, w: Watcher, s: KRMSyncer, req: Request, src: Fields, id: Json,
                                  faults: Faults)
    requires L.Accepted(list) && w.gvk in L.GvksIn(list)
    requires WatchesFor(w, s) && s.rules == StatusModeRules(L.GvksIn(list))
    requires At(Tree(src), ["spec", "resourceID"]) == Some(id) && IsLeaf(Some(id))
    requires Pass(fleet, w, [s], req, Some(src), faults).attempt.errors == []
    ensures var before := ObjectOn(fleet, Local, KeyOf(w, req));
            var after := ObjectOn(Pass(fleet, w, [s], req, Some(src), faults).fleet, Local, KeyOf(w, req));
            && after.Some? && ["spec", "resourceID"] in MainLane(after)
            && MainLane(after)[["spec", "resourceID"]].value == id
            && forall p | p != ["spec", "resourceID"] && p in MainLane(before) && FIELD_MANAGER !in MainLane(before)[p].owners ::
                 Get(MainLane(after), p) == Get(MainLane(before), p)
  {
    RenderedConfigKeepsResourceId(fleet, w, s, L.GvksIn(list), req, src, id, faults);
    var lane := MainLane(ObjectOn(Pass(fleet, w, [s], req, Some(src), faults).fleet, Local, KeyOf(w, req)));
    assert RESOURCE_ID_PATH in Owned(lane, FIELD_MANAGER);
  }
}
