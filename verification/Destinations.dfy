/** Destination clusters and the API calls the controller makes to them. */
module Destinations {
  import opened Wrappers
  import opened Gvks
  import opened ServerSideApply

  const FIELD_MANAGER: Manager := "krm-syncer"

  datatype ObjectKey = ObjectKey(gvk: Gvk, namespace: string, name: string)

  /** One object: the lane of the main endpoint and that of the status endpoint. */
  datatype DestObject = DestObject(main: Lane, status: Lane)

  datatype Cluster = Cluster(namespaces: set<string>, objects: map<ObjectKey, DestObject>)

  /** The local cluster (pull mode), or a GKE cluster by its resource name. Two
      connections that differ in the endpoint reach the same cluster. */
  datatype Dest = Local | Remote(cluster: string)

  type Fleet = map<Dest, Cluster>

  function On(fleet: Fleet, d: Dest): Cluster {
    if d in fleet then fleet[d] else Cluster({}, map[])
  }

  function ObjectOn(fleet: Fleet, d: Dest, k: ObjectKey): Option<DestObject> {
    Get(On(fleet, d).objects, k)
  }

  /** What becomes of one call: it is carried out, it never arrives, or it is
      carried out but the caller sees an error. */
  datatype Outcome = Done | Refused | LostReply

  datatype Reply = Ok | NotFound | AlreadyExists | Failed

  function Answer(o: Outcome, r: Reply): Reply {
    if o.Done? then r else Failed
  }

  function PatchedMain(obj: Option<DestObject>, body: Body): DestObject {
    match obj
    case Some(x) => x.(main := Apply(x.main, FIELD_MANAGER, body))
    case None => DestObject(Apply(map[], FIELD_MANAGER, body), map[])
  }

  function PatchedStatus(obj: DestObject, body: Body): DestObject {
    obj.(status := Apply(obj.status, FIELD_MANAGER, body))
  }

  function GetObject(c: Cluster, k: ObjectKey, o: Outcome): Reply {
    Answer(o, if k in c.objects then Ok else NotFound)
  }

  function GetNamespace(c: Cluster, ns: string, o: Outcome): Reply {
    Answer(o, if ns in c.namespaces then Ok else NotFound)
  }

  function CreateNamespace(c: Cluster, ns: string, o: Outcome): (Cluster, Reply) {
    if o.Refused? then (c, Failed)
    else if ns in c.namespaces then (c, Answer(o, AlreadyExists))
    else (c.(namespaces := c.namespaces + {ns}), Answer(o, Ok))
  }

  /** Creates or updates; an object needs its namespace. */
  function PatchMain(c: Cluster, k: ObjectKey, body: Body, o: Outcome): (Cluster, Reply) {
    if o.Refused? then (c, Failed)
    else if k.namespace != "" && k.namespace !in c.namespaces then (c, Answer(o, NotFound))
    else (c.(objects := c.objects[k := PatchedMain(Get(c.objects, k), body)]), Answer(o, Ok))
  }

  /** The status endpoint does not create. */
  function PatchStatus(c: Cluster, k: ObjectKey, body: Body, o: Outcome): (Cluster, Reply) {
    if o.Refused? then (c, Failed)
    else if k !in c.objects then (c, Answer(o, NotFound))
    else (c.(objects := c.objects[k := PatchedStatus(c.objects[k], body)]), Answer(o, Ok))
  }

  function Delete(c: Cluster, k: ObjectKey, o: Outcome): (Cluster, Reply) {
    if o.Refused? then (c, Failed)
    else if k !in c.objects then (c, Answer(o, NotFound))
    else (c.(objects := c.objects - {k}), Answer(o, Ok))
  }

  /** A change confined to one object and its namespace, which may appear but
      not vanish. */
  ghost predicate Confined(c: Cluster, c': Cluster, k: ObjectKey) {
    && (forall x | x != k :: Get(c'.objects, x) == Get(c.objects, x))
    && c.namespaces <= c'.namespaces
    && forall ns | ns in c'.namespaces :: ns in c.namespaces || (ns == k.namespace && ns != "")
  }

  lemma CallsAreConfined(c: Cluster, k: ObjectKey, body: Body, o: Outcome)
    ensures Confined(c, c, k)
    ensures Confined(c, Delete(c, k, o).0, k)
    ensures k.namespace != "" ==> Confined(c, CreateNamespace(c, k.namespace, o).0, k)
    ensures Confined(c, PatchMain(c, k, body, o).0, k)
    ensures Confined(c, PatchStatus(c, k, body, o).0, k)
  {
  }

  /** Clients of the destination clusters, over state that calls update in place. */
  class Clients {
    var fleet: Fleet

    constructor (fleet: Fleet)
      ensures this.fleet == fleet
    {
      this.fleet := fleet;
    }

    method Create(d: Dest, ns: string, o: Outcome) returns (r: Reply)
      modifies this
      ensures (On(fleet, d), r) == CreateNamespace(On(old(fleet), d), ns, o)
      ensures fleet == old(fleet)[d := On(fleet, d)]
    {
      var (c, reply) := CreateNamespace(On(fleet, d), ns, o);
      fleet, r := fleet[d := c], reply;
    }

    method Patch(d: Dest, k: ObjectKey, body: Body, o: Outcome) returns (r: Reply)
      modifies this
      ensures (On(fleet, d), r) == PatchMain(On(old(fleet), d), k, body, o)
      ensures fleet == old(fleet)[d := On(fleet, d)]
    {
      var (c, reply) := PatchMain(On(fleet, d), k, body, o);
      fleet, r := fleet[d := c], reply;
    }

    method StatusPatch(d: Dest, k: ObjectKey, body: Body, o: Outcome) returns (r: Reply)
      modifies this
      ensures (On(fleet, d), r) == PatchStatus(On(old(fleet), d), k, body, o)
      ensures fleet == old(fleet)[d := On(fleet, d)]
    {
      var (c, reply) := PatchStatus(On(fleet, d), k, body, o);
      fleet, r := fleet[d := c], reply;
    }

    method Remove(d: Dest, k: ObjectKey, o: Outcome) returns (r: Reply)
      modifies this
      ensures (On(fleet, d), r) == Delete(On(old(fleet), d), k, o)
      ensures fleet == old(fleet)[d := On(fleet, d)]
    {
      var (c, reply) := Delete(On(fleet, d), k, o);
      fleet, r := fleet[d := c], reply;
    }
  }
}
