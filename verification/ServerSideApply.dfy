/** Server-Side Apply as the controller relies on it: forced applies by one
    field manager to one lane of an object (everything but status, or status).
    A lane maps the path of each leaf to its value and the managers owning it. */
module ServerSideApply {
  import opened Wrappers
  import opened Json

  type Manager = string

  datatype Field = Field(value: Json, owners: set<Manager>)

  type Lane = map<Path, Field>

  type Body = map<Path, Json>

  /** A manager gives a field up; a field whose last owner leaves is removed. */
  function Released(f: Option<Field>, m: Manager): Option<Field> {
    match f
    case Some(Field(v, owners)) =>
      if m !in owners then f
      else if owners == {m} then None
      else Some(Field(v, owners - {m}))
    case None => None
  }

  /** A forced write: the same value adds an owner, another value evicts the rest. */
  function Forced(f: Option<Field>, m: Manager, v: Json): Option<Field> {
    if f.Some? && f.value.value == v then Some(Field(v, f.value.owners + {m})) else Some(Field(v, {m}))
  }

  /** What an apply does to one path, given what the body says about it. */
  function Applied(f: Option<Field>, m: Manager, v: Option<Json>): Option<Field> {
    match v case Some(j) => Forced(f, m, j) case None => Released(f, m)
  }

  function Apply(lane: Lane, m: Manager, body: Body): Lane {
    map p | p in lane.Keys + body.Keys && Applied(Get(lane, p), m, Get(body, p)).Some?
      :: Applied(Get(lane, p), m, Get(body, p)).value
  }

  lemma ApplyAt(lane: Lane, m: Manager, body: Body, p: Path)
    ensures Get(Apply(lane, m, body), p) == Applied(Get(lane, p), m, Get(body, p))
  {
  }

  /** Several applies by the same manager, in order. */
  function ApplyAll(lane: Lane, m: Manager, bodies: seq<Body>): Lane {
    if bodies == [] then lane
    else Apply(ApplyAll(lane, m, bodies[..|bodies| - 1]), m, bodies[|bodies| - 1])
  }

  lemma ApplyAllOneMore(lane: Lane, m: Manager, bodies: seq<Body>, b: Body)
    ensures ApplyAll(lane, m, bodies + [b]) == Apply(ApplyAll(lane, m, bodies), m, b)
  {
    assert (bodies + [b])[..|bodies|] == bodies;
  }

  /** The same, seen from one path. */
  function AppliedAll(f: Option<Field>, m: Manager, bodies: seq<Body>, p: Path): Option<Field> {
    if bodies == [] then f
    else Applied(AppliedAll(f, m, bodies[..|bodies| - 1], p), m, Get(bodies[|bodies| - 1], p))
  }

  lemma {:induction false} ApplyAllAt(lane: Lane, m: Manager, bodies: seq<Body>, p: Path)
    ensures Get(ApplyAll(lane, m, bodies), p) == AppliedAll(Get(lane, p), m, bodies, p)
  {
    if bodies != [] {
      var init := bodies[..|bodies| - 1];
      ApplyAllAt(lane, m, init, p);
      ApplyAt(ApplyAll(lane, m, init), m, bodies[|bodies| - 1], p);
    }
  }

  /** The fields a manager owns, with their values. */
  function Owned(lane: Lane, m: Manager): Body {
    map p | p in lane && m in lane[p].owners :: lane[p].value
  }

  /** After a forced apply the manager owns the body and nothing else. */
  lemma ApplyOwns(lane: Lane, m: Manager, body: Body)
    ensures Owned(Apply(lane, m, body), m) == body
  {
    forall p ensures Get(Owned(Apply(lane, m, body), m), p) == Get(body, p) {
      ApplyAt(lane, m, body, p);
    }
    SameMap(Owned(Apply(lane, m, body), m), body);
  }

  lemma SameMap<K(!new), V>(a: map<K, V>, b: map<K, V>)
    requires forall k :: Get(a, k) == Get(b, k)
    ensures a == b
  {
    assert forall k :: k in a <==> Get(a, k).Some?;
    assert forall k :: k in b <==> Get(b, k).Some?;
    assert forall k | k in a :: a[k] == Get(a, k).value == Get(b, k).value == b[k];
  }

  lemma ApplyAllOwns(lane: Lane, m: Manager, bodies: seq<Body>)
    requires bodies != []
    ensures Owned(ApplyAll(lane, m, bodies), m) == bodies[|bodies| - 1]
  {
    ApplyOwns(ApplyAll(lane, m, bodies[..|bodies| - 1]), m, bodies[|bodies| - 1]);
  }

  /** A path that no body names and the manager does not own is left alone,
      value and owners. */
  lemma {:induction false} AppliedAllKeeps(f: Option<Field>, m: Manager, bodies: seq<Body>, p: Path)
    requires forall b | b in bodies :: p !in b
    requires f.Some? ==> m !in f.value.owners
    ensures AppliedAll(f, m, bodies, p) == f
  {
    if bodies != [] {
      AppliedAllKeeps(f, m, bodies[..|bodies| - 1], p);
      assert p !in bodies[|bodies| - 1];
    }
  }

  /** Setting the same value again and again is setting it once. */
  lemma {:induction false} AppliedAllSame(f: Option<Field>, m: Manager, bodies: seq<Body>, p: Path, v: Json)
    requires bodies != [] && forall b | b in bodies :: Get(b, p) == Some(v)
    ensures AppliedAll(f, m, bodies, p) == Forced(f, m, v)
  {
    assert bodies[|bodies| - 1] in bodies;
    var once := Forced(f, m, v).value.owners;
    assert once + {m} == once;
    if |bodies| > 1 {
      AppliedAllSame(f, m, bodies[..|bodies| - 1], p, v);
    } else {
      assert bodies[..0] == [];
    }
  }

  // ---- Repeating a pass ----

  /** One apply absorbs an earlier release. */
  lemma ReleaseThenApply(f: Option<Field>, m: Manager, v: Option<Json>)
    ensures Applied(Released(f, m), m, v) == Applied(f, m, v)
  {
    if f.Some? && m in f.value.owners {
      var o := f.value.owners;
      assert (o - {m}) + {m} == o + {m} == o;
      assert (o - {m}) - {m} == o - {m};
    }
  }

  /** One apply leaves the other owners' share of a field as it was, or ends it. */
  lemma ApplyThenRelease(f: Option<Field>, m: Manager, v: Option<Json>)
    ensures Released(Applied(f, m, v), m) == Released(f, m) || Released(Applied(f, m, v), m).None?
  {
    if f.Some? {
      var o := f.value.owners;
      assert (o + {m}) - {m} == o - {m};
      assert m !in o ==> o - {m} == o;
      assert o + {m} == {m} || o - {m} != {} by {
        if o - {m} == {} {
          assert o <= {m};
        }
      }
      assert (o - {m}) - {m} == o - {m};
    }
  }

  /** What a manager holds when a pass starts is forgotten by its first apply. */
  lemma {:induction false} ReleaseIsAbsorbed(f: Option<Field>, m: Manager, bodies: seq<Body>, p: Path)
    requires bodies != []
    ensures AppliedAll(Released(f, m), m, bodies, p) == AppliedAll(f, m, bodies, p)
  {
    if |bodies| > 1 {
      ReleaseIsAbsorbed(f, m, bodies[..|bodies| - 1], p);
    } else {
      assert bodies[..0] == [];
      ReleaseThenApply(f, m, Get(bodies[0], p));
    }
  }

  /** Up to the manager's own share, a pass keeps a field or loses it for good. */
  lemma {:induction false} SharesOnlyShrink(f: Option<Field>, m: Manager, bodies: seq<Body>, p: Path)
    ensures Released(AppliedAll(f, m, bodies, p), m) == Released(f, m)
            || Released(AppliedAll(f, m, bodies, p), m).None?
  {
    if bodies != [] {
      var init := AppliedAll(f, m, bodies[..|bodies| - 1], p);
      SharesOnlyShrink(f, m, bodies[..|bodies| - 1], p);
      ApplyThenRelease(init, m, Get(bodies[|bodies| - 1], p));
    }
  }

  /** Repeating the same sequence of applies changes nothing, even when the
      bodies set, drop and set the same path again, and whatever values they
      carry. */
  lemma AppliedAllTwice(f: Option<Field>, m: Manager, bodies: seq<Body>, p: Path)
    ensures AppliedAll(AppliedAll(f, m, bodies, p), m, bodies, p) == AppliedAll(f, m, bodies, p)
  {
    if bodies != [] {
      var once := AppliedAll(f, m, bodies, p);
      ReleaseIsAbsorbed(once, m, bodies, p);
      SharesOnlyShrink(f, m, bodies, p);
      if Released(once, m) == Released(f, m) {
        ReleaseIsAbsorbed(f, m, bodies, p);
      } else {
        SharesOnlyShrink(None, m, bodies, p);
      }
    }
  }

  lemma ApplyAllTwice(lane: Lane, m: Manager, bodies: seq<Body>)
    ensures ApplyAll(ApplyAll(lane, m, bodies), m, bodies) == ApplyAll(lane, m, bodies)
  {
    var once := ApplyAll(lane, m, bodies);
    var twice := ApplyAll(once, m, bodies);
    forall p ensures Get(twice, p) == Get(once, p) {
      ApplyAllAt(once, m, bodies, p);
      ApplyAllAt(lane, m, bodies, p);
      AppliedAllTwice(Get(lane, p), m, bodies, p);
    }
    SameMap(twice, once);
  }
}
