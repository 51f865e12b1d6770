/** Unstructured objects: JSON trees and the nested-field helpers of
    k8s.io/apimachinery that the controller reads and writes them with. */
module Json {
  import opened Wrappers

  datatype Json =
    | Null
    | Bool(b: bool)
    | Number(n: int)
    | Str(s: string)
    | List(items: seq<Json>)
    | Tree(fields: Fields)

  type Fields = map<string, Json>

  type Path = seq<string>

  /** What NestedFieldCopy reports: a value, nothing, or a non-map on the way. */
  datatype Lookup = Found(value: Json) | Missing | Mismatch

  function Nested(j: Json, p: Path): Lookup
    decreases |p|
  {
    if p == [] then Found(j)
    else match j
      case Tree(m) => if p[0] in m then Nested(m[p[0]], p[1..]) else Missing
      case Null => Missing
      case _ => Mismatch
  }

  /** SetNestedField: creates the maps on the way, refuses to replace a
      non-map. `None` is the error. */
  function SetNested(m: Fields, p: Path, v: Json): Option<Fields>
    requires p != []
    decreases |p|
  {
    if |p| == 1 then Some(m[p[0] := v])
    else if p[0] !in m then
      match SetNested(map[], p[1..], v)
      case Some(sub) => Some(m[p[0] := Tree(sub)])
      case None => None
    else match m[p[0]]
      case Tree(inner) =>
        (match SetNested(inner, p[1..], v)
         case Some(sub) => Some(m[p[0] := Tree(sub)])
         case None => None)
      case _ => None
  }

  /** The subtree at a path, going through maps only. */
  function At(j: Json, q: Path): Option<Json>
    decreases |q|
  {
    if q == [] then Some(j)
    else if j.Tree? && q[0] in j.fields then At(j.fields[q[0]], q[1..])
    else None
  }

  predicate IsBranch(o: Option<Json>) {
    o.Some? && o.value.Tree?
  }

  predicate IsLeaf(o: Option<Json>) {
    o.Some? && !(o.value.Tree? && o.value.fields != map[])
  }

  /** The paths of the values of a tree: everything that is not a non-empty map. */
  function LeafPaths(j: Json): set<Path> {
    if j.Tree? && j.fields != map[]
    then set k, q | k in j.fields && q in LeafPaths(j.fields[k]) :: [k] + q
    else {[]}
  }

  lemma {:induction false} LeafPathsAreLeaves(j: Json, q: Path)
    ensures q in LeafPaths(j) <==> IsLeaf(At(j, q))
    decreases |q|
  {
    if q != [] && j.Tree? && q[0] in j.fields {
      LeafPathsAreLeaves(j.fields[q[0]], q[1..]);
      assert q == [q[0]] + q[1..];
    }
  }

  lemma {:induction false} AtAppend(j: Json, p: Path, r: Path)
    ensures At(j, p + r) == match At(j, p) { case Some(v) => At(v, r) case None => None }
    decreases |p|
  {
    if p == [] {
      assert p + r == r;
    } else if j.Tree? && p[0] in j.fields {
      AtAppend(j.fields[p[0]], p[1..], r);
      assert (p + r)[1..] == p[1..] + r;
    }
  }

  /** Reading succeeds exactly where the tree has a value. */
  lemma {:induction false} NestedIsAt(j: Json, p: Path)
    ensures Nested(j, p).Found? <==> At(j, p).Some?
    ensures Nested(j, p).Found? ==> At(j, p) == Some(Nested(j, p).value)
    decreases |p|
  {
    if p != [] && j.Tree? && p[0] in j.fields {
      NestedIsAt(j.fields[p[0]], p[1..]);
    }
  }

  /** The first i keys of a path lead to a value that is neither a map nor null. */
  predicate Blocks(j: Json, p: Path, i: int) {
    0 <= i < |p| && At(j, p[..i]).Some? && !At(j, p[..i]).value.Tree? && !At(j, p[..i]).value.Null?
  }

  /** Reading fails exactly when such a value is in the way. */
  lemma {:induction false} NestedMismatch(j: Json, p: Path)
    ensures Nested(j, p).Mismatch? <==>
            exists i :: Blocks(j, p, i)
    decreases |p|
  {
    if p != [] {
      assert At(j, p[..0]) == Some(j);
      if j.Tree? && p[0] in j.fields {
        NestedMismatch(j.fields[p[0]], p[1..]);
        forall i | 0 < i ensures Blocks(j, p, i) <==> Blocks(j.fields[p[0]], p[1..], i - 1) {
          assert i < |p| ==> p[..i][1..] == p[1..][..i - 1];
        }
        if Nested(j, p).Mismatch? {
          var i :| Blocks(j.fields[p[0]], p[1..], i);
          assert Blocks(j, p, i + 1);
        }
      } else if j.Tree? || j.Null? {
        forall i | 0 < i < |p| ensures At(j, p[..i]).None? {
          assert p[..i][0] == p[0];
        }
      } else {
        assert Blocks(j, p, 0);
      }
    }
  }

  /** Writing succeeds unless a value other than a map is in the way. */
  lemma {:induction false} SetNestedSucceeds(m: Fields, p: Path, v: Json)
    requires p != []
    requires forall i | 0 < i < |p| :: At(Tree(m), p[..i]).Some? ==> IsBranch(At(Tree(m), p[..i]))
    ensures SetNested(m, p, v).Some?
    decreases |p|
  {
    if |p| > 1 {
      assert p[..1] == [p[0]] && At(Tree(m), p[..1]) == Get(m, p[0]);
      var sub := if p[0] in m then m[p[0]].fields else map[];
      forall i | 0 < i < |p[1..]| && At(Tree(sub), p[1..][..i]).Some?
        ensures IsBranch(At(Tree(sub), p[1..][..i]))
      {
        assert p[..i + 1][1..] == p[1..][..i];
        if p[0] in m {
          assert At(Tree(m), p[..i + 1]) == At(Tree(sub), p[1..][..i]);
        }
      }
      SetNestedSucceeds(sub, p[1..], v);
    }
  }

  /** What a tree holds after a write, at every path. */
  lemma {:induction false} SetNestedAt(m: Fields, p: Path, v: Json, q: Path)
    requires p != [] && SetNested(m, p, v).Some?
    ensures var t := Tree(SetNested(m, p, v).value);
            if p <= q then At(t, q) == At(v, q[|p|..])
            else if q < p then IsBranch(At(t, q))
            else At(t, q) == At(Tree(m), q)
    decreases |p|
  {
    if q != [] && q[0] == p[0] {
      if |p| > 1 {
        var sub := if p[0] in m then m[p[0]].fields else map[];
        SetNestedAt(sub, p[1..], v, q[1..]);
        assert p <= q <==> p[1..] <= q[1..];
        assert q < p <==> q[1..] < p[1..];
        assert p <= q ==> q[|p|..] == q[1..][|p[1..]|..];
      } else {
        assert p == [q[0]] <= q;
        assert q[|p|..] == q[1..];
      }
    }
  }

  /** Writing the value that is already there changes nothing. */
  lemma {:induction false} SetNestedSame(m: Fields, p: Path, v: Json)
    requires p != [] && At(Tree(m), p) == Some(v)
    ensures SetNested(m, p, v) == Some(m)
    decreases |p|
  {
    assert m[p[0] := m[p[0]]] == m;
    if |p| > 1 {
      SetNestedSame(m[p[0]].fields, p[1..], v);
    } else {
      assert At(Tree(m), p) == At(m[p[0]], []);
    }
  }

  /** Two trees with the same value, or both a map, at every path are equal. */
  lemma {:induction false} SameEverywhere(a: Json, b: Json)
    requires forall q :: At(a, q) == At(b, q) || (IsBranch(At(a, q)) && IsBranch(At(b, q)))
    ensures a == b
  {
    assert At(a, []) == Some(a) && At(b, []) == Some(b);
    if a.Tree? && b.Tree? {
      forall k ensures k in a.fields <==> k in b.fields {
        assert At(a, [k]) == Get(a.fields, k) && At(b, [k]) == Get(b.fields, k);
      }
      forall k | k in a.fields ensures a.fields[k] == b.fields[k] {
        forall q ensures At(a.fields[k], q) == At(b.fields[k], q)
                         || (IsBranch(At(a.fields[k], q)) && IsBranch(At(b.fields[k], q)))
        {
          assert ([k] + q)[1..] == q;
          assert At(a, [k] + q) == At(a.fields[k], q) && At(b, [k] + q) == At(b.fields[k], q);
        }
        SameEverywhere(a.fields[k], b.fields[k]);
      }
      assert a.fields == b.fields;
    }
  }
}
