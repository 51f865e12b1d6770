/** The two apply bodies of a filtered object. Resources have a status
    subresource: the main endpoint ignores `status`, the status endpoint
    ignores everything else. */
module Bodies {
  import Text
  import opened Wrappers
  import opened Json
  import opened FilterFields
  import opened ServerSideApply

  predicate NamesObject(q: Path) {
    q == ["apiVersion"] || q == ["kind"] || q == ["metadata", "name"] || q == ["metadata", "namespace"]
  }

  function ValueAt(j: Json, q: Path): Json {
    match At(j, q) case Some(v) => v case None => Null
  }

  function MainBody(obj: Fields): Body {
    map q | q in LeafPaths(Tree(obj)) && q != [] && q[0] != "status" && !NamesObject(q) :: ValueAt(Tree(obj), q)
  }

  function StatusBody(obj: Fields): Body {
    map q | q in LeafPaths(Tree(obj)) && q != [] && q[0] == "status" :: ValueAt(Tree(obj), q)
  }

  /** Together the two bodies of a projection hold exactly the source's leaves
      at or below the listed fields; outside `metadata` nothing else. */
  lemma BodiesAreSourceLeaves(src: Fields, fields: seq<string>, q: Path)
    requires OrdinaryFields(fields) && Filtered(src, fields).Success?
    requires Ordinary(q)
    ensures var d := Filtered(src, fields).value;
            Get(if q[0] == "status" then StatusBody(d) else MainBody(d), q)
            == if Covered(src, fields, q) && IsLeaf(At(Tree(src), q)) then At(Tree(src), q) else None
  {
    var d := Filtered(src, fields).value;
    FilteredIsProjection(src, fields);
    BodiesAreLeaves(d, q);
    ProjectedLeaf(d, src, fields, q);
  }

  /** The bodies hold the leaves of the object, outside the identity fields all. */
  lemma BodiesAreLeaves(d: Fields, q: Path)
    requires Ordinary(q)
    ensures Get(if q[0] == "status" then StatusBody(d) else MainBody(d), q)
            == if IsLeaf(At(Tree(d), q)) then At(Tree(d), q) else None
  {
    LeafPathsAreLeaves(Tree(d), q);
  }

  lemma ProjectedLeaf(d: Fields, src: Fields, fields: seq<string>, q: Path)
    requires IsProjection(d, src, fields, "spec" in fields) && OrdinaryFields(fields) && Ordinary(q)
    ensures (if IsLeaf(At(Tree(d), q)) then At(Tree(d), q) else None)
            == if Covered(src, fields, q) && IsLeaf(At(Tree(src), q)) then At(Tree(src), q) else None
  {
    assert ProjectedAt(d, src, fields, q);
    if !Covered(src, fields, q) && Above(src, fields, q) {
      var f :| f in fields && Hits(src, f) && q < Text.Split(f, '.');
      ChildBelow(d, src, fields, f, q);
    }
  }

  lemma ChildBelow(d: Fields, src: Fields, fields: seq<string>, f: string, q: Path)
    requires IsProjection(d, src, fields, "spec" in fields) && OrdinaryFields(fields)
    requires f in fields && Hits(src, f) && q < Text.Split(f, '.') && q != []
    ensures !IsLeaf(At(Tree(d), q))
  {
    var p := Text.Split(f, '.');
    NestedIsAt(Tree(src), p);
    assert Covered(src, fields, p) && ProjectedAt(d, src, fields, p);
    assert p == q + p[|q|..];
    AtAppend(Tree(d), q, p[|q|..]);
  }

  /** Of the metadata the main body holds the leaves of the source's labels and
      annotations, exactly when `spec` is listed, and nothing else. */
  lemma MainBodyMetadata(src: Fields, fields: seq<string>, k: string, t: Path)
    requires OrdinaryFields(fields) && Filtered(src, fields).Success?
    ensures var q := ["metadata", k] + t;
            Get(MainBody(Filtered(src, fields).value), q)
            == if && "spec" in fields && (k == "labels" || k == "annotations")
                  && IsStringMap(At(Tree(src), ["metadata", k])) && IsLeaf(At(Tree(src), q))
               then At(Tree(src), q) else None
  {
    MainBodyAt(Filtered(src, fields).value, ["metadata", k] + t);
    NamesMetadata(k, t);
    MetadataLeaf(src, fields, k, t);
  }

  /** apiVersion and kind name the object and are not in the body, nor is the metadata
      as a whole. */
  lemma MainBodyRoots(src: Fields, fields: seq<string>, q: Path)
    requires OrdinaryFields(fields) && Filtered(src, fields).Success?
    requires q != [] && q[0] in RESERVED && !(q[0] == "metadata" && |q| >= 2)
    ensures q !in MainBody(Filtered(src, fields).value)
  {
    MainBodyAt(Filtered(src, fields).value, q);
    NoRootLeaf(src, fields, q);
  }

  lemma NoRootLeaf(src: Fields, fields: seq<string>, q: Path)
    requires OrdinaryFields(fields) && Filtered(src, fields).Success?
    requires q != [] && q[0] in RESERVED && !(q[0] == "metadata" && |q| >= 2)
    ensures IsLeaf(At(Tree(Filtered(src, fields).value), q)) ==> NamesObject(q)
  {
    FilteredIsProjection(src, fields);
    IdentityRoots(src, "spec" in fields, q);
    assert Get(Filtered(src, fields).value, q[0]) == Get(Identity(src, "spec" in fields), q[0]);
  }

  lemma MainBodyAt(d: Fields, q: Path)
    requires q != [] && q[0] in RESERVED
    ensures Get(MainBody(d), q) == if IsLeaf(At(Tree(d), q)) && !NamesObject(q) then At(Tree(d), q) else None
  {
    LeafPathsAreLeaves(Tree(d), q);
  }

  lemma NamesMetadata(k: string, t: Path)
    ensures NamesObject(["metadata", k] + t) <==> t == [] && (k == "name" || k == "namespace")
  {
    var q := ["metadata", k] + t;
    assert q[1] == k && (t == [] ==> q == ["metadata", k]);
  }

  lemma MetadataLeaf(src: Fields, fields: seq<string>, k: string, t: Path)
    requires OrdinaryFields(fields) && Filtered(src, fields).Success?
    ensures var q := ["metadata", k] + t;
            var o, there := At(Tree(Filtered(src, fields).value), q), At(Tree(src), ["metadata", k]);
            (if IsLeaf(o) && !(t == [] && (k == "name" || k == "namespace")) then o else None)
            == if && "spec" in fields && (k == "labels" || k == "annotations") && IsStringMap(there)
                  && IsLeaf(At(Tree(src), q))
               then At(Tree(src), q) else None
  {
    MetadataIsSource(src, fields, k, t);
    AtAppend(Tree(src), ["metadata", k], t);
  }

  /** apiVersion and kind are strings; the metadata is a map with entries or missing. */
  lemma IdentityRoots(src: Fields, full: bool, q: Path)
    requires q != [] && q[0] in RESERVED && !(q[0] == "metadata" && |q| >= 2)
    ensures var v := Get(Identity(src, full), q[0]);
            v.Some? && IsLeaf(At(v.value, q[1..])) ==> NamesObject(q)
  {
    IdentityMetadata(src, full);
    assert |q| == 1 ==> q == [q[0]];
  }

  /** Labels and annotations enter the main body in full mode only. */
  lemma StatusModeHasNoMetadata(src: Fields, fields: seq<string>, q: Path)
    requires OrdinaryFields(fields) && Filtered(src, fields).Success? && "spec" !in fields
    requires q != [] && q[0] in RESERVED
    ensures q !in MainBody(Filtered(src, fields).value)
  {
    var d := Filtered(src, fields).value;
    FilteredIsProjection(src, fields);
    assert Get(d, q[0]) == Get(Identity(src, false), q[0]);
    LeafPathsAreLeaves(Tree(d), q);
    IdentityLeaf(Identity(src, false), Metadata(src, false), q);
  }

  /** A tree of strings two levels deep at most has leaves nowhere deeper. */
  lemma IdentityLeaf(id: Fields, meta: Fields, q: Path)
    requires q != [] && q[0] in RESERVED
    requires forall k | k in RESERVED - {"metadata"} && k in id :: id[k].Str?
    requires "metadata" in id ==> id["metadata"] == Tree(meta) && meta != map[]
    requires forall k | k in meta :: meta[k].Str? && (k == "name" || k == "namespace")
    ensures IsLeaf(At(Tree(id), q)) ==> NamesObject(q)
  {
    if q[0] in id {
      assert At(Tree(id), q) == At(id[q[0]], q[1..]);
      if q[0] == "metadata" && |q| > 1 {
        assert At(Tree(meta), q[1..]) == if q[1] in meta then At(meta[q[1]], q[1..][1..]) else None;
        assert |q| == 2 ==> q == ["metadata", q[1]];
      } else {
        assert |q| == 1 ==> q == [q[0]];
      }
    }
  }

  /** A rule that lists `status` carries the source's status as it is. */
  lemma ListedStatusIsSourceStatus(src: Fields, fields: seq<string>)
    requires OrdinaryFields(fields) && Filtered(src, fields).Success? && "status" in fields
    ensures var d := Filtered(src, fields).value;
            ("status" in d <==> "status" in src) && StatusBody(d) == StatusBody(src)
  {
    var d := Filtered(src, fields).value;
    FilteredIsProjection(src, fields);
    Text.SplitWhole("status", '.');
    NestedIsAt(Tree(src), ["status"]);
    assert At(Tree(src), ["status"]) == Get(src, "status") && At(Tree(d), ["status"]) == Get(d, "status");
    assert ProjectedAt(d, src, fields, ["status"]);
    if "status" in src {
      assert Hits(src, "status");
      forall q: Path | q != [] && q[0] == "status" ensures At(Tree(d), q) == At(Tree(src), q) {
        assert ["status"] <= q;
        assert ProjectedAt(d, src, fields, q);
      }
      SameStatusLeaves(d, src);
    } else {
      forall f | f in fields && Hits(src, f) ensures Text.Split(f, '.')[0] != "status" {
        NestedIsAt(Tree(src), Text.Split(f, '.'));
      }
      forall q: Path | q != [] && q[0] == "status" ensures At(Tree(d), q) == At(Tree(src), q) {
        assert ProjectedAt(d, src, fields, q);
      }
      SameStatusLeaves(d, src);
    }
  }

  lemma SameStatusLeaves(a: Fields, b: Fields)
    requires forall q: Path | q != [] && q[0] == "status" :: At(Tree(a), q) == At(Tree(b), q)
    ensures StatusBody(a) == StatusBody(b)
  {
    forall q ensures Get(StatusBody(a), q) == Get(StatusBody(b), q) {
      LeafPathsAreLeaves(Tree(a), q);
      LeafPathsAreLeaves(Tree(b), q);
    }
    SameMap(StatusBody(a), StatusBody(b));
  }

  /** A rule whose fields all lie outside `status` carries no status. */
  lemma UnlistedStatusIsAbsent(src: Fields, fields: seq<string>)
    requires OrdinaryFields(fields) && Filtered(src, fields).Success?
    requires forall f | f in fields :: Text.Split(f, '.')[0] != "status"
    ensures "status" !in Filtered(src, fields).value
  {
    var d := Filtered(src, fields).value;
    FilteredIsProjection(src, fields);
    assert ProjectedAt(d, src, fields, ["status"]);
    assert At(Tree(d), ["status"]) == Get(d, "status");
  }
}
