/** filterFields: the projection of a source object onto the fields a rule lists. */
module FilterFields {
  import opened Wrappers
  import opened Text
  import opened Json
  import opened Gvks

  const RESERVED: set<string> := {"apiVersion", "kind", "metadata"}

  datatype FilterError = ReadError(field: string) | WriteError(field: string)

  /** A string field of an unstructured object, "" when it is not there. */
  function StringAt(src: Fields, p: Path): string {
    match Nested(Tree(src), p)
    case Found(Str(s)) => s
    case _ => ""
  }

  function GvkOf(src: Fields): Gvk {
    match ParseGroupVersion(StringAt(src, ["apiVersion"]))
    case Some(gv) => Gvk(gv.group, gv.version, StringAt(src, ["kind"]))
    case None => Gvk("", "", "")
  }

  function NameOf(src: Fields): string {
    StringAt(src, ["metadata", "name"])
  }

  function NamespaceOf(src: Fields): string {
    StringAt(src, ["metadata", "namespace"])
  }

  /** Labels or annotations: a map of strings only, otherwise nothing. */
  function StringMapAt(src: Fields, p: Path): Option<Json> {
    match Nested(Tree(src), p)
    case Found(Tree(m)) => if forall k | k in m :: m[k].Str? then Some(Tree(m)) else None
    case _ => None
  }

  function Entry(k: string, v: Option<Json>): Fields {
    match v case Some(j) => map[k := j] case None => map[]
  }

  function NonEmpty(s: string): Option<Json> {
    if s == "" then None else Some(Str(s))
  }

  predicate IsFullSync(fields: seq<string>) {
    exists i | 0 <= i < |fields| :: fields[i] == "spec"
  }

  function Metadata(src: Fields, full: bool): Fields {
    Entry("name", NonEmpty(NameOf(src))) + Entry("namespace", NonEmpty(NamespaceOf(src)))
    + (if full then
         Entry("labels", StringMapAt(src, ["metadata", "labels"]))
         + Entry("annotations", StringMapAt(src, ["metadata", "annotations"]))
       else map[])
  }

  /** What the projection starts from: the identity of the source and, in full
      mode, its labels and annotations. */
  function Identity(src: Fields, full: bool): Fields {
    var gvk := GvkOf(src);
    var meta := Metadata(src, full);
    map["apiVersion" := Str(RenderGroupVersion(GroupVersion(gvk.group, gvk.version))), "kind" := Str(gvk.kind)]
    + (if meta == map[] then map[] else map["metadata" := Tree(meta)])
  }

  /** Copies one field from the source. */
  function CopyField(dest: Fields, src: Fields, field: string): Result<Fields, FilterError> {
    match Nested(Tree(src), Split(field, '.'))
    case Mismatch => Failure(ReadError(field))
    case Missing => Success(dest)
    case Found(v) =>
      match SetNested(dest, Split(field, '.'), v)
      case Some(d) => Success(d)
      case None => Failure(WriteError(field))
  }

  function CopyFields(dest: Fields, src: Fields, fields: seq<string>): Result<Fields, FilterError>
    decreases |fields|
  {
    if fields == [] then Success(dest)
    else match CopyField(dest, src, fields[0])
      case Success(d) => CopyFields(d, src, fields[1..])
      case Failure(e) => Failure(e)
  }

  function Filtered(src: Fields, fields: seq<string>): Result<Fields, FilterError> {
    CopyFields(Identity(src, IsFullSync(fields)), src, fields)
  }

  method FilterFields(src: Fields, fields: seq<string>) returns (r: Result<Fields, FilterError>)
    ensures r == Filtered(src, fields)
  {
    var dest := Identity(src, IsFullSync(fields));
    for i := 0 to |fields|
      invariant CopyFields(dest, src, fields[i..]) == Filtered(src, fields)
    {
      assert fields[i..][1..] == fields[i + 1..];
      var parts := Split(fields[i], '.');
      match Nested(Tree(src), parts)
      case Mismatch =>
        return Failure(ReadError(fields[i]));
      case Missing =>
      case Found(v) =>
        var updated := SetNested(dest, parts, v);
        if updated.None? {
          return Failure(WriteError(fields[i]));
        }
        dest := updated.value;
    }
    r := Success(dest);
  }

  // ---- The independent description of the result, path by path ----

  /** The source has a value at this listed field. */
  predicate Hits(src: Fields, field: string) {
    At(Tree(src), Split(field, '.')).Some?
  }

  /** A value that is neither a map nor null stands in the way of this listed field. */
  ghost predicate IsUnreadable(src: Fields, field: string) {
    exists i :: Blocks(Tree(src), Split(field, '.'), i)
  }

  lemma ReadsAre(src: Fields, field: string)
    ensures Hits(src, field) <==> Nested(Tree(src), Split(field, '.')).Found?
    ensures IsUnreadable(src, field) <==> Nested(Tree(src), Split(field, '.')).Mismatch?
  {
    NestedIsAt(Tree(src), Split(field, '.'));
    NestedMismatch(Tree(src), Split(field, '.'));
  }

  /** The path lies at or below a listed field that the source has. */
  ghost predicate Covered(src: Fields, fields: seq<string>, q: Path) {
    exists f | f in fields :: Hits(src, f) && Split(f, '.') <= q
  }

  /** The path lies strictly above a listed field that the source has. */
  ghost predicate Above(src: Fields, fields: seq<string>, q: Path) {
    exists f | f in fields :: Hits(src, f) && q < Split(f, '.')
  }

  predicate Ordinary(q: Path) {
    q != [] && q[0] !in RESERVED
  }

  predicate OrdinaryFields(fields: seq<string>) {
    forall f | f in fields :: Ordinary(Split(f, '.'))
  }

  /** `dest` holds the source value at or below every listed field the source
      has, maps on the way there, and nothing else. */
  ghost predicate ProjectedAt(dest: Fields, src: Fields, fields: seq<string>, q: Path) {
    if Covered(src, fields, q) then At(Tree(dest), q) == At(Tree(src), q)
    else if Above(src, fields, q) then IsBranch(At(Tree(dest), q))
    else At(Tree(dest), q).None?
  }

  ghost predicate IsProjection(dest: Fields, src: Fields, fields: seq<string>, full: bool) {
    && (forall q | Ordinary(q) :: ProjectedAt(dest, src, fields, q))
    && (forall k | k in RESERVED :: Get(dest, k) == Get(Identity(src, full), k))
  }

  lemma IdentityIsProjection(src: Fields, full: bool)
    ensures IsProjection(Identity(src, full), src, [], full)
  {
    forall q | Ordinary(q) ensures ProjectedAt(Identity(src, full), src, [], q) {
      assert q[0] !in Identity(src, full);
    }
  }

  /** Copying one field extends the projection by that field; it never finds
      anything but a map in its way. */
  lemma {:induction false} CopyFieldExtends(dest: Fields, src: Fields, fields: seq<string>, full: bool, f: string)
    requires IsProjection(dest, src, fields, full)
    requires Ordinary(Split(f, '.'))
    ensures var r := CopyField(dest, src, f);
            if IsUnreadable(src, f) then r == Failure(ReadError(f))
            else r.Success? && IsProjection(r.value, src, fields + [f], full)
  {
    var p := Split(f, '.');
    ReadsAre(src, f);
    if Nested(Tree(src), p).Found? {
      WriteIsClear(dest, src, fields, full, p);
      var v := Nested(Tree(src), p).value;
      SetNestedSucceeds(dest, p, v);
      var d := SetNested(dest, p, v).value;
      forall q | Ordinary(q) ensures ProjectedAt(d, src, fields + [f], q) {
        assert ProjectedAt(dest, src, fields, q);
        AddedField(src, fields, f, q);
        WrittenAt(dest, src, p, q);
        if q < p && Covered(src, fields, q) {
          RewriteIsSame(dest, src, p, q);
        }
      }
      forall k | k in RESERVED ensures Get(d, k) == Get(dest, k) {
        SetNestedAt(dest, p, v, [k]);
        assert At(Tree(d), [k]) == Get(d, k) && At(Tree(dest), [k]) == Get(dest, k);
      }
    } else if Nested(Tree(src), p).Missing? {
      forall q | Ordinary(q) ensures ProjectedAt(dest, src, fields + [f], q) {
        assert ProjectedAt(dest, src, fields, q);
        AddedField(src, fields, f, q);
      }
    }
  }

  lemma WriteIsClear(dest: Fields, src: Fields, fields: seq<string>, full: bool, p: Path)
    requires IsProjection(dest, src, fields, full) && Ordinary(p) && Nested(Tree(src), p).Found?
    ensures forall i | 0 < i < |p| :: At(Tree(dest), p[..i]).Some? ==> IsBranch(At(Tree(dest), p[..i]))
  {
    forall i | 0 < i < |p| && At(Tree(dest), p[..i]).Some? ensures IsBranch(At(Tree(dest), p[..i])) {
      AboveIsClear(dest, src, fields, full, p, p[..i]);
    }
  }

  lemma AboveIsClear(dest: Fields, src: Fields, fields: seq<string>, full: bool, p: Path, q: Path)
    requires IsProjection(dest, src, fields, full) && Nested(Tree(src), p).Found?
    requires Ordinary(q) && q < p && At(Tree(dest), q).Some?
    ensures IsBranch(At(Tree(dest), q))
  {
    NestedIsAt(Tree(src), p);
    PrefixIsBranch(Tree(src), p, q);
    assert ProjectedAt(dest, src, fields, q);
  }

  /** Writing a source value at `p`: the source value at and below, maps above,
      unchanged elsewhere. */
  lemma WrittenAt(dest: Fields, src: Fields, p: Path, q: Path)
    requires p != [] && Nested(Tree(src), p).Found? && SetNested(dest, p, Nested(Tree(src), p).value).Some?
    ensures var d := SetNested(dest, p, Nested(Tree(src), p).value).value;
            if p <= q then At(Tree(d), q) == At(Tree(src), q)
            else if q < p then IsBranch(At(Tree(d), q)) && IsBranch(At(Tree(src), q))
            else At(Tree(d), q) == At(Tree(dest), q)
  {
    NestedIsAt(Tree(src), p);
    SetNestedAt(dest, p, Nested(Tree(src), p).value, q);
    if p <= q {
      assert q == p + q[|p|..];
      AtAppend(Tree(src), p, q[|p|..]);
    } else if q < p {
      PrefixIsBranch(Tree(src), p, q);
    }
  }

  lemma AddedField(src: Fields, fields: seq<string>, f: string, q: Path)
    ensures Covered(src, fields + [f], q) <==> Covered(src, fields, q) || (Hits(src, f) && Split(f, '.') <= q)
    ensures Above(src, fields + [f], q) <==> Above(src, fields, q) || (Hits(src, f) && q < Split(f, '.'))
  {
    assert forall g :: g in fields + [f] <==> g in fields || g == f;
  }

  lemma PrefixIsBranch(j: Json, p: Path, q: Path)
    requires At(j, p).Some? && q < p
    ensures IsBranch(At(j, q))
  {
    assert p == q + p[|q|..];
    AtAppend(j, q, p[|q|..]);
  }

  lemma RewriteIsSame(dest: Fields, src: Fields, p: Path, q: Path)
    requires p != [] && Nested(Tree(src), p).Found? && q < p && At(Tree(dest), q) == At(Tree(src), q)
    ensures SetNested(dest, p, Nested(Tree(src), p).value) == Some(dest)
  {
    NestedIsAt(Tree(src), p);
    assert p == q + p[|q|..];
    AtAppend(Tree(src), q, p[|q|..]);
    AtAppend(Tree(dest), q, p[|q|..]);
    SetNestedSame(dest, p, Nested(Tree(src), p).value);
  }

  ghost predicate AnyUnreadable(src: Fields, fields: seq<string>) {
    exists f :: f in fields && IsUnreadable(src, f)
  }

  lemma UnreadableFirst(src: Fields, fields: seq<string>)
    requires fields != []
    ensures AnyUnreadable(src, fields) <==> IsUnreadable(src, fields[0]) || AnyUnreadable(src, fields[1..])
  {
    assert forall f :: f in fields <==> f == fields[0] || f in fields[1..];
  }

  lemma {:induction false} CopyFieldsExtend(dest: Fields, src: Fields, done: seq<string>, todo: seq<string>, full: bool)
    requires IsProjection(dest, src, done, full)
    requires OrdinaryFields(todo)
    ensures var r := CopyFields(dest, src, todo);
            if AnyUnreadable(src, todo) then r.Failure? && r.error.ReadError? && r.error.field in todo
            else r.Success? && IsProjection(r.value, src, done + todo, full)
    decreases |todo|
  {
    if todo == [] {
      assert done + todo == done;
    } else {
      var f, rest := todo[0], todo[1..];
      UnreadableFirst(src, todo);
      CopyFieldExtends(dest, src, done, full, f);
      if !IsUnreadable(src, f) {
        CopyFieldsExtend(CopyField(dest, src, f).value, src, done + [f], rest, full);
        assert done + [f] + rest == done + todo;
      }
    }
  }

  /** The i-th field is the first that cannot be read. */
  ghost predicate IsFirstUnreadable(src: Fields, fields: seq<string>, i: nat) {
    i < |fields| && IsUnreadable(src, fields[i]) && forall n | 0 <= n < i :: !IsUnreadable(src, fields[n])
  }

  lemma {:induction false} FailsAtFirst(dest: Fields, src: Fields, done: seq<string>, todo: seq<string>, full: bool)
    returns (i: nat)
    requires IsProjection(dest, src, done, full) && OrdinaryFields(todo) && AnyUnreadable(src, todo)
    ensures IsFirstUnreadable(src, todo, i) && CopyFields(dest, src, todo) == Failure(ReadError(todo[i]))
    decreases |todo|
  {
    var f, rest := todo[0], todo[1..];
    UnreadableFirst(src, todo);
    CopyFieldExtends(dest, src, done, full, f);
    if IsUnreadable(src, f) {
      i := 0;
    } else {
      var n := FailsAtFirst(CopyField(dest, src, f).value, src, done + [f], rest, full);
      i := n + 1;
    }
  }

  /** Exact projection: for every list of fields outside the identity fields,
      filterFields fails exactly when one of them cannot be read from the
      source, with the error of the first, never on writing, and otherwise returns the
      projection. */
  lemma FilteredIsProjection(src: Fields, fields: seq<string>)
    requires OrdinaryFields(fields)
    ensures Filtered(src, fields).Failure? <==> exists f :: f in fields && IsUnreadable(src, f)
    ensures Filtered(src, fields).Failure? ==>
              exists i: nat :: IsFirstUnreadable(src, fields, i) && Filtered(src, fields) == Failure(ReadError(fields[i]))
    ensures Filtered(src, fields).Success? ==>
              IsProjection(Filtered(src, fields).value, src, fields, "spec" in fields)
  {
    var id, full := Identity(src, IsFullSync(fields)), IsFullSync(fields);
    IdentityIsProjection(src, full);
    CopyFieldsExtend(id, src, [], fields, full);
    assert [] + fields == fields;
    if AnyUnreadable(src, fields) {
      var i := FailsAtFirst(id, src, [], fields, full);
    }
  }

  /** The description leaves no freedom: the projection is one tree. */
  lemma ProjectionIsUnique(a: Fields, b: Fields, src: Fields, fields: seq<string>, full: bool)
    requires IsProjection(a, src, fields, full) && IsProjection(b, src, fields, full)
    ensures a == b
  {
    forall q ensures At(Tree(a), q) == At(Tree(b), q) || (IsBranch(At(Tree(a), q)) && IsBranch(At(Tree(b), q))) {
      if Ordinary(q) {
        assert ProjectedAt(a, src, fields, q) && ProjectedAt(b, src, fields, q);
      } else if q != [] {
        assert Get(a, q[0]) == Get(b, q[0]);
      }
    }
    SameEverywhere(Tree(a), Tree(b));
  }

  /** Only the set of listed fields matters: not their order, not repetition. */
  lemma FilteredIgnoresOrder(src: Fields, f1: seq<string>, f2: seq<string>)
    requires OrdinaryFields(f1)
    requires forall f :: f in f1 <==> f in f2
    ensures Filtered(src, f1).Success? <==> Filtered(src, f2).Success?
    ensures Filtered(src, f1).Success? ==> Filtered(src, f1) == Filtered(src, f2)
  {
    FilteredIsProjection(src, f1);
    FilteredIsProjection(src, f2);
    if Filtered(src, f1).Success? {
      var b := Filtered(src, f2).value;
      forall q | Ordinary(q) ensures ProjectedAt(b, src, f1, q) {
        assert ProjectedAt(b, src, f2, q);
        assert Covered(src, f1, q) <==> Covered(src, f2, q);
        assert Above(src, f1, q) <==> Above(src, f2, q);
      }
      ProjectionIsUnique(Filtered(src, f1).value, b, src, f1, "spec" in f1);
    }
  }

  /** The identity fields of the result are those of the source. */
  lemma FilteredKeepsIdentity(src: Fields, fields: seq<string>)
    requires OrdinaryFields(fields)
    requires Filtered(src, fields).Success?
    ensures var d := Filtered(src, fields).value;
            GvkOf(d) == GvkOf(src) && NameOf(d) == NameOf(src) && NamespaceOf(d) == NamespaceOf(src)
  {
    FilteredIsProjection(src, fields);
    var d := Filtered(src, fields).value;
    var id := Identity(src, IsFullSync(fields));
    forall k | k in RESERVED ensures Get(d, k) == Get(id, k) {
    }
    SameIdentity(d, id);
    IdentityReads(src, IsFullSync(fields));
  }

  lemma SameIdentity(a: Fields, b: Fields)
    requires forall k | k in RESERVED :: Get(a, k) == Get(b, k)
    ensures GvkOf(a) == GvkOf(b) && NameOf(a) == NameOf(b) && NamespaceOf(a) == NamespaceOf(b)
  {
    SameString(a, b, "apiVersion", []);
    SameString(a, b, "kind", []);
    SameString(a, b, "metadata", ["name"]);
    SameString(a, b, "metadata", ["namespace"]);
  }

  lemma SameString(a: Fields, b: Fields, k: string, p: Path)
    requires Get(a, k) == Get(b, k)
    ensures StringAt(a, [k] + p) == StringAt(b, [k] + p)
  {
    assert ([k] + p)[1..] == p;
  }

  lemma MetadataNames(src: Fields, full: bool)
    ensures var meta := Metadata(src, full);
            Get(meta, "name") == NonEmpty(NameOf(src)) && Get(meta, "namespace") == NonEmpty(NamespaceOf(src))
  {
  }

  lemma MetadataMaps(src: Fields)
    ensures var meta := Metadata(src, true);
            && Get(meta, "labels") == StringMapAt(src, ["metadata", "labels"])
            && Get(meta, "annotations") == StringMapAt(src, ["metadata", "annotations"])
  {
  }

  lemma IdentityMetadata(src: Fields, full: bool)
    ensures Get(Identity(src, full), "metadata")
            == if Metadata(src, full) == map[] then None else Some(Tree(Metadata(src, full)))
  {
  }

  lemma IdentityReads(src: Fields, full: bool)
    ensures var id := Identity(src, full);
            GvkOf(id) == GvkOf(src) && NameOf(id) == NameOf(src) && NamespaceOf(id) == NamespaceOf(src)
  {
    IdentityReadsGvk(src, full);
    var id, meta := Identity(src, full), Metadata(src, full);
    MetadataNames(src, full);
    IdentityMetadata(src, full);
    MetadataString(id, meta, "name", NameOf(src));
    MetadataString(id, meta, "namespace", NamespaceOf(src));
  }

  lemma IdentityReadsGvk(src: Fields, full: bool)
    ensures GvkOf(Identity(src, full)) == GvkOf(src)
  {
    var id := Identity(src, full);
    var gvk := GvkOf(src);
    var gv := GroupVersion(gvk.group, gvk.version);
    RootString(id, "apiVersion", RenderGroupVersion(gv));
    RootString(id, "kind", gvk.kind);
    if ParseGroupVersion(StringAt(src, ["apiVersion"])).Some? {
      ParseAfterRender(StringAt(src, ["apiVersion"]));
    }
  }

  lemma RootString(m: Fields, k: string, s: string)
    requires Get(m, k) == Some(Str(s))
    ensures StringAt(m, [k]) == s
  {
    assert Nested(Tree(m), [k]) == Nested(m[k], [k][1..]) == Found(Str(s));
  }

  lemma MetadataString(m: Fields, meta: Fields, k: string, s: string)
    requires Get(m, "metadata") == if meta == map[] then None else Some(Tree(meta))
    requires Get(meta, k) == NonEmpty(s)
    ensures StringAt(m, ["metadata", k]) == s
  {
    assert ["metadata", k][1..] == [k];
    if meta != map[] {
      assert Nested(Tree(m), ["metadata", k]) == Nested(Tree(meta), [k]);
      if s != "" {
        RootString(meta, k, s);
      }
    }
  }

  // ---- Any list of fields ----

  lemma StringAtIsAt(m: Fields, q: Path)
    ensures StringAt(m, q) == match At(Tree(m), q) { case Some(Str(s)) => s case _ => "" }
  {
    NestedIsAt(Tree(m), q);
  }

  /** A copied field leaves a string as it was or makes it the source's. */
  lemma CopyFieldStrings(dest: Fields, src: Fields, field: string, q: Path)
    requires CopyField(dest, src, field).Success?
    ensures StringAt(CopyField(dest, src, field).value, q) in {StringAt(dest, q), StringAt(src, q)}
  {
    var p := Split(field, '.');
    if Nested(Tree(src), p).Found? {
      WrittenAt(dest, src, p, q);
      StringAtIsAt(dest, q);
      StringAtIsAt(src, q);
      StringAtIsAt(CopyField(dest, src, field).value, q);
    }
  }

  lemma {:induction false} CopyFieldsStrings(dest: Fields, src: Fields, fields: seq<string>, q: Path)
    requires CopyFields(dest, src, fields).Success?
    ensures StringAt(CopyFields(dest, src, fields).value, q) in {StringAt(dest, q), StringAt(src, q)}
    decreases |fields|
  {
    if fields != [] {
      CopyFieldStrings(dest, src, fields[0], q);
      CopyFieldsStrings(CopyField(dest, src, fields[0]).value, src, fields[1..], q);
    }
  }

  /** Whatever the list names, apiVersion, kind and metadata included: as long as
      the source's apiVersion can be parsed, the result has the GVK, name and
      namespace of the source. */
  lemma AnyFieldsKeepIdentity(src: Fields, fields: seq<string>)
    requires ParseGroupVersion(StringAt(src, ["apiVersion"])).Some?
    requires Filtered(src, fields).Success?
    ensures var d := Filtered(src, fields).value;
            GvkOf(d) == GvkOf(src) && NameOf(d) == NameOf(src) && NamespaceOf(d) == NamespaceOf(src)
  {
    var id := Identity(src, IsFullSync(fields));
    IdentityReads(src, IsFullSync(fields));
    IdentityStrings(src, IsFullSync(fields));
    CopyFieldsStrings(id, src, fields, ["apiVersion"]);
    CopyFieldsStrings(id, src, fields, ["kind"]);
    CopyFieldsStrings(id, src, fields, ["metadata", "name"]);
    CopyFieldsStrings(id, src, fields, ["metadata", "namespace"]);
  }

  lemma IdentityStrings(src: Fields, full: bool)
    requires ParseGroupVersion(StringAt(src, ["apiVersion"])).Some?
    ensures var id := Identity(src, full);
            && ParseGroupVersion(StringAt(id, ["apiVersion"])) == ParseGroupVersion(StringAt(src, ["apiVersion"]))
            && StringAt(id, ["kind"]) == StringAt(src, ["kind"])
  {
    var id, gvk := Identity(src, full), GvkOf(src);
    RootString(id, "apiVersion", RenderGroupVersion(GroupVersion(gvk.group, gvk.version)));
    RootString(id, "kind", gvk.kind);
    ParseAfterRender(StringAt(src, ["apiVersion"]));
  }

  // ---- Preparing the object for the destination ----

  const SERVER_FIELDS: set<string> := {"resourceVersion", "uid", "generation", "managedFields"}

  /** The metadata that the API server sets is cleared before applying. */
  function Prepared(obj: Fields): Fields {
    if "metadata" in obj && obj["metadata"].Tree?
    then obj["metadata" := Tree(obj["metadata"].fields - SERVER_FIELDS)]
    else obj
  }

  /** Nothing but the four server-set entries of the metadata is cleared. */
  lemma PreparedEntry(obj: Fields, k: string, t: Path)
    ensures At(Tree(Prepared(obj)), ["metadata", k] + t)
            == if k in {"resourceVersion", "uid", "generation", "managedFields"} then None
               else At(Tree(obj), ["metadata", k] + t)
  {
    assert ["metadata", k] + t == ["metadata"] + ([k] + t);
    AtEntry(obj, "metadata", [k] + t);
    AtEntry(Prepared(obj), "metadata", [k] + t);
    if "metadata" in obj && obj["metadata"].Tree? {
      AtEntry(obj["metadata"].fields, k, t);
      AtEntry(obj["metadata"].fields - SERVER_FIELDS, k, t);
    }
  }

  lemma PreparedKeepsIdentity(obj: Fields)
    ensures GvkOf(Prepared(obj)) == GvkOf(obj)
    ensures NameOf(Prepared(obj)) == NameOf(obj) && NamespaceOf(Prepared(obj)) == NamespaceOf(obj)
  {
    var d := Prepared(obj);
    SameString(d, obj, "apiVersion", []);
    SameString(d, obj, "kind", []);
    PreparedString(obj, "name");
    PreparedString(obj, "namespace");
  }

  lemma PreparedString(obj: Fields, k: string)
    requires k !in SERVER_FIELDS
    ensures StringAt(Prepared(obj), ["metadata", k]) == StringAt(obj, ["metadata", k])
  {
    assert ["metadata", k][1..] == [k];
    if "metadata" in obj && obj["metadata"].Tree? {
      var m := obj["metadata"].fields;
      var m' := m - SERVER_FIELDS;
      assert Nested(Tree(obj), ["metadata", k]) == Nested(Tree(m), [k]);
      assert Nested(Tree(Prepared(obj)), ["metadata", k]) == Nested(Tree(m'), [k]);
      assert Get(m', k) == Get(m, k);
      assert [k][1..] == [];
    }
  }

  /** A projection never holds such metadata, so there is nothing to clear. */
  lemma ProjectionIsPrepared(src: Fields, fields: seq<string>)
    requires OrdinaryFields(fields) && Filtered(src, fields).Success?
    ensures Prepared(Filtered(src, fields).value) == Filtered(src, fields).value
  {
    var d, full := Filtered(src, fields).value, IsFullSync(fields);
    FilteredIsProjection(src, fields);
    IdentityMetadata(src, full);
    assert Get(d, "metadata") == Get(Identity(src, full), "metadata");
    MetadataKeys(src, full);
    NothingToClear(d, Metadata(src, full));
  }

  lemma NothingToClear(d: Fields, meta: Fields)
    requires Get(d, "metadata") == if meta == map[] then None else Some(Tree(meta))
    requires forall k | k in meta :: k !in SERVER_FIELDS
    ensures Prepared(d) == d
  {
    assert meta - SERVER_FIELDS == meta;
    assert "metadata" in d ==> d["metadata" := d["metadata"]] == d;
  }

  lemma MetadataKeys(src: Fields, full: bool)
    ensures forall k | k in Metadata(src, full) :: k !in SERVER_FIELDS
  {
  }

  /** Filtering the projection again gives the projection. */
  lemma FilteredIsIdempotent(src: Fields, fields: seq<string>)
    requires OrdinaryFields(fields)
    requires Filtered(src, fields).Success?
    ensures Filtered(Filtered(src, fields).value, fields) == Filtered(src, fields)
  {
    var d := Filtered(src, fields).value;
    var full := IsFullSync(fields);
    FilteredIsProjection(src, fields);
    FilteredIsProjection(d, fields);
    forall f | f in fields ensures !IsUnreadable(d, f) {
      ProjectionReads(d, src, fields, full, f);
    }
    forall q | Ordinary(q) ensures ProjectedAt(d, d, fields, q) {
      assert ProjectedAt(d, src, fields, q);
      if Above(d, fields, q) {
        var f :| f in fields && Hits(d, f) && q < Split(f, '.');
        PrefixIsBranch(Tree(d), Split(f, '.'), q);
      }
      forall f | f in fields && Hits(src, f) ensures Hits(d, f) {
        ProjectionReads(d, src, fields, full, f);
      }
    }
    IdentityOfFiltered(src, fields);
    ProjectionIsUnique(d, Filtered(d, fields).value, d, fields, full);
  }

  lemma ProjectionReads(d: Fields, src: Fields, fields: seq<string>, full: bool, f: string)
    requires IsProjection(d, src, fields, full) && OrdinaryFields(fields) && f in fields
    requires !IsUnreadable(src, f)
    ensures !IsUnreadable(d, f)
    ensures Hits(src, f) ==> Hits(d, f)
  {
    var p := Split(f, '.');
    assert ProjectedAt(d, src, fields, p);
    forall i ensures !Blocks(Tree(d), p, i) {
      NotBlocked(d, src, fields, full, p, i);
    }
  }

  /** A projection puts nothing in the way of a path that the source leaves open. */
  lemma NotBlocked(d: Fields, src: Fields, fields: seq<string>, full: bool, p: Path, i: int)
    requires IsProjection(d, src, fields, full) && Ordinary(p) && !Blocks(Tree(src), p, i)
    ensures !Blocks(Tree(d), p, i)
  {
    if 0 < i < |p| {
      assert Ordinary(p[..i]);
      assert ProjectedAt(d, src, fields, p[..i]);
    }
  }

  lemma IdentityOfFiltered(src: Fields, fields: seq<string>)
    requires OrdinaryFields(fields)
    requires Filtered(src, fields).Success?
    ensures Identity(Filtered(src, fields).value, IsFullSync(fields)) == Identity(src, IsFullSync(fields))
  {
    var d := Filtered(src, fields).value;
    var full := IsFullSync(fields);
    FilteredKeepsIdentity(src, fields);
    if full {
      FilteredIsProjection(src, fields);
      IdentityMetadata(src, true);
      MetadataMaps(src);
      MetadataMapKept(d, Metadata(src, true), src, "labels");
      MetadataMapKept(d, Metadata(src, true), src, "annotations");
    }
  }

  lemma MetadataMapKept(d: Fields, meta: Fields, src: Fields, k: string)
    requires Get(d, "metadata") == if meta == map[] then None else Some(Tree(meta))
    requires Get(meta, k) == StringMapAt(src, ["metadata", k])
    ensures StringMapAt(d, ["metadata", k]) == StringMapAt(src, ["metadata", k])
  {
    assert ["metadata", k][1..] == [k];
    if meta != map[] {
      assert Nested(Tree(d), ["metadata", k]) == Nested(Tree(meta), [k]);
      if k in meta {
        assert Nested(Tree(meta), [k]) == Nested(meta[k], [k][1..]) == Found(meta[k]);
      }
    }
  }

  // ---- The identity, spelled out ----

  predicate IsStringMap(o: Option<Json>) {
    o.Some? && o.value.Tree? && forall k | k in o.value.fields :: o.value.fields[k].Str?
  }

  /** Which entries of the metadata a projection carries: name and namespace if they
      are not empty; labels and annotations, in full mode, if they map to strings. */
  predicate IsCarried(k: string, full: bool, there: Option<Json>) {
    if k == "name" || k == "namespace" then there.Some? && there.value.Str? && there.value.s != ""
    else (k == "labels" || k == "annotations") && full && IsStringMap(there)
  }

  lemma MetadataEntry(src: Fields, full: bool, k: string)
    ensures var there := At(Tree(src), ["metadata", k]);
            Get(Metadata(src, full), k) == if IsCarried(k, full, there) then there else None
  {
    NestedIsAt(Tree(src), ["metadata", k]);
    if k in {"name", "namespace"} {
      MetadataNames(src, full);
    } else if k in {"labels", "annotations"} && full {
      MetadataMaps(src);
    }
  }

  lemma AtEntry(m: Fields, k: string, t: Path)
    ensures At(Tree(m), [k] + t) == match Get(m, k) { case Some(v) => At(v, t) case None => None }
  {
    assert ([k] + t)[1..] == t;
  }

  /** The metadata of a projection is the source's, entry by entry, as far as it is
      carried: labels and annotations exactly when `spec` is listed. */
  lemma MetadataIsSource(src: Fields, fields: seq<string>, k: string, t: Path)
    requires OrdinaryFields(fields) && Filtered(src, fields).Success?
    ensures At(Tree(Filtered(src, fields).value), ["metadata", k] + t)
            == if IsCarried(k, "spec" in fields, At(Tree(src), ["metadata", k])) then At(Tree(src), ["metadata", k] + t)
               else None
  {
    var d, full := Filtered(src, fields).value, "spec" in fields;
    var meta := Metadata(src, full);
    FilteredIsProjection(src, fields);
    IdentityMetadata(src, full);
    assert Get(d, "metadata") == Get(Identity(src, full), "metadata");
    MetadataEntry(src, full, k);
    assert ["metadata", k] + t == ["metadata"] + ([k] + t);
    AtEntry(d, "metadata", [k] + t);
    AtEntry(meta, k, t);
    AtAppend(Tree(src), ["metadata", k], t);
  }

  /** apiVersion and kind are the source's, as they are written there. */
  lemma GroupAndKindAreSource(src: Fields, fields: seq<string>)
    requires OrdinaryFields(fields) && Filtered(src, fields).Success?
    requires var v := At(Tree(src), ["apiVersion"]);
             v.Some? && v.value.Str? && ParseGroupVersion(v.value.s).Some? && (v.value.s != "" ==> v.value.s[0] != '/')
    ensures At(Tree(Filtered(src, fields).value), ["apiVersion"]) == At(Tree(src), ["apiVersion"])
    ensures var kind := At(Tree(src), ["kind"]);
            At(Tree(Filtered(src, fields).value), ["kind"])
            == if kind.Some? && kind.value.Str? then kind else Some(Str(""))
  {
    var d, full := Filtered(src, fields).value, "spec" in fields;
    FilteredIsProjection(src, fields);
    assert forall k | k in RESERVED :: Get(d, k) == Get(Identity(src, full), k);
    StringAtIsAt(src, ["apiVersion"]);
    StringAtIsAt(src, ["kind"]);
    RenderedIsParsed(StringAt(src, ["apiVersion"]));
    AtEntry(d, "apiVersion", []);
    AtEntry(d, "kind", []);
  }
}
