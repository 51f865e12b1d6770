/** Group, version and kind, and the "group/version" strings of the API. */
module Gvks {
  import opened Wrappers
  import opened Text

  datatype GroupVersion = GroupVersion(group: string, version: string)

  datatype Gvk = Gvk(group: string, version: string, kind: string)

  /** schema.ParseGroupVersion. */
  function ParseGroupVersion(s: string): Option<GroupVersion> {
    if s == "" || s == "/" then Some(GroupVersion("", ""))
    else
      var parts := Split(s, '/');
      if |parts| == 1 then Some(GroupVersion("", s))
      else if |parts| == 2 then Some(GroupVersion(parts[0], parts[1]))
      else None
  }

  /** What an apiVersion means: without a slash a version of the core group, with one
      slash group and version, with more nothing. */
  lemma SlashesSeparate(a: string, b: string, rest: string)
    requires '/' !in a && '/' !in b
    ensures ParseGroupVersion(a) == Some(GroupVersion("", a))
    ensures ParseGroupVersion(a + "/" + b) == Some(GroupVersion(a, b))
    ensures ParseGroupVersion(a + "/" + b + "/" + rest) == None
  {
    SplitWhole(a, '/');
    SplitTwo(a, '/', b, a + "/" + b);
    assert a + "/" + b == "/" ==> a == "" && b == "";
    assert a + "/" + b + "/" + rest == a + ['/'] + (b + ['/'] + rest);
    SplitFirst(a, '/', b + ['/'] + rest);
    SplitFirst(b, '/', rest);
  }

  /** GroupVersion.String. */
  function RenderGroupVersion(gv: GroupVersion): string {
    if gv.group != "" then gv.group + "/" + gv.version else gv.version
  }

  /** A parsed group and version survive being written and parsed again. */
  lemma {:induction false} ParseAfterRender(s: string)
    requires ParseGroupVersion(s).Some?
    ensures ParseGroupVersion(RenderGroupVersion(ParseGroupVersion(s).value)) == ParseGroupVersion(s)
  {
    var gv := ParseGroupVersion(s).value;
    var parts := Split(s, '/');
    if s != "" && s != "/" && |parts| == 2 {
      SplitWhole(gv.version, '/');
      if gv.group != "" {
        SplitFirst(gv.group, '/', gv.version);
        assert gv.group + "/" + gv.version != "/";
      } else if gv.version == "" {
        SplitBack(s, '/');
      }
    }
  }

  /** Written back, an apiVersion is what it was, unless it starts with a slash. */
  lemma RenderedIsParsed(s: string)
    requires ParseGroupVersion(s).Some? && (s != "" ==> s[0] != '/')
    ensures RenderGroupVersion(ParseGroupVersion(s).value) == s
  {
    if s != "" {
      SplitBack(s, '/');
    }
  }
}
