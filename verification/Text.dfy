/** Go string helpers: strings.Split, strings.HasSuffix and joining with a
    one-character separator. */
module Text {

  /** strings.Split with a one-character separator: never empty. */
  function Split(s: string, c: char): (parts: seq<string>)
    ensures |parts| >= 1
    ensures forall i | 0 <= i < |parts| :: c !in parts[i]
  {
    if s == [] then [[]]
    else
      var rest := Split(s[1..], c);
      if s[0] == c then [[]] + rest else [[s[0]] + rest[0]] + rest[1..]
  }

  predicate HasSuffix(s: string, t: string) {
    |t| <= |s| && s[|s| - |t|..] == t
  }

  lemma {:induction false} SplitWhole(s: string, c: char)
    requires c !in s
    ensures Split(s, c) == [s]
  {
    if s != [] {
      SplitWhole(s[1..], c);
      assert [s[0]] + s[1..] == s;
    }
  }

  lemma {:induction false} SplitFirst(a: string, c: char, b: string)
    requires c !in a
    ensures Split(a + [c] + b, c) == [a] + Split(b, c)
  {
    var s := a + [c] + b;
    if a == [] {
      assert s[1..] == b;
    } else {
      SplitFirst(a[1..], c, b);
      assert s[1..] == a[1..] + [c] + b;
      assert [a[0]] + a[1..] == a;
    }
  }

  lemma SplitTwo(a: string, c: char, b: string, s: string)
    requires c !in a && c !in b && s == a + [c] + b
    ensures Split(s, c) == [a, b]
  {
    SplitFirst(a, c, b);
    SplitWhole(b, c);
  }

  /** One or two parts: the string is those parts around the separator. */
  lemma {:induction false} SplitBack(s: string, c: char)
    ensures |Split(s, c)| == 1 ==> s == Split(s, c)[0]
    ensures |Split(s, c)| == 2 ==> s == Split(s, c)[0] + [c] + Split(s, c)[1]
  {
    if s != [] {
      SplitBack(s[1..], c);
      assert s == [s[0]] + s[1..];
    }
  }

  /** A separator-free first segment can be read back from a joined string. */
  lemma {:induction false} CutFirst(a: string, x: string, b: string, y: string, c: char)
    requires c !in a && c !in b
    requires a + [c] + x == b + [c] + y
    ensures a == b && x == y
  {
    SplitFirst(a, c, x);
    SplitFirst(b, c, y);
    assert a == Split(a + [c] + x, c)[0] == b;
    assert x == (a + [c] + x)[|a| + 1..] == y;
  }
}
