/** Written GVK lists: parsing what a maintainer may write gives the GVKs back,
    and an accepted list loses no entry. */
module GvkDocuments {
  import opened Wrappers
  import opened Text
  import opened Gvks
  import opened GvkList

  const PAD: set<char> := {' ', '\t', '\r', '\U{0B}', '\U{0C}'}

  /** A line of a list, with a comment at its end or not. */
  datatype DocLine =
    | Noise(blank: string, comment: Option<string>)
    | Significant(item: Item, pad: string, trail: string, comment: Option<string>)

  predicate IsPad(s: string) {
    forall c | c in s :: c in PAD
  }

  predicate WellFormed(line: DocLine) {
    && (line.comment.Some? ==> '\n' !in line.comment.value)
    && match line
       case Noise(blank, _) => IsPad(blank)
       case Significant(item, pad, trail, _) =>
         && item.value != []
         && (forall c | c in item.value ::
               c !in {' ', '\t', '\n', '\r', '\U{0B}', '\U{0C}', '"', '\'', '\\', '#'})
         && IsPad(pad) && IsPad(trail)
  }

  /** The dash or the blanks of a line before its key. */
  function Indent(dash: bool): string {
    if dash then "- " else "  "
  }

  function Keyword(k: Key): string {
    match k case GroupKey => "group:" case VersionKey => "version:" case KindKey => "kind:"
  }

  function Body(line: DocLine): string {
    match line
    case Noise(blank, _) => blank
    case Significant(item, pad, trail, _) =>
      Indent(item.dash) + (Keyword(item.key) + (pad + item.value + trail))
  }

  function RenderLine(line: DocLine): string {
    Body(line) + if line.comment.Some? then "#" + line.comment.value else ""
  }

  /** Newline-terminated lines. */
  function Joined(lines: seq<string>): string {
    if lines == [] then "" else lines[0] + ['\n'] + Joined(lines[1..])
  }

  function Render(doc: seq<DocLine>): string {
    Joined(Map(RenderLine, doc))
  }

  /** The text of a list; the newline after the last line may be missing. */
  predicate IsTextOf(text: string, doc: seq<DocLine>) {
    text == Render(doc) || (doc != [] && text + "\n" == Render(doc))
  }

  function DocItems(doc: seq<DocLine>): seq<Item> {
    if doc == [] then []
    else
      var init, last := DocItems(doc[..|doc| - 1]), doc[|doc| - 1];
      if last.Significant? then init + [last.item] else init
  }

  // ---- One line ----

  lemma {:induction false} CutsAtComment(a: string, b: string)
    requires '#' !in a && (b != [] ==> b[0] == '#')
    ensures CutComment(a + b) == a
  {
    if a == [] {
      assert a + b == b;
    } else {
      CutsAtComment(a[1..], b);
      assert (a + b)[1..] == a[1..] + b;
    }
  }

  /** Without a carriage return at the end. */
  function Chopped(s: string): string {
    if s != [] && s[|s| - 1] == '\r' then s[..|s| - 1] else s
  }

  lemma CleanKeepsBody(body: string, comment: Option<string>)
    requires '#' !in body
    ensures Clean(body + if comment.Some? then "#" + comment.value else "")
            == if comment.Some? then body else Chopped(body)
  {
    if comment.Some? {
      var rest := "#" + comment.value;
      assert body + rest != [] && (body + rest)[|body + rest| - 1] == rest[|rest| - 1];
      assert Chopped(body + rest) == body + Chopped(rest);
      CutsAtComment(body, Chopped(rest));
    } else {
      assert body + "" == body;
      assert Chopped(body) + "" == Chopped(body);
      CutsAtComment(Chopped(body), "");
    }
  }

  lemma {:induction false} TrimsLeft(pad: string, s: string)
    requires IsPad(pad) && s != [] && s[0] !in SPACES
    ensures TrimLeft(pad + s) == s
  {
    if pad == [] {
      assert pad + s == s;
    } else {
      assert pad[0] in pad;
      TrimsLeft(pad[1..], s);
      assert (pad + s)[0] == pad[0];
      assert (pad + s)[1..] == pad[1..] + s;
    }
  }

  lemma {:induction false} TrimsRight(s: string, pad: string)
    requires IsPad(pad) && s != [] && s[|s| - 1] !in SPACES
    ensures TrimRight(s + pad) == s
  {
    if pad == [] {
      assert s + pad == s;
    } else {
      assert pad[|pad| - 1] in pad;
      TrimsRight(s, pad[..|pad| - 1]);
      assert (s + pad)[|s + pad| - 1] == pad[|pad| - 1];
      assert (s + pad)[..|s + pad| - 1] == s + pad[..|pad| - 1];
    }
  }

  lemma KeyIsMatched(dash: bool, k: Key, rest: string, padded: string, value: string)
    requires rest == Keyword(k) + padded && TrimRight(TrimLeft(padded)) == value && IsValue(value)
    ensures MatchKey(dash, k, rest) == Some(Item(dash, k, value))
    ensures forall other | other != k :: MatchKey(dash, other, rest) == None
  {
    assert Keyword(k) == KeyName(k) + ":";
    assert rest[|KeyName(k)| + 1..] == padded;
    assert KeyName(k) + ":" <= rest;
    assert rest[0] == KeyName(k)[0];
    forall other | other != k ensures MatchKey(dash, other, rest) == None {
      assert (KeyName(other) + ":")[0] != rest[0];
    }
  }

  lemma IndentedMatches(dash: bool, k: Key, rest: string)
    requires MatchKey(dash, k, rest).Some? && forall other | other != k :: MatchKey(dash, other, rest) == None
    ensures MatchLine(Indent(dash) + rest) == MatchKey(dash, k, rest)
  {
    var s := Indent(dash) + rest;
    assert s[..2] == Indent(dash) && s[2..] == rest;
    assert s[0] == Indent(dash)[0];
  }

  lemma SignificantBodyMatches(item: Item, pad: string, trail: string)
    requires IsValue(item.value) && IsPad(pad) && IsPad(trail)
    ensures MatchLine(Body(Significant(item, pad, trail, None))) == Some(item)
  {
    var padded := pad + item.value + trail;
    assert padded == pad + (item.value + trail);
    TrimsLeft(pad, item.value + trail);
    TrimsRight(item.value, trail);
    KeyIsMatched(item.dash, item.key, Keyword(item.key) + padded, padded, item.value);
    IndentedMatches(item.dash, item.key, Keyword(item.key) + padded);
  }

  /** Free of the characters that end a line or start a comment. */
  predicate IsPlain(s: string) {
    '#' !in s && '\n' !in s
  }

  lemma BodyIsPlain(line: DocLine)
    requires WellFormed(line)
    ensures IsPlain(Body(line))
  {
    if line.Significant? {
      assert IsPlain(Keyword(line.item.key)) by { match line.item.key case GroupKey => case VersionKey => case KindKey => }
      assert IsPlain(line.item.value) && IsPlain(line.pad) && IsPlain(line.trail);
      assert IsPlain(Indent(line.item.dash));
    }
  }

  lemma ChoppedEnd(front: string, trail: string)
    requires front != [] && front[|front| - 1] != '\r'
    ensures Chopped(front + trail) == front + Chopped(trail)
  {
    var s := front + trail;
    if trail == [] {
      assert s == front;
    } else {
      assert s[|s| - 1] == trail[|trail| - 1] && s[..|s| - 1] == front + trail[..|trail| - 1];
    }
  }

  lemma BodyEnds(item: Item, pad: string, trail: string)
    ensures Body(Significant(item, pad, trail, None)) == Indent(item.dash) + Keyword(item.key) + pad + item.value + trail
  {
  }

  /** A significant line without a carriage return at its end. */
  lemma ChoppedBody(item: Item, pad: string, trail: string)
    requires IsValue(item.value)
    ensures Chopped(Body(Significant(item, pad, trail, None))) == Body(Significant(item, pad, Chopped(trail), None))
  {
    var front := Indent(item.dash) + Keyword(item.key) + pad + item.value;
    BodyEnds(item, pad, trail);
    BodyEnds(item, pad, Chopped(trail));
    assert front[|front| - 1] == item.value[|item.value| - 1] && item.value[|item.value| - 1] in item.value;
    ChoppedEnd(front, trail);
  }

  lemma SignificantIsNotBlank(item: Item, pad: string, trail: string)
    ensures !Blank(Body(Significant(item, pad, trail, None)))
  {
    var body := Body(Significant(item, pad, trail, None));
    assert body[2] == Keyword(item.key)[0] && body[2] in body;
  }

  lemma LineHasNoNewline(line: DocLine)
    requires WellFormed(line)
    ensures '\n' !in RenderLine(line)
  {
    BodyIsPlain(line);
  }

  /** What a written line should be read as. */
  function DocReading(line: DocLine): Reading {
    if line.Noise? then Skipped else Found(line.item)
  }

  lemma CleanDecides(line: string, clean: string)
    requires Clean(line) == clean
    ensures Blank(clean) ==> ReadLine(line) == Skipped
    ensures !Blank(clean) && MatchLine(clean).Some? ==> ReadLine(line) == Found(MatchLine(clean).value)
  {
  }

  lemma PadIsBlank(s: string)
    requires IsPad(s)
    ensures Blank(s) && Blank(Chopped(s)) && '#' !in s
  {
  }

  lemma NoiseIsRead(line: DocLine)
    requires WellFormed(line) && line.Noise?
    ensures ReadLine(RenderLine(line)) == Skipped
  {
    PadIsBlank(line.blank);
    assert Body(line) == line.blank;
    CleanKeepsBody(Body(line), line.comment);
    CleanDecides(RenderLine(line), if line.comment.Some? then line.blank else Chopped(line.blank));
  }

  lemma SignificantIsRead(line: DocLine)
    requires WellFormed(line) && line.Significant?
    ensures ReadLine(RenderLine(line)) == Found(line.item)
  {
    var kept := if line.comment.Some? then line.trail else Chopped(line.trail);
    BodyIsPlain(line);
    CleanKeepsBody(Body(line), line.comment);
    ChoppedBody(line.item, line.pad, line.trail);
    CleanDecides(RenderLine(line), Body(Significant(line.item, line.pad, kept, None)));
    SignificantIsNotBlank(line.item, line.pad, kept);
    SignificantBodyMatches(line.item, line.pad, kept);
  }

  lemma LineIsRead(line: DocLine)
    requires WellFormed(line)
    ensures ReadLine(RenderLine(line)) == DocReading(line)
  {
    if line.Noise? {
      NoiseIsRead(line);
    } else {
      SignificantIsRead(line);
    }
  }

  // ---- The whole text ----

  lemma {:induction false} JoinedSplits(lines: seq<string>)
    requires forall i | 0 <= i < |lines| :: '\n' !in lines[i]
    ensures Split(Joined(lines), '\n') == lines + [""]
  {
    if lines != [] {
      JoinedSplits(lines[1..]);
      SplitFirst(lines[0], '\n', Joined(lines[1..]));
      assert [lines[0]] + (lines[1..] + [""]) == lines + [""];
    }
  }

  lemma {:induction false} ReadingsGiveItems(doc: seq<DocLine>)
    ensures Unexpected !in Map(DocReading, doc) && Items(Map(DocReading, doc)) == DocItems(doc)
  {
    if doc != [] {
      var n := |doc| - 1;
      ReadingsGiveItems(doc[..n]);
      assert Map(DocReading, doc)[..n] == Map(DocReading, doc[..n]);
      assert Map(DocReading, doc) == Map(DocReading, doc[..n]) + [DocReading(doc[n])];
    }
  }

  lemma DocIsRead(doc: seq<DocLine>)
    requires forall line | line in doc :: WellFormed(line)
    ensures Split(Render(doc), '\n') == Map(RenderLine, doc) + [""]
    ensures Map(ReadLine, Map(RenderLine, doc)) == Map(DocReading, doc)
  {
    var lines := Map(RenderLine, doc);
    forall i | 0 <= i < |doc| ensures '\n' !in lines[i] && ReadLine(lines[i]) == DocReading(doc[i]) {
      assert doc[i] in doc;
      LineHasNoNewline(doc[i]);
      LineIsRead(doc[i]);
    }
    JoinedSplits(lines);
  }

  lemma {:induction false} SplitTerminated(s: string, c: char)
    ensures Split(s + [c], c) == Split(s, c) + [""]
  {
    if s == [] {
      assert s + [c] == [c] && [c][1..] == [];
    } else {
      SplitTerminated(s[1..], c);
      assert (s + [c])[1..] == s[1..] + [c];
    }
  }

  lemma SkippedAtEnd(rs: seq<Reading>)
    requires rs != [] && rs[|rs| - 1].Skipped?
    ensures Items(rs) == Items(rs[..|rs| - 1]) && (Unexpected in rs <==> Unexpected in rs[..|rs| - 1])
  {
    var n := |rs| - 1;
    if Unexpected in rs {
      var i :| 0 <= i < |rs| && rs[i] == Unexpected;
      assert rs[..n][i] == Unexpected;
    }
  }

  /** Without its last newline a text has the same lines, apart from an empty last one. */
  lemma UnterminatedLines(text: string, lines: seq<string>)
    requires lines != [] && Split(text + "\n", '\n') == lines + [""]
    ensures Lines(text) == if lines[|lines| - 1] == "" then lines[..|lines| - 1] else lines
  {
    SplitTerminated(text, '\n');
    assert Split(text, '\n') == (Split(text, '\n') + [""])[..|lines|] == (lines + [""])[..|lines|] == lines;
  }

  lemma TerminatedLines(text: string, lines: seq<string>)
    requires Split(text, '\n') == lines + [""]
    ensures Lines(text) == lines
  {
    assert (lines + [""])[..|lines|] == lines;
  }

  lemma LinesAreRead(text: string, lines: seq<string>)
    requires || Lines(text) == lines
             || (lines != [] && lines[|lines| - 1] == "" && Lines(text) == lines[..|lines| - 1])
    ensures Unexpected in Readings(text) <==> Unexpected in Map(ReadLine, lines)
    ensures Items(Readings(text)) == Items(Map(ReadLine, lines))
  {
    if Lines(text) != lines {
      var n := |lines| - 1;
      EmptyIsSkipped();
      SkippedAtEnd(Map(ReadLine, lines));
      assert Map(ReadLine, lines[..n]) == Map(ReadLine, lines)[..n];
    }
  }

  /** With the last newline or without it, a text is read as its lines are meant. */
  lemma TextIsRead(text: string, doc: seq<DocLine>)
    requires (forall line | line in doc :: WellFormed(line)) && IsTextOf(text, doc)
    ensures Unexpected !in Readings(text) && Items(Readings(text)) == DocItems(doc)
  {
    var lines := Map(RenderLine, doc);
    DocIsRead(doc);
    ReadingsGiveItems(doc);
    if text == Render(doc) {
      TerminatedLines(text, lines);
    } else {
      UnterminatedLines(text, lines);
    }
    LinesAreRead(text, lines);
  }

  lemma EmptyIsSkipped()
    ensures ReadLine("") == Skipped
  {
  }

  // ---- Grouping ----

  function Flatten(entries: seq<seq<Item>>): seq<Item> {
    if entries == [] then [] else Flatten(entries[..|entries| - 1]) + entries[|entries| - 1]
  }

  /** One dash, at the start. */
  predicate IsEntry(entry: seq<Item>) {
    entry != [] && entry[0].dash && forall i | 1 <= i < |entry| :: !entry[i].dash
  }

  lemma EntryIsExtended(items: seq<Item>, before: seq<seq<Item>>, entry: seq<Item>, x: Item)
    requires Entries(items) == before + [entry] && !x.dash
    ensures Entries(items + [x]) == before + [entry + [x]]
  {
    EntriesOneMore(items, x);
    assert (before + [entry])[..|before|] == before;
  }

  lemma LastOfEntry(items: seq<Item>, entry: seq<Item>)
    requires IsEntry(entry) && |entry| > 1
    ensures var n := |entry| - 1;
            && IsEntry(entry[..n]) && !entry[n].dash
            && entry == entry[..n] + [entry[n]] && items + entry == items + entry[..n] + [entry[n]]
  {
  }

  lemma {:induction false} EntryIsAppended(items: seq<Item>, entry: seq<Item>)
    requires IsEntry(entry)
    ensures Entries(items + entry) == Entries(items) + [entry]
    decreases |entry|
  {
    var n := |entry| - 1;
    if n == 0 {
      EntriesOneMore(items, entry[0]);
      assert entry == [entry[0]];
    } else {
      LastOfEntry(items, entry);
      EntryIsAppended(items, entry[..n]);
      EntryIsExtended(items + entry[..n], Entries(items), entry[..n], entry[n]);
    }
  }

  predicate AllEntries(entries: seq<seq<Item>>) {
    forall i | 0 <= i < |entries| :: IsEntry(entries[i])
  }

  lemma {:induction false} EntriesOfFlatten(entries: seq<seq<Item>>)
    requires AllEntries(entries)
    ensures Entries(Flatten(entries)) == entries
    decreases |entries|
  {
    if entries != [] {
      var n := |entries| - 1;
      var before := entries[..n];
      EntriesOfFlatten(before);
      EntryIsAppended(Flatten(before), entries[n]);
      assert entries == before + [entries[n]];
    }
  }

  lemma {:induction false} FlattenStarts(entries: seq<seq<Item>>)
    requires AllEntries(entries) && entries != []
    ensures Flatten(entries) != [] && Flatten(entries)[0].dash
    decreases |entries|
  {
    var n := |entries| - 1;
    if n > 0 {
      FlattenStarts(entries[..n]);
    }
  }

  // ---- The theorems ----

  /** A list as it should be written: the lines that are not noise form entries, each
      opened by a dash and with its keys in any order, all three of them present. */
  predicate IsDocument(doc: seq<DocLine>, entries: seq<seq<Item>>) {
    && (forall line | line in doc :: WellFormed(line))
    && entries != [] && DocItems(doc) == Flatten(entries)
    && AllEntries(entries) && forall i | 0 <= i < |entries| :: HasAllKeys(entries[i])
  }

  predicate HasAllKeys(entry: seq<Item>) {
    && (exists x :: x in entry && x.key == GroupKey)
    && (exists x :: x in entry && x.key == VersionKey)
    && (exists x :: x in entry && x.key == KindKey)
  }

  predicate AllHaveValues(items: seq<Item>) {
    forall x | x in items :: x.value != ""
  }

  lemma {:induction false} KeyHasValue(entry: seq<Item>, k: Key)
    requires AllHaveValues(entry)
    ensures ValueOf(entry, k) != "" <==> exists x :: x in entry && x.key == k
  {
    if entry != [] {
      var n := |entry| - 1;
      KeyHasValue(entry[..n], k);
      assert entry == entry[..n] + [entry[n]];
    }
  }

  lemma CompleteMeansAllKeys(entry: seq<Item>)
    requires AllHaveValues(entry)
    ensures Complete(GvkOfEntry(entry)) <==> HasAllKeys(entry)
  {
    KeyHasValue(entry, GroupKey);
    KeyHasValue(entry, VersionKey);
    KeyHasValue(entry, KindKey);
  }

  lemma {:induction false} DocItemsHaveValues(doc: seq<DocLine>)
    requires forall line | line in doc :: WellFormed(line)
    ensures AllHaveValues(DocItems(doc))
  {
    if doc != [] {
      DocItemsHaveValues(doc[..|doc| - 1]);
      assert WellFormed(doc[|doc| - 1]);
    }
  }

  lemma {:induction false} PartsHaveValues(entries: seq<seq<Item>>, i: nat)
    requires i < |entries| && AllHaveValues(Flatten(entries))
    ensures AllHaveValues(entries[i])
  {
    var n := |entries| - 1;
    assert Flatten(entries) == Flatten(entries[..n]) + entries[n];
    if i < n {
      PartsHaveValues(entries[..n], i);
    }
  }

  function FieldOf(g: Gvk, k: Key): string {
    match k case GroupKey => g.group case VersionKey => g.version case KindKey => g.kind
  }

  /** The n-th line is the last one of the entry for this key. */
  predicate IsLastFor(entry: seq<Item>, k: Key, n: nat) {
    n < |entry| && entry[n].key == k && forall m | n < m < |entry| :: entry[m].key != k
  }

  lemma {:induction false} LastLineWins(entry: seq<Item>, k: Key, n: nat)
    requires IsLastFor(entry, k, n)
    ensures FieldOf(GvkOfEntry(entry), k) == entry[n].value
  {
    var l := |entry| - 1;
    if n < l {
      LastLineWins(entry[..l], k, n);
    }
  }

  /** Every such list is accepted, with or without the newline at its end, and read as one
      GVK per entry in order, whatever blank lines, comments, padding and carriage returns
      surround them; of several lines of an entry for the same key the last one counts. */
  lemma WrittenEntriesAreParsed(text: string, doc: seq<DocLine>, entries: seq<seq<Item>>)
    requires IsDocument(doc, entries) && IsTextOf(text, doc)
    ensures Accepted(text) && |GvksIn(text)| == |entries|
    ensures forall i, k, n: nat | 0 <= i < |entries| && IsLastFor(entries[i], k, n) ::
              FieldOf(GvksIn(text)[i], k) == entries[i][n].value
  {
    EntriesAreParsed(text, doc, entries);
    forall i, k, n: nat | 0 <= i < |entries| && IsLastFor(entries[i], k, n)
      ensures FieldOf(GvksIn(text)[i], k) == entries[i][n].value
    {
      LastLineWins(entries[i], k, n);
    }
  }

  lemma EntriesAreParsed(text: string, doc: seq<DocLine>, entries: seq<seq<Item>>)
    requires IsDocument(doc, entries) && IsTextOf(text, doc)
    ensures Accepted(text) && GvksIn(text) == GvksOf(entries)
  {
    DocItemsHaveValues(doc);
    forall g | g in GvksOf(entries) ensures Complete(g) {
      var i :| 0 <= i < |entries| && GvksOf(entries)[i] == g;
      PartsHaveValues(entries, i);
      CompleteMeansAllKeys(entries[i]);
    }
    TextIsRead(text, doc);
    EntriesOfFlatten(entries);
    FlattenStarts(entries);
  }

  /** A GVK as three lines. */
  function EntryFor(g: Gvk): seq<Item> {
    [Item(true, GroupKey, g.group), Item(false, VersionKey, g.version), Item(false, KindKey, g.kind)]
  }

  lemma EntryForGivesBack(g: Gvk)
    ensures IsEntry(EntryFor(g)) && GvkOfEntry(EntryFor(g)) == g
  {
    var e := EntryFor(g);
    assert e == ([] + [e[0]]) + [e[1]] + [e[2]];
    ValuesOneMore([], e[0]);
    ValuesOneMore([] + [e[0]], e[1]);
    ValuesOneMore([] + [e[0]] + [e[1]], e[2]);
  }

  /** Round trip: GVKs written as `- group`, `version`, `kind` lines are parsed
      back, one rule per entry and in order. */
  lemma WrittenGvksAreParsedBack(text: string, doc: seq<DocLine>, gvks: seq<Gvk>)
    requires (forall line | line in doc :: WellFormed(line)) && IsTextOf(text, doc)
    requires gvks != [] && DocItems(doc) == Flatten(Map(EntryFor, gvks))
    ensures Accepted(text) && GvksIn(text) == gvks
  {
    var entries := Map(EntryFor, gvks);
    forall i | 0 <= i < |entries|
      ensures IsEntry(entries[i]) && GvkOfEntry(entries[i]) == gvks[i] && HasAllKeys(entries[i])
    {
      EntryForGivesBack(gvks[i]);
      var e := EntryFor(gvks[i]);
      assert e[0] in e && e[1] in e && e[2] in e;
    }
    EntriesAreParsed(text, doc, entries);
  }

  // ---- Nothing else is accepted ----

  lemma {:induction false} TrimLeftMeans(s: string) returns (pad: string)
    ensures s == pad + TrimLeft(s) && Blank(pad)
  {
    if s != [] && s[0] in SPACES {
      var rest := TrimLeftMeans(s[1..]);
      pad := [s[0]] + rest;
      assert s == [s[0]] + s[1..];
    } else {
      pad := "";
    }
  }

  lemma {:induction false} TrimRightMeans(s: string) returns (pad: string)
    ensures s == TrimRight(s) + pad && Blank(pad)
  {
    if s != [] && s[|s| - 1] in SPACES {
      var rest := TrimRightMeans(s[..|s| - 1]);
      pad := rest + [s[|s| - 1]];
      assert s == s[..|s| - 1] + [s[|s| - 1]];
    } else {
      pad := "";
    }
  }

  lemma {:induction false} CutCommentMeans(s: string)
    ensures CutComment(s) <= s && '#' !in CutComment(s)
    ensures CutComment(s) != s ==> s[|CutComment(s)|] == '#'
  {
    if s != [] && s[0] != '#' {
      CutCommentMeans(s[1..]);
      assert s == [s[0]] + s[1..];
    }
  }

  /** What a cleaned line was cut off from: a carriage return, a comment or nothing. */
  lemma CleanMeans(line: string) returns (cr: string, comment: Option<string>)
    ensures line == Clean(line) + cr + (if comment.Some? then "#" + comment.value else "")
    ensures (cr == "" || cr == "\r") && '#' !in Clean(line)
  {
    var kept, clean := Chopped(line), Clean(line);
    CutCommentMeans(kept);
    cr := if clean == kept && kept != line then "\r" else "";
    comment := if clean == kept then None else Some(line[|clean| + 1..]);
    assert kept != line ==> line == kept + "\r";
    if clean != kept {
      assert line == clean + line[|clean|..] && line[|clean|] == '#';
      assert line[|clean|..] == "#" + line[|clean| + 1..];
    }
  }

  lemma TrimmedMeans(s: string) returns (pad: string, trail: string)
    ensures s == pad + TrimRight(TrimLeft(s)) + trail && Blank(pad) && Blank(trail)
  {
    pad := TrimLeftMeans(s);
    trail := TrimRightMeans(TrimLeft(s));
    assert pad + (TrimRight(TrimLeft(s)) + trail) == pad + TrimRight(TrimLeft(s)) + trail;
  }

  lemma MatchKeyStarts(dash: bool, k: Key, rest: string)
    requires MatchKey(dash, k, rest).Some?
    ensures var n := |Keyword(k)|;
            && n <= |rest| && rest == Keyword(k) + rest[n..]
            && MatchKey(dash, k, rest).value == Item(dash, k, TrimRight(TrimLeft(rest[n..])))
            && IsValue(TrimRight(TrimLeft(rest[n..])))
  {
    assert Keyword(k) == KeyName(k) + ":";
  }

  /** A key that is matched has its value between white space. */
  lemma MatchKeyMeans(dash: bool, k: Key, rest: string) returns (pad: string, trail: string)
    requires MatchKey(dash, k, rest).Some?
    ensures var x := MatchKey(dash, k, rest).value;
            x.dash == dash && x.key == k && IsValue(x.value) && Blank(pad) && Blank(trail)
            && rest == Keyword(k) + (pad + x.value + trail)
  {
    MatchKeyStarts(dash, k, rest);
    pad, trail := TrimmedMeans(rest[|Keyword(k)|..]);
  }

  lemma MatchLineMeans(s: string) returns (pad: string, trail: string)
    requires MatchLine(s).Some?
    ensures var x := MatchLine(s).value;
            IsValue(x.value) && Blank(pad) && Blank(trail) && s == Body(Significant(x, pad, trail, None))
  {
    var x := MatchLine(s).value;
    var dash, rest := s[0] == '-', s[2..];
    pad, trail := MatchKeyMeans(dash, x.key, rest);
    assert s == s[..2] + rest && s[..2] == Indent(dash);
  }

  lemma FreeParts(line: string, clean: string, cr: string, comment: Option<string>)
    requires '\n' !in line && line == clean + cr + (if comment.Some? then "#" + comment.value else "")
    ensures '\n' !in clean && (comment.Some? ==> '\n' !in comment.value)
  {
    var end := if comment.Some? then "#" + comment.value else "";
    assert forall c | c in clean :: c in clean + cr + end;
    assert forall c | c in end :: c in clean + cr + end;
    if comment.Some? {
      assert end[1..] == comment.value;
    }
  }

  lemma NoiseMeans(line: string, cr: string, comment: Option<string>) returns (d: DocLine)
    requires '\n' !in line && line == Clean(line) + cr + (if comment.Some? then "#" + comment.value else "")
    requires Blank(Clean(line)) && (cr == "" || cr == "\r")
    ensures WellFormed(d) && RenderLine(d) == line && DocReading(d) == ReadLine(line)
  {
    FreeParts(line, Clean(line), cr, comment);
    d := Noise(Clean(line) + cr, comment);
    CleanDecides(line, Clean(line));
  }

  lemma SignificantMeans(line: string, cr: string, comment: Option<string>) returns (d: DocLine)
    requires '\n' !in line && line == Clean(line) + cr + (if comment.Some? then "#" + comment.value else "")
    requires !Blank(Clean(line)) && (cr == "" || cr == "\r") && '#' !in Clean(line) && MatchLine(Clean(line)).Some?
    ensures WellFormed(d) && RenderLine(d) == line && DocReading(d) == ReadLine(line)
  {
    var clean := Clean(line);
    FreeParts(line, clean, cr, comment);
    CleanDecides(line, clean);
    var pad, trail := MatchLineMeans(clean);
    var x := MatchLine(clean).value;
    d := Significant(x, pad, trail + cr, comment);
    SignificantParts(clean, x, pad, trail);
    BodyGrows(x, pad, trail, cr, comment);
  }

  /** A line that is read as blank or significant is a well-formed line. */
  lemma ReadLineMeans(line: string) returns (d: DocLine)
    requires '\n' !in line && ReadLine(line) != Unexpected
    ensures WellFormed(d) && RenderLine(d) == line && DocReading(d) == ReadLine(line)
  {
    var cr, comment := CleanMeans(line);
    if Blank(Clean(line)) {
      d := NoiseMeans(line, cr, comment);
    } else {
      d := SignificantMeans(line, cr, comment);
    }
  }

  lemma BodyGrows(x: Item, pad: string, trail: string, cr: string, comment: Option<string>)
    ensures Body(Significant(x, pad, trail + cr, comment)) == Body(Significant(x, pad, trail, None)) + cr
  {
    BodyEnds(x, pad, trail);
    BodyEnds(x, pad, trail + cr);
    assert Body(Significant(x, pad, trail + cr, comment)) == Body(Significant(x, pad, trail + cr, None));
  }

  lemma SignificantParts(clean: string, x: Item, pad: string, trail: string)
    requires clean == Body(Significant(x, pad, trail, None))
    ensures forall c | c in pad || c in x.value || c in trail :: c in clean
  {
    BodyEnds(x, pad, trail);
    assert clean == (Indent(x.dash) + Keyword(x.key)) + pad + x.value + trail;
  }

  lemma {:induction false} LinesAreLines(lines: seq<string>) returns (doc: seq<DocLine>)
    requires forall i | 0 <= i < |lines| :: '\n' !in lines[i] && ReadLine(lines[i]) != Unexpected
    ensures |doc| == |lines| && forall line | line in doc :: WellFormed(line)
    ensures Map(RenderLine, doc) == lines && Map(DocReading, doc) == Map(ReadLine, lines)
  {
    if lines == [] {
      doc := [];
    } else {
      var n := |lines| - 1;
      var init := LinesAreLines(lines[..n]);
      var last := ReadLineMeans(lines[n]);
      doc := init + [last];
      MapAppend(RenderLine, init, [last]);
      MapAppend(DocReading, init, [last]);
      MapAppend(ReadLine, lines[..n], [lines[n]]);
      assert lines == lines[..n] + [lines[n]];
    }
  }

  lemma {:induction false} JoinedParts(s: string)
    ensures Joined(Split(s, '\n')) == s + "\n"
  {
    if s == [] {
      assert Joined([""]) == "" + ['\n'] + Joined([""][1..]);
    } else {
      var rest := Split(s[1..], '\n');
      JoinedParts(s[1..]);
      assert s + "\n" == [s[0]] + (s[1..] + "\n");
      if s[0] == '\n' {
        assert ([""] + rest)[1..] == rest;
      } else {
        assert Joined(rest) == rest[0] + ['\n'] + Joined(rest[1..]);
        assert ([[s[0]] + rest[0]] + rest[1..])[1..] == rest[1..];
      }
    }
  }

  lemma {:induction false} JoinedAppend(a: seq<string>, b: seq<string>)
    ensures Joined(a + b) == Joined(a) + Joined(b)
  {
    if a == [] {
      assert a + b == b;
    } else {
      JoinedAppend(a[1..], b);
      assert (a + b)[1..] == a[1..] + b;
    }
  }

  /** Put together again, the lines of a text are the text, up to the last newline. */
  lemma LinesGiveText(text: string)
    ensures var lines := Lines(text);
            text == Joined(lines) || (lines != [] && text + "\n" == Joined(lines))
  {
    var parts := Split(text, '\n');
    JoinedParts(text);
    var n := |parts| - 1;
    if parts[n] == "" {
      JoinedAppend(parts[..n], [""]);
      assert parts == parts[..n] + [""];
      assert Joined([""]) == "\n";
      assert (Joined(parts[..n]) + "\n")[..|text|] == (text + "\n")[..|text|] == text;
    }
  }

  lemma EntryOpened(before: seq<seq<Item>>, x: Item)
    requires AllEntries(before) && x.dash
    ensures AllEntries(before + [[x]]) && Flatten(before + [[x]]) == Flatten(before) + [x]
  {
    assert (before + [[x]])[..|before|] == before;
  }

  lemma EntryContinued(before: seq<seq<Item>>, x: Item)
    requires AllEntries(before) && before != [] && !x.dash
    ensures var after := before[..|before| - 1] + [before[|before| - 1] + [x]];
            AllEntries(after) && Flatten(after) == Flatten(before) + [x]
  {
    var l := |before| - 1;
    var after := before[..l] + [before[l] + [x]];
    assert after[..l] == before[..l] && after[l] == before[l] + [x];
  }

  lemma {:induction false} EntriesKeepItems(items: seq<Item>)
    requires items != [] ==> items[0].dash
    ensures AllEntries(Entries(items)) && Flatten(Entries(items)) == items
  {
    if items != [] {
      var init, x := items[..|items| - 1], items[|items| - 1];
      var before := Entries(init);
      EntriesKeepItems(init);
      assert items == init + [x];
      EntriesOneMore(init, x);
      if x.dash {
        EntryOpened(before, x);
      } else {
        assert init[0] == items[0];
        EntryContinued(before, x);
      }
    }
  }

  /** The accepted texts are exactly the lists as they should be written. */
  lemma AcceptedTextsAreDocuments(text: string)
    ensures Accepted(text) <==> exists doc, entries :: IsDocument(doc, entries) && IsTextOf(text, doc)
  {
    if Accepted(text) {
      var rs, lines := Readings(text), Lines(text);
      forall i | 0 <= i < |lines| ensures '\n' !in lines[i] && ReadLine(lines[i]) != Unexpected {
        assert rs[i] == ReadLine(lines[i]) && rs[i] in rs;
      }
      var doc := LinesAreLines(lines);
      ReadingsGiveItems(doc);
      LinesGiveText(text);
      var entries := Entries(Items(rs));
      EntriesKeepItems(Items(rs));
      DocItemsHaveValues(doc);
      forall i | 0 <= i < |entries| ensures HasAllKeys(entries[i]) {
        assert GvksOf(entries)[i] in GvksOf(entries);
        PartsHaveValues(entries, i);
        CompleteMeansAllKeys(entries[i]);
      }
      assert IsDocument(doc, entries) && IsTextOf(text, doc);
    }
    if doc, entries :| IsDocument(doc, entries) && IsTextOf(text, doc) {
      EntriesAreParsed(text, doc, entries);
    }
  }

  /** The lines that start an entry. */
  function DashLines(rs: seq<Reading>): nat {
    if rs == [] then 0
    else
      var last := rs[|rs| - 1];
      DashLines(rs[..|rs| - 1]) + if last.Found? && last.item.dash then 1 else 0
  }

  lemma {:induction false} EntriesAreDashLines(rs: seq<Reading>)
    requires Items(rs) != [] ==> Items(rs)[0].dash
    ensures |Entries(Items(rs))| == DashLines(rs)
  {
    if rs != [] {
      var n := |rs| - 1;
      ItemsGrow(rs, n);
      EntriesAreDashLines(rs[..n]);
      if rs[n].Found? {
        EntriesOneMore(Items(rs[..n]), rs[n].item);
      }
    }
  }

  /** Nothing is lost from an accepted list: as many GVKs as lines that start an
      entry, all complete, and every line is blank or matches the pattern. */
  lemma AcceptedListsLoseNothing(text: string)
    requires Accepted(text)
    ensures |GvksIn(text)| == DashLines(Readings(text)) > 0
    ensures forall g | g in GvksIn(text) :: Complete(g)
    ensures forall line | line in Lines(text) :: Blank(Clean(line)) || MatchLine(Clean(line)).Some?
  {
    var rs := Readings(text);
    EntriesAreDashLines(rs);
    forall line | line in Lines(text) ensures Blank(Clean(line)) || MatchLine(Clean(line)).Some? {
      var i :| 0 <= i < |Lines(text)| && Lines(text)[i] == line;
      assert rs[i] == ReadLine(line) && rs[i] in rs;
    }
  }
}
