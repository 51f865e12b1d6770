/** resource_id_rules of deploy.sh: the line-by-line parser of the list of GVKs
    with service-generated resource IDs. */
module GvkList {
  import opened Wrappers
  import opened Text
  import opened Gvks

  datatype Key = GroupKey | VersionKey | KindKey

  /** A significant line: whether it starts an entry, its key and its value. */
  datatype Item = Item(dash: bool, key: Key, value: string)

  datatype ListError = UnexpectedLine | BeforeFirstEntry | IncompleteEntry | NoGvks

  const SPACES: set<char> := {' ', '\t', '\n', '\r', '\U{0B}', '\U{0C}'}

  predicate Blank(s: string) {
    forall c | c in s :: c in SPACES
  }

  /** The value part of the pattern: no white space, quotes or backslash. */
  predicate IsValue(s: string) {
    s != [] && forall c | c in s :: c !in SPACES && c != '"' && c != '\'' && c != '\\'
  }

  function KeyName(k: Key): string {
    match k case GroupKey => "group" case VersionKey => "version" case KindKey => "kind"
  }

  // ---- One line ----

  function TrimLeft(s: string): string {
    if s != [] && s[0] in SPACES then TrimLeft(s[1..]) else s
  }

  function TrimRight(s: string): string {
    if s != [] && s[|s| - 1] in SPACES then TrimRight(s[..|s| - 1]) else s
  }

  /** Everything before the first '#'. */
  function CutComment(s: string): string {
    if s == [] || s[0] == '#' then [] else [s[0]] + CutComment(s[1..])
  }

  function Clean(line: string): string {
    CutComment(if line != [] && line[|line| - 1] == '\r' then line[..|line| - 1] else line)
  }

  /** `key:` and the value after it. */
  function MatchKey(dash: bool, k: Key, rest: string): Option<Item> {
    if KeyName(k) + ":" <= rest && IsValue(TrimRight(TrimLeft(rest[|KeyName(k)| + 1..])))
    then Some(Item(dash, k, TrimRight(TrimLeft(rest[|KeyName(k)| + 1..]))))
    else None
  }

  /** The pattern of a significant line. */
  function MatchLine(s: string): Option<Item> {
    if !("- " <= s) && !("  " <= s) then None
    else
      var dash, rest := s[0] == '-', s[2..];
      if MatchKey(dash, GroupKey, rest).Some? then MatchKey(dash, GroupKey, rest)
      else if MatchKey(dash, VersionKey, rest).Some? then MatchKey(dash, VersionKey, rest)
      else MatchKey(dash, KindKey, rest)
  }

  /** The lines that `read` delivers: an unterminated last line counts, an empty
      one does not. */
  function Lines(text: string): seq<string> {
    var parts := Split(text, '\n');
    if parts[|parts| - 1] == "" then parts[..|parts| - 1] else parts
  }

  // ---- What a list means ----

  /** What a line turns out to be. */
  datatype Reading = Skipped | Unexpected | Found(item: Item)

  function ReadLine(line: string): Reading {
    var s := Clean(line);
    if Blank(s) then Skipped
    else match MatchLine(s)
      case Some(x) => Found(x)
      case None => Unexpected
  }

  function Readings(text: string): seq<Reading> {
    Map(ReadLine, Lines(text))
  }

  function Items(rs: seq<Reading>): seq<Item> {
    if rs == [] then []
    else
      var init, last := Items(rs[..|rs| - 1]), rs[|rs| - 1];
      if last.Found? then init + [last.item] else init
  }

  /** Items grouped into entries; a dash starts one. */
  function Entries(items: seq<Item>): (entries: seq<seq<Item>>)
    ensures forall i | 0 <= i < |entries| :: entries[i] != []
    ensures items != [] ==> entries != []
  {
    if items == [] then []
    else
      var before, x := Entries(items[..|items| - 1]), items[|items| - 1];
      if x.dash || before == [] then before + [[x]]
      else before[..|before| - 1] + [before[|before| - 1] + [x]]
  }

  /** The value an entry gives a key: the last one, "" if none. */
  function ValueOf(entry: seq<Item>, k: Key): string {
    if entry == [] then ""
    else if entry[|entry| - 1].key == k then entry[|entry| - 1].value
    else ValueOf(entry[..|entry| - 1], k)
  }

  function GvkOfEntry(entry: seq<Item>): Gvk {
    Gvk(ValueOf(entry, GroupKey), ValueOf(entry, VersionKey), ValueOf(entry, KindKey))
  }

  function GvksOf(entries: seq<seq<Item>>): (gvks: seq<Gvk>)
    ensures |gvks| == |entries|
    ensures forall i | 0 <= i < |entries| :: gvks[i] == GvkOfEntry(entries[i])
  {
    if entries == [] then []
    else GvksOf(entries[..|entries| - 1]) + [GvkOfEntry(entries[|entries| - 1])]
  }

  predicate Complete(g: Gvk) {
    g.group != "" && g.version != "" && g.kind != ""
  }

  /** The GVKs of the entries, in order. */
  function GvksOfReadings(rs: seq<Reading>): seq<Gvk> {
    GvksOf(Entries(Items(rs)))
  }

  /** A list is accepted when every non-blank line matches, the first one starts
      an entry, there is one, and every entry has all three keys. */
  predicate AcceptedReadings(rs: seq<Reading>) {
    && Unexpected !in rs
    && Items(rs) != [] && Items(rs)[0].dash
    && forall g | g in GvksOfReadings(rs) :: Complete(g)
  }

  predicate Accepted(text: string) {
    AcceptedReadings(Readings(text))
  }

  function GvksIn(text: string): seq<Gvk> {
    GvksOfReadings(Readings(text))
  }

  // ---- One more line ----

  const NO_GVK := Gvk("", "", "")

  function Assigned(g: Gvk, x: Item): Gvk {
    match x.key
    case GroupKey => g.(group := x.value)
    case VersionKey => g.(version := x.value)
    case KindKey => g.(kind := x.value)
  }

  lemma EntriesOneMore(items: seq<Item>, x: Item)
    ensures var before := Entries(items);
            Entries(items + [x]) == if x.dash || before == [] then before + [[x]]
                                    else before[..|before| - 1] + [before[|before| - 1] + [x]]
  {
    assert (items + [x])[..|items|] == items;
  }

  lemma ValuesOneMore(entry: seq<Item>, x: Item)
    ensures GvkOfEntry(entry + [x]) == Assigned(GvkOfEntry(entry), x)
  {
    assert (entry + [x])[..|entry|] == entry;
  }

  lemma GvksOneMore(entries: seq<seq<Item>>, e: seq<Item>)
    ensures GvksOf(entries + [e]) == GvksOf(entries) + [GvkOfEntry(e)]
  {
    assert (entries + [e])[..|entries|] == entries;
  }

  lemma StartingLine(rs: seq<Reading>, x: Item)
    requires x.dash
    ensures GvksOfReadings(rs + [Found(x)]) == GvksOfReadings(rs) + [Assigned(NO_GVK, x)]
  {
    assert (rs + [Found(x)])[..|rs|] == rs;
    EntriesOneMore(Items(rs), x);
    GvksOneMore(Entries(Items(rs)), [x]);
    assert [] + [x] == [x];
    ValuesOneMore([], x);
  }

  lemma ContinuingLine(rs: seq<Reading>, x: Item)
    requires !x.dash && Items(rs) != []
    ensures var g := GvksOfReadings(rs);
            GvksOfReadings(rs + [Found(x)]) == g[..|g| - 1] + [Assigned(g[|g| - 1], x)]
  {
    var entries := Entries(Items(rs));
    var n := |entries| - 1;
    assert (rs + [Found(x)])[..|rs|] == rs;
    EntriesOneMore(Items(rs), x);
    GvksOneMore(entries[..n], entries[n] + [x]);
    GvksOneMore(entries[..n], entries[n]);
    assert entries == entries[..n] + [entries[n]];
    ValuesOneMore(entries[n], x);
  }

  // ---- The read loop ----

  /** The state of the loop after some lines: finished entries are printed, the
      last one is in the variables. */
  ghost predicate LoopState(rs: seq<Reading>, count: nat, current: Gvk, printed: seq<Gvk>) {
    && Unexpected !in rs
    && (Items(rs) != [] ==> Items(rs)[0].dash)
    && (count == 0 <==> Items(rs) == [])
    && GvksOfReadings(rs) == (if count == 0 then [] else printed + [current])
    && (count == 0 ==> printed == [])
    && forall g | g in printed :: Complete(g)
  }

  lemma LoopSkips(rs: seq<Reading>, count: nat, current: Gvk, printed: seq<Gvk>)
    requires LoopState(rs, count, current, printed)
    ensures LoopState(rs + [Skipped], count, current, printed)
  {
    assert (rs + [Skipped])[..|rs|] == rs;
  }

  lemma LoopStarts(rs: seq<Reading>, count: nat, current: Gvk, printed: seq<Gvk>, x: Item)
    requires LoopState(rs, count, current, printed)
    requires x.dash && (count > 0 ==> Complete(current))
    ensures LoopState(rs + [Found(x)], count + 1, Assigned(NO_GVK, x), if count > 0 then printed + [current] else printed)
  {
    assert (rs + [Found(x)])[..|rs|] == rs;
    StartingLine(rs, x);
  }

  lemma LoopContinues(rs: seq<Reading>, count: nat, current: Gvk, printed: seq<Gvk>, x: Item)
    requires LoopState(rs, count, current, printed)
    requires !x.dash && count > 0
    ensures LoopState(rs + [Found(x)], count, Assigned(current, x), printed)
  {
    assert (rs + [Found(x)])[..|rs|] == rs;
    ContinuingLine(rs, x);
    assert (printed + [current])[..|printed|] == printed;
  }

  /** Earlier items and closed entries keep their place. */
  lemma {:induction false} ItemsGrow(rs: seq<Reading>, i: nat)
    requires i <= |rs|
    ensures Items(rs[..i]) <= Items(rs)
    decreases |rs| - i
  {
    if i == |rs| {
      assert rs[..i] == rs;
    } else {
      ItemsGrow(rs, i + 1);
      assert rs[..i + 1][..i] == rs[..i];
    }
  }

  lemma {:induction false} EntriesGrow(items: seq<Item>, i: nat)
    requires 0 < i <= |items|
    ensures var before := Entries(items[..i]);
            before != [] && |before| <= |Entries(items)| && before[..|before| - 1] <= Entries(items)
    decreases |items| - i
  {
    if i == |items| {
      assert items[..i] == items;
    } else {
      assert items[..i + 1] == items[..i] + [items[i]];
      EntriesStep(items[..i], items[i]);
      EntriesGrow(items, i + 1);
      PrefixChain(Entries(items[..i]), Entries(items[..i + 1]), Entries(items));
    }
  }

  lemma EntriesStep(items: seq<Item>, x: Item)
    requires items != []
    ensures var before, after := Entries(items), Entries(items + [x]);
            |before| <= |after| && before[..|before| - 1] <= after[..|after| - 1]
  {
    EntriesOneMore(items, x);
  }

  lemma PrefixChain(a: seq<seq<Item>>, b: seq<seq<Item>>, c: seq<seq<Item>>)
    requires a != [] && b != [] && a[..|a| - 1] <= b[..|b| - 1] && b[..|b| - 1] <= c
    ensures a[..|a| - 1] <= c
  {
  }

  lemma {:induction false} GvksPrefix(a: seq<seq<Item>>, b: seq<seq<Item>>)
    requires a <= b
    ensures GvksOf(a) <= GvksOf(b)
  {
    forall i | 0 <= i < |a| ensures GvksOf(a)[i] == GvksOf(b)[i] {
      assert a[i] == b[i];
    }
  }

  lemma NoDashIsRejected(rs: seq<Reading>, i: nat)
    requires i < |rs| && Items(rs[..i]) == [] && rs[i].Found? && !rs[i].item.dash
    ensures !AcceptedReadings(rs)
  {
    assert rs[..i + 1][..i] == rs[..i];
    ItemsGrow(rs, i + 1);
  }

  /** A later dash closes the entries before it. */
  lemma ClosedGvksStay(rs: seq<Reading>, i: nat)
    requires i < |rs| && rs[i].Found? && rs[i].item.dash
    ensures GvksOfReadings(rs[..i]) <= GvksOfReadings(rs)
  {
    var items := Items(rs[..i]);
    var n := |items| + 1;
    assert rs[..i + 1][..i] == rs[..i];
    ItemsGrow(rs, i + 1);
    assert Items(rs)[..n] == items + [rs[i].item];
    EntriesGrow(Items(rs), n);
    EntriesOneMore(items, rs[i].item);
    var closed := Entries(items) + [[rs[i].item]];
    assert closed[..|closed| - 1] == Entries(items);
    GvksPrefix(Entries(items), Entries(Items(rs)));
  }

  lemma IncompleteIsRejected(rs: seq<Reading>, i: nat, count: nat, current: Gvk, printed: seq<Gvk>)
    requires i < |rs| && rs[i].Found? && rs[i].item.dash
    requires LoopState(rs[..i], count, current, printed) && count > 0 && !Complete(current)
    ensures !AcceptedReadings(rs)
  {
    ClosedGvksStay(rs, i);
    assert GvksOfReadings(rs)[|printed|] == current;
    assert current in GvksOfReadings(rs);
  }

  /** A significant line: starts an entry, printing the one before, or adds a key
      to the current one. */
  method TakeItem(x: Item, count0: nat, current0: Gvk, printed0: seq<Gvk>, ghost rs: seq<Reading>, ghost i: nat)
    returns (error: Option<ListError>, count: nat, current: Gvk, printed: seq<Gvk>)
    requires i < |rs| && rs[i] == Found(x) && LoopState(rs[..i], count0, current0, printed0)
    ensures error.None? ==> LoopState(rs[..i + 1], count, current, printed)
    ensures error.Some? ==> !AcceptedReadings(rs)
  {
    error, count, current, printed := None, count0, current0, printed0;
    assert rs[..i + 1] == rs[..i] + [Found(x)];
    if x.dash {
      if count > 0 {
        if !Complete(current) {
          IncompleteIsRejected(rs, i, count, current, printed);
          error := Some(IncompleteEntry);
          return;
        }
      }
      LoopStarts(rs[..i], count, current, printed, x);
      printed := if count > 0 then printed + [current] else printed;
      count, current := count + 1, NO_GVK;
    } else if count == 0 {
      NoDashIsRejected(rs, i);
      error := Some(BeforeFirstEntry);
      return;
    } else {
      LoopContinues(rs[..i], count, current, printed, x);
    }
    current := Assigned(current, x);
  }

  lemma UnexpectedIsRejected(rs: seq<Reading>, i: nat)
    requires i < |rs| && rs[i] == Unexpected
    ensures !AcceptedReadings(rs)
  {
    assert rs[i] in rs;
  }

  method TakeLine(read: Reading, count0: nat, current0: Gvk, printed0: seq<Gvk>, ghost rs: seq<Reading>, ghost i: nat)
    returns (error: Option<ListError>, count: nat, current: Gvk, printed: seq<Gvk>)
    requires i < |rs| && rs[i] == read && LoopState(rs[..i], count0, current0, printed0)
    ensures error.None? ==> LoopState(rs[..i + 1], count, current, printed)
    ensures error.Some? ==> !AcceptedReadings(rs)
  {
    match read
    case Skipped =>
      error, count, current, printed := None, count0, current0, printed0;
      assert rs[..i + 1] == rs[..i] + [Skipped];
      LoopSkips(rs[..i], count, current, printed);
    case Unexpected =>
      error, count, current, printed := Some(UnexpectedLine), count0, current0, printed0;
      UnexpectedIsRejected(rs, i);
    case Found(x) =>
      error, count, current, printed := TakeItem(x, count0, current0, printed0, rs, i);
  }

  /** After the last line the current entry is printed too. */
  lemma LoopEnd(rs: seq<Reading>, count: nat, current: Gvk, printed: seq<Gvk>)
    requires LoopState(rs, count, current, printed)
    ensures AcceptedReadings(rs) <==> count > 0 && Complete(current)
    ensures count > 0 ==> GvksOfReadings(rs) == printed + [current]
  {
    assert count > 0 ==> current in printed + [current];
  }

  /** The read loop accepts exactly the accepted lists and returns their GVKs. */
  method ResourceIdRules(text: string) returns (r: Result<seq<Gvk>, ListError>)
    ensures r.Success? <==> Accepted(text)
    ensures r.Success? ==> r.value == GvksIn(text)
  {
    var lines := Lines(text);
    ghost var rs := Readings(text);
    var count: nat, current := 0, NO_GVK;
    var printed: seq<Gvk> := [];
    for i := 0 to |lines|
      invariant LoopState(rs[..i], count, current, printed)
    {
      var error;
      error, count, current, printed := TakeLine(ReadLine(lines[i]), count, current, printed, rs, i);
      if error.Some? {
        return Failure(error.value);
      }
    }
    assert rs[..|lines|] == rs;
    LoopEnd(rs, count, current, printed);
    if count == 0 {
      return Failure(NoGvks);
    }
    if !Complete(current) {
      return Failure(IncompleteEntry);
    }
    r := Success(printed + [current]);
  }
}
