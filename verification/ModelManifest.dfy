/** The model tree manifest: printed from the files of a directory, parsed back from
    the raw archive. */
module ModelManifest {
  import opened Lists
  import opened Sequences
  import opened Sorting
  import opened TextLines
  import opened TextOrder

  /** One model file: the hexadecimal digest of its bytes and its relative path. */
  datatype Entry = Entry(digest: Text, name: Text)

  predicate Lower(a: int, b: int) { a < b }

  predicate HexChar(c: int) { 48 <= c <= 57 || 97 <= c <= 102 }

  /** The safe path alphabet: letters, digits and `._/+@=-`. */
  predicate NameChar(c: int) {
    48 <= c <= 57 || 65 <= c <= 90 || 97 <= c <= 122 || c in {46, 95, 47, 43, 64, 61, 45}
  }

  predicate AllHex(t: Text) { forall i :: 0 <= i < |t| ==> HexChar(t[i]) }

  predicate AllNameChars(t: Text) { t != [] && forall i :: 0 <= i < |t| ==> NameChar(t[i]) }

  predicate IsSlash(c: int) { c == 47 }

  /** An absolute path, or one with a `..` component. */
  predicate Unsafe(name: Text)
    requires name != []
  {
    IsSlash(name[0]) || [46, 46] in Pieces(IsSlash, name)
  }

  predicate EntryOk(e: Entry) {
    |e.digest| == 64 && AllHex(e.digest) && AllNameChars(e.name) && !Unsafe(e.name)
  }

  predicate EntriesOk(entries: seq<Entry>) {
    forall i :: 0 <= i < |entries| ==> EntryOk(entries[i])
  }

  predicate DistinctNames(entries: seq<Entry>) {
    forall i, j :: 0 <= i < j < |entries| ==> entries[i].name != entries[j].name
  }

  // ----- printing --------------------------------------------------------------------

  predicate ByName(a: Entry, b: Entry) { a.name == b.name || Before(Lower, a.name, b.name) }

  function LineOf(e: Entry): Text { e.digest + [32, 32] + e.name }

  function Printed(entries: seq<Entry>): Text {
    if entries == [] then [] else LineOf(entries[0]) + [Newline] + Printed(entries[1..])
  }

  /** `model_tree_manifest_bytes`: the files in path order. */
  function Print(entries: seq<Entry>): Text { Printed(Sort(ByName, entries)) }

  // ----- parsing ---------------------------------------------------------------------

  function ParseLine(line: Text): Option<Entry> {
    if |line| > 66 && AllHex(line[..64]) && line[64] == 32 && line[65] == 32 && AllNameChars(line[66..])
    then Some(Entry(line[..64], line[66..])) else None
  }

  /** The two variables of the parsing loop. */
  datatype Parsed = Parsed(result: map<Text, Text>, previous: Option<Text>)

  function Next(p: Parsed, line: Text): Option<Parsed> {
    var e := ParseLine(line);
    if e.None? || Unsafe(e.value.name) || e.value.name in p.result
       || (p.previous.Some? && !Before(Lower, p.previous.value, e.value.name))
    then None
    else Some(Parsed(p.result[e.value.name := e.value.digest], Some(e.value.name)))
  }

  function ParseLines(lines: seq<Text>): Option<Parsed> {
    if lines == [] then Some(Parsed(map[], None))
    else
      var before := ParseLines(DropLast(lines));
      if before.None? then None else Next(before.value, Last(lines))
  }

  predicate Framed(raw: Text, cap: nat) {
    raw != [] && |raw| <= cap && Last(raw) == Newline && forall i :: 0 <= i < |raw| ==> 0 <= raw[i] < 128
  }

  function Parse(raw: Text, cap: nat): Option<map<Text, Text>> {
    if !Framed(raw, cap) then None
    else
      var p := ParseLines(SplitLines(raw));
      if p.None? || p.value.result == map[] then None else Some(p.value.result)
  }

  lemma {:induction false} ParseLinesSnoc(lines: seq<Text>, line: Text)
    ensures ParseLines(lines + [line]) ==
            var before := ParseLines(lines); if before.None? then None else Next(before.value, line)
  {
    assert DropLast(lines + [line]) == lines;
  }

  lemma {:induction false} ParsedPrefix(lines: seq<Text>, n: nat)
    requires n <= |lines| && ParseLines(lines).Some?
    ensures ParseLines(lines[..n]).Some?
  {
    if n == |lines| {
      assert lines[..n] == lines;
    } else {
      ParsedPrefix(DropLast(lines), n);
      assert DropLast(lines)[..n] == lines[..n];
    }
  }

  /** `_parse_model_manifest`: a dictionary and the previous path. */
  method ParseManifest(raw: Text, cap: nat) returns (r: Option<map<Text, Text>>)
    ensures r == Parse(raw, cap)
  {
    if !Framed(raw, cap) { return None; }
    var lines := SplitLines(raw);
    var p := Parsed(map[], None);
    for i := 0 to |lines|
      invariant ParseLines(lines[..i]) == Some(p)
    {
      assert lines[..i + 1] == lines[..i] + [lines[i]];
      ParseLinesSnoc(lines[..i], lines[i]);
      var next := Next(p, lines[i]);
      if next.None? {
        if ParseLines(lines).Some? { ParsedPrefix(lines, i + 1); }
        return None;
      }
      p := next.value;
    }
    assert lines[..|lines|] == lines;
    return if p.result == map[] then None else Some(p.result);
  }

  // ----- path order ------------------------------------------------------------------

  lemma {:induction false} ByNameCompares()
    ensures Comparison(ByName)
  {
    forall a, b ensures ByName(a, b) || ByName(b, a) { BeforeTotal(Lower, a.name, b.name); }
    forall a, b, c | ByName(a, b) && ByName(b, c) ensures ByName(a, c) {
      if a.name != b.name && b.name != c.name { BeforeTransitive(Lower, a.name, b.name, c.name); }
    }
  }

  lemma {:induction false} NamesSeparate(entries: seq<Entry>)
    requires DistinctNames(entries)
    ensures Separates(ByName, entries)
  {
    forall i, j | 0 <= i < |entries| && 0 <= j < |entries| && ByName(entries[i], entries[j]) && ByName(entries[j], entries[i])
      ensures entries[i] == entries[j]
    {
      BeforeTotal(Lower, entries[i].name, entries[j].name);
      assert !(i < j) && !(j < i);
    }
  }

  /** The order in which the directory is walked does not matter. */
  lemma {:induction false} PrintIgnoresOrder(a: seq<Entry>, b: seq<Entry>)
    requires DistinctNames(a) && multiset(a) == multiset(b)
    ensures Print(a) == Print(b)
  {
    ByNameCompares();
    NamesSeparate(a);
    SortIgnoresOrder(ByName, a, b);
  }

  /** Strictly ascending paths. */
  predicate Ascends(entries: seq<Entry>) {
    forall i :: 0 < i < |entries| ==> Before(Lower, entries[i - 1].name, entries[i].name)
  }

  lemma {:induction false} InsertKeepsDistinct(x: Entry, s: seq<Entry>)
    requires DistinctNames([x] + s)
    ensures DistinctNames(Insert(ByName, x, s))
    ensures forall e :: e in Insert(ByName, x, s) <==> e == x || e in s
  {
    if s != [] && !ByName(x, s[0]) {
      var all := [x] + s;
      assert all[1..] == s && [x] + s[1..] == [all[0]] + all[2..];
      assert DistinctNames([x] + s[1..]) by {
        forall i, j | 0 <= i < j < |[x] + s[1..]| ensures ([x] + s[1..])[i].name != ([x] + s[1..])[j].name {
          assert all[if i == 0 then 0 else i + 1].name != all[j + 1].name;
        }
      }
      InsertKeepsDistinct(x, s[1..]);
      var rest := Insert(ByName, x, s[1..]);
      assert s == [s[0]] + s[1..];
      forall j | 0 <= j < |rest| ensures rest[j].name != s[0].name {
        assert rest[j] in rest;
        if rest[j] == x {
          assert all[0].name != all[1].name;
        } else {
          var k :| 0 <= k < |s[1..]| && s[1..][k] == rest[j];
          assert all[1].name != all[k + 2].name;
        }
      }
    }
  }

  lemma {:induction false} SortKeepsDistinct(s: seq<Entry>)
    requires DistinctNames(s)
    ensures DistinctNames(Sort(ByName, s))
  {
    if s != [] {
      var rest := Sort(ByName, s[1..]);
      SortKeepsDistinct(s[1..]);
      forall j | 0 <= j < |rest| ensures rest[j].name != s[0].name {
        SortHolds(ByName, s[1..], rest[j]);
        var k :| 0 <= k < |s[1..]| && s[1..][k] == rest[j];
        assert s[0].name != s[k + 1].name;
      }
      InsertKeepsDistinct(s[0], rest);
    }
  }

  lemma {:induction false} SortedNamesAscend(entries: seq<Entry>)
    requires DistinctNames(entries)
    ensures Ascends(Sort(ByName, entries))
  {
    ByNameCompares();
    SortSorts(ByName, entries);
    SortKeepsDistinct(entries);
    var s := Sort(ByName, entries);
    forall i | 0 < i < |s| ensures Before(Lower, s[i - 1].name, s[i].name) {
      assert ByName(s[i - 1], s[i]) && s[i - 1].name != s[i].name;
    }
  }

  // ----- the round trip --------------------------------------------------------------

  lemma {:induction false} LineParses(e: Entry)
    requires EntryOk(e)
    ensures ParseLine(LineOf(e)) == Some(e)
    ensures forall x :: x in LineOf(e) ==> !Breaks(x) && 0 <= x < 128
  {
    var line := LineOf(e);
    assert line[..64] == e.digest && line[66..] == e.name;
    assert line[64] == 32 && line[65] == 32;
  }

  function LinesOf(entries: seq<Entry>): (r: seq<Text>)
    ensures |r| == |entries| && forall i :: 0 <= i < |entries| ==> r[i] == LineOf(entries[i])
  {
    seq(|entries|, i requires 0 <= i < |entries| => LineOf(entries[i]))
  }

  lemma {:induction false} LinesOfSnoc(entries: seq<Entry>)
    requires entries != []
    ensures LinesOf(entries) == LinesOf(DropLast(entries)) + [LineOf(Last(entries))]
  {
    var all := LinesOf(DropLast(entries)) + [LineOf(Last(entries))];
    forall i | 0 <= i < |entries| ensures LinesOf(entries)[i] == all[i] { }
  }

  lemma {:induction false} PrintedIsPlain(entries: seq<Entry>)
    requires EntriesOk(entries)
    ensures forall x :: x in Printed(entries) ==> 0 <= x < 128 && (Breaks(x) ==> x == Newline)
    ensures entries != [] ==> Printed(entries) != [] && Last(Printed(entries)) == Newline
  {
    if entries != [] {
      LineParses(entries[0]);
      PrintedIsPlain(entries[1..]);
      if entries[1..] == [] { assert Printed(entries) == LineOf(entries[0]) + [Newline]; }
    }
  }

  lemma {:induction false} StrippedLineIsLine(e: Entry)
    requires EntryOk(e)
    ensures Stripped(LineOf(e)) == LineOf(e) && Newline !in LineOf(e)
  {
    LineParses(e);
    assert Last(LineOf(e)) in LineOf(e);
  }

  lemma {:induction false} PrintedLines(entries: seq<Entry>)
    requires EntriesOk(entries)
    ensures StreamLines(Printed(entries)) == LinesOf(entries)
  {
    if entries != [] {
      var line, rest := LineOf(entries[0]), Printed(entries[1..]);
      StrippedLineIsLine(entries[0]);
      PieceCut(IsNewline, line, Newline, rest);
      PrintedLines(entries[1..]);
      MappedCons(line, NewlineLines(rest));
      assert LinesOf(entries) == [line] + LinesOf(entries[1..]);
    }
  }

  lemma {:induction false} PrintedSplits(entries: seq<Entry>)
    requires EntriesOk(entries)
    ensures SplitLines(Printed(entries)) == LinesOf(entries)
  {
    var text := Printed(entries);
    PrintedIsPlain(entries);
    forall i | 0 <= i < |text| ensures PlainAt(text, i) { assert text[i] in text; }
    ReadersAgreeIffPlain(text);
    PrintedLines(entries);
  }

  ghost predicate Listed(entries: seq<Entry>, n: Text) { exists e :: e in entries && e.name == n }

  /** `t` maps exactly the listed paths to their digests. */
  ghost predicate IsTable(t: map<Text, Text>, entries: seq<Entry>) {
    && (forall n :: n in t ==> Listed(entries, n))
    && (forall e :: e in entries ==> e.name in t && t[e.name] == e.digest)
  }

  lemma {:induction false} EarlierNames(entries: seq<Entry>, i: nat, j: nat)
    requires Ascends(entries) && i < j < |entries|
    ensures Before(Lower, entries[i].name, entries[j].name)
    decreases j
  {
    if i < j - 1 {
      EarlierNames(entries, i, j - 1);
      BeforeTransitive(Lower, entries[i].name, entries[j - 1].name, entries[j].name);
    }
  }

  lemma {:induction false} TableSnoc(t: map<Text, Text>, front: seq<Entry>, e: Entry)
    requires IsTable(t, front) && e.name !in t
    ensures IsTable(t[e.name := e.digest], front + [e])
  {
    var all := front + [e];
    forall n | n in t[e.name := e.digest] ensures Listed(all, n) {
      if n == e.name {
        assert e in all;
      } else {
        assert Listed(front, n);
        var x :| x in front && x.name == n;
        assert x in all;
      }
    }
  }

  /** The parser takes a line whose path is new and above the previous one. */
  lemma {:induction false} LineIsTaken(p: Parsed, e: Entry)
    requires EntryOk(e) && e.name !in p.result
    requires p.previous.Some? ==> Before(Lower, p.previous.value, e.name)
    ensures Next(p, LineOf(e)) == Some(Parsed(p.result[e.name := e.digest], Some(e.name)))
  {
    LineParses(e);
  }

  /** What the parser holds after the lines of `entries`. */
  ghost predicate Holds(p: Parsed, entries: seq<Entry>) {
    && IsTable(p.result, entries)
    && p.previous == if entries == [] then None else Some(Last(entries).name)
  }

  lemma {:induction false} OneMoreHeld(p: Parsed, entries: seq<Entry>)
    requires entries != [] && EntryOk(Last(entries)) && Ascends(entries) && Holds(p, DropLast(entries))
    ensures Next(p, LineOf(Last(entries))).Some? && Holds(Next(p, LineOf(Last(entries))).value, entries)
  {
    var front, e := DropLast(entries), Last(entries);
    NewName(entries, p.result);
    if front != [] { assert Before(Lower, entries[|entries| - 2].name, e.name); }
    LineIsTaken(p, e);
    TableSnoc(p.result, front, e);
    WithLast(entries);
  }

  lemma {:induction false} LinesParse(entries: seq<Entry>)
    requires EntriesOk(entries) && Ascends(entries)
    ensures ParseLines(LinesOf(entries)).Some? && Holds(ParseLines(LinesOf(entries)).value, entries)
  {
    if entries != [] {
      var front := DropLast(entries);
      LinesParse(front);
      LinesOfSnoc(entries);
      ParseLinesSnoc(LinesOf(front), LineOf(Last(entries)));
      OneMoreHeld(ParseLines(LinesOf(front)).value, entries);
    }
  }

  lemma {:induction false} NewName(entries: seq<Entry>, t: map<Text, Text>)
    requires entries != [] && Ascends(entries) && IsTable(t, DropLast(entries))
    ensures Last(entries).name !in t
  {
    if Last(entries).name in t {
      assert Listed(DropLast(entries), Last(entries).name);
      var e :| e in DropLast(entries) && e.name == Last(entries).name;
      var i :| 0 <= i < |entries| - 1 && entries[i] == e;
      EarlierNames(entries, i, |entries| - 1);
      BeforeTotal(Lower, e.name, e.name);
    }
  }

  lemma {:induction false} SameMembers(s: seq<Entry>, entries: seq<Entry>, t: map<Text, Text>)
    requires forall e :: e in s <==> e in entries
    ensures IsTable(t, s) <==> IsTable(t, entries)
  {
  }

  lemma {:induction false} SortedOk(entries: seq<Entry>)
    requires EntriesOk(entries)
    ensures EntriesOk(Sort(ByName, entries))
    ensures forall e :: e in Sort(ByName, entries) <==> e in entries
  {
    var s := Sort(ByName, entries);
    forall e ensures e in s <==> e in entries { SortHolds(ByName, entries, e); }
    forall i | 0 <= i < |s| ensures EntryOk(s[i]) { assert s[i] in s && s[i] in entries; }
  }

  lemma {:induction false} SortedParses(s: seq<Entry>, cap: nat)
    requires s != [] && EntriesOk(s) && Ascends(s) && |Printed(s)| <= cap
    ensures Parse(Printed(s), cap).Some? && IsTable(Parse(Printed(s), cap).value, s)
  {
    PrintedIsPlain(s);
    PrintedSplits(s);
    LinesParse(s);
    assert s[0] in s;
  }

  /** Print then parse: whatever the order in which the files were found, a manifest
      within the cap parses to exactly their digests by path. */
  lemma {:induction false} PrintedParses(entries: seq<Entry>, cap: nat)
    requires entries != [] && EntriesOk(entries) && DistinctNames(entries) && |Print(entries)| <= cap
    ensures Parse(Print(entries), cap).Some? && IsTable(Parse(Print(entries), cap).value, entries)
  {
    SortedNamesAscend(entries);
    SortedOk(entries);
    SortedParses(Sort(ByName, entries), cap);
    SameMembers(Sort(ByName, entries), entries, Parse(Print(entries), cap).value);
  }

  // ----- what the parser accepts -----------------------------------------------------

  /** The digest alphabet. */
  lemma {:induction false} HexCharIs(c: char)
    ensures HexChar(c as int) <==> c in "0123456789abcdef"
  {
  }

  /** The path alphabet. */
  lemma {:induction false} NameCharIs(c: char)
    ensures NameChar(c as int) <==>
            || c in "0123456789" || c in "abcdefghijklmnopqrstuvwxyz" || c in "ABCDEFGHIJKLMNOPQRSTUVWXYZ"
            || c in "._/+@=-"
  {
  }

  /** `..` between slashes or ends. */
  predicate DotsAt(name: Text, i: nat)
    requires i + 1 < |name|
  {
    && name[i] == '.' as int && name[i + 1] == '.' as int
    && (i == 0 || name[i - 1] == '/' as int) && (i + 2 == |name| || name[i + 2] == '/' as int)
  }

  /** Unsafe paths begin with a slash or have `..` between slashes or ends. */
  lemma {:induction false} UnsafeIff(name: Text)
    requires name != []
    ensures Unsafe(name) <==>
            || name[0] == '/' as int
            || exists i :: 0 <= i < |name| - 1 && DotsAt(name, i)
  {
    var dots: Text := [46, 46];
    PieceIff(IsSlash, name, dots);
    forall i: nat | i + 1 < |name| ensures DotsAt(name, i) <==> Between(IsSlash, name, dots, i) { DotsBetween(name, i); }
  }

  lemma {:induction false} DotsBetween(name: Text, i: nat)
    requires i + 1 < |name|
    ensures DotsAt(name, i) <==> Between(IsSlash, name, [46, 46], i)
  {
    var dots: Text := [46, 46];
    assert dots[0] == 46 && dots[1] == 46;
    if Between(IsSlash, name, dots, i) { assert dots[0] == name[i + 0] && dots[1] == name[i + 1]; }
  }

  lemma {:induction false} ParsedLine(line: Text)
    requires ParseLine(line).Some?
    ensures var e := ParseLine(line).value;
            line == LineOf(e) && |e.digest| == 64 && AllHex(e.digest) && AllNameChars(e.name)
  {
    assert line == line[..64] + [line[64], line[65]] + line[66..];
  }

  lemma {:induction false} NextIsEntry(p: Parsed, line: Text)
    requires Next(p, line).Some?
    ensures var e := ParseLine(line).value;
            && ParseLine(line).Some? && EntryOk(e) && line == LineOf(e) && e.name !in p.result
            && (p.previous.Some? ==> Before(Lower, p.previous.value, e.name))
            && Next(p, line).value == Parsed(p.result[e.name := e.digest], Some(e.name))
  {
    ParsedLine(line);
  }

  lemma {:induction false} AscendsSnoc(front: seq<Entry>, e: Entry)
    requires Ascends(front) && (front != [] ==> Before(Lower, Last(front).name, e.name))
    ensures Ascends(front + [e])
  {
    var all := front + [e];
    forall i | 0 < i < |all| ensures Before(Lower, all[i - 1].name, all[i].name) {
      if i < |front| { assert Before(Lower, front[i - 1].name, front[i].name); }
    }
  }

  lemma {:induction false} EntryAdded(p: Parsed, front: seq<Entry>, e: Entry)
    requires EntriesOk(front) && Ascends(front) && Holds(p, front) && EntryOk(e) && e.name !in p.result
    requires p.previous.Some? ==> Before(Lower, p.previous.value, e.name)
    ensures EntriesOk(front + [e]) && Ascends(front + [e])
    ensures Holds(Parsed(p.result[e.name := e.digest], Some(e.name)), front + [e])
  {
    AscendsSnoc(front, e);
    TableSnoc(p.result, front, e);
  }

  lemma {:induction false} HoldsSnoc(p: Parsed, front: seq<Entry>, line: Text)
    requires EntriesOk(front) && Ascends(front) && Holds(p, front) && Next(p, line).Some?
    ensures ParseLine(line).Some?
    ensures var all := front + [ParseLine(line).value];
            EntriesOk(all) && Ascends(all) && LinesOf(all) == LinesOf(front) + [line] && Holds(Next(p, line).value, all)
  {
    NextIsEntry(p, line);
    var e := ParseLine(line).value;
    EntryAdded(p, front, e);
    LinesOfSnoc(front + [e]);
    assert DropLast(front + [e]) == front;
  }

  /** Accepted lines are the lines of entries in strictly ascending path order. */
  lemma {:induction false} ParsedEntries(lines: seq<Text>) returns (entries: seq<Entry>)
    requires ParseLines(lines).Some?
    ensures EntriesOk(entries) && Ascends(entries) && LinesOf(entries) == lines && Holds(ParseLines(lines).value, entries)
  {
    entries := [];
    if lines != [] {
      var front := ParsedEntries(DropLast(lines));
      HoldsSnoc(ParseLines(DropLast(lines)).value, front, Last(lines));
      entries := front + [ParseLine(Last(lines)).value];
      WithLast(lines);
    }
  }

  lemma {:induction false} WithLast<T>(s: seq<T>)
    requires s != []
    ensures s == DropLast(s) + [Last(s)]
  {
  }

  lemma {:induction false} OneTable(t: map<Text, Text>, u: map<Text, Text>, entries: seq<Entry>)
    requires IsTable(t, entries) && IsTable(u, entries)
    ensures t == u
  {
    forall n | n in t ensures n in u && u[n] == t[n] { assert Listed(entries, n); }
    forall n | n in u ensures n in t { assert Listed(entries, n); }
  }

  /** `a` is a proper beginning of `b`, or has the smaller character where they part. */
  ghost predicate Precedes(a: Text, b: Text) {
    exists k :: 0 <= k < |b| && k <= |a| && a[..k] == b[..k] && (k == |a| || a[k] < b[k])
  }

  lemma {:induction false} PrecedesIff(a: Text, b: Text)
    ensures Precedes(a, b) <==> Before(Lower, a, b)
  {
    BeforeIff(Lower, a, b);
  }

  /** A text whose lines are those of entries in strictly ascending path order. */
  ghost predicate ListsTable(raw: Text, t: map<Text, Text>, entries: seq<Entry>) {
    && entries != [] && EntriesOk(entries) && SplitLines(raw) == LinesOf(entries) && IsTable(t, entries)
    && forall i :: 0 < i < |entries| ==> Precedes(entries[i - 1].name, entries[i].name)
  }

  /** The parser accepts exactly these texts, with exactly these tables. */
  lemma {:induction false} ParsesIffListed(raw: Text, cap: nat, t: map<Text, Text>)
    ensures Parse(raw, cap) == Some(t) <==>
            && raw != [] && |raw| <= cap && raw[|raw| - 1] == 10 && (forall i :: 0 <= i < |raw| ==> 0 <= raw[i] < 128)
            && exists entries :: ListsTable(raw, t, entries)
  {
    if Parse(raw, cap) == Some(t) {
      var entries := ParsedEntries(SplitLines(raw));
      forall i | 0 < i < |entries| ensures Precedes(entries[i - 1].name, entries[i].name) {
        PrecedesIff(entries[i - 1].name, entries[i].name);
      }
      assert ListsTable(raw, t, entries);
    }
    if Framed(raw, cap) && exists entries :: ListsTable(raw, t, entries) {
      var entries: seq<Entry> :| ListsTable(raw, t, entries);
      forall i | 0 < i < |entries| ensures Before(Lower, entries[i - 1].name, entries[i].name) {
        PrecedesIff(entries[i - 1].name, entries[i].name);
      }
      LinesParse(entries);
      OneTable(t, ParseLines(SplitLines(raw)).value.result, entries);
      assert entries[0] in entries;
    }
  }
}
