/** The two ways the soak checkers cut decoded event text into lines: the list
    path at every line boundary Python knows, the stream at newlines only. */
module TextLines {
  import opened Lists
  import opened Sequences

  /** Decoded text as code points. */
  type Text = seq<int>

  const Newline := 10
  const Return := 13

  /** The line boundaries of `str.splitlines`. */
  predicate Breaks(c: int) {
    10 <= c <= 13 || 28 <= c <= 30 || c == 0x85 || c == 0x2028 || c == 0x2029
  }

  /** Line feed, vertical tab, form feed, carriage return, the file, group and record
      separators, next line, and the line and paragraph separators. */
  lemma {:induction false} BreaksAre(c: int)
    ensures Breaks(c) <==>
            c in {0x0A, 0x0B, 0x0C, 0x0D, 0x1C, 0x1D, 0x1E, 0x85, 0x2028, 0x2029}
  {
  }

  predicate IsNewline(c: int) { c == Newline }

  /** Lines that end at newlines; a non-empty rest is the last line. */
  function NewlineLines(text: Text): seq<Text> { Pieces(IsNewline, text) }

  /** `splitlines`: a carriage return and a newline count as one boundary. */
  function SplitLines(text: Text): seq<Text>
    decreases |text|
  {
    if text == [] then []
    else
      var k := First(Breaks, text);
      if k == |text| then [text]
      else if text[k] == Return && k + 1 < |text| && text[k + 1] == Newline
      then [text[..k]] + SplitLines(text[k + 2..])
      else [text[..k]] + SplitLines(text[k + 1..])
  }

  /** The stream drops one trailing carriage return of each line. */
  function Stripped(line: Text): Text {
    if line != [] && Last(line) == Return then DropLast(line) else line
  }

  function StreamLines(text: Text): seq<Text> { Mapped(Stripped, NewlineLines(text)) }

  /** Only newlines, or carriage returns at the end of a line. */
  predicate PlainAt(text: Text, i: nat)
    requires i < |text|
  {
    Breaks(text[i]) ==> text[i] == Newline || (text[i] == Return && (i + 1 == |text| || text[i + 1] == Newline))
  }

  predicate Plain(text: Text) {
    forall i :: 0 <= i < |text| ==> PlainAt(text, i)
  }

  lemma {:induction false} MappedCons(line: Text, lines: seq<Text>)
    ensures Mapped(Stripped, [line] + lines) == [Stripped(line)] + Mapped(Stripped, lines)
  {
  }

  lemma {:induction false} PlainRest(text: Text, k: nat)
    requires Plain(text) && k <= |text|
    ensures Plain(text[k..])
  {
    forall i | 0 <= i < |text[k..]| ensures PlainAt(text[k..], i) { assert PlainAt(text, k + i); }
  }

  /** Where the next line of plain text ends, both ways. */
  lemma {:induction false} PlainEnds(text: Text)
    requires Plain(text)
    ensures var j, k := First(Breaks, text), First(IsNewline, text);
            if j == |text| || text[j] == Newline then k == j
            else text[j] == Return && k == j + 1
  {
    var j := First(Breaks, text);
    if j < |text| { assert PlainAt(text, j); }
    NewlineAfter(text, j);
  }

  lemma {:induction false} NewlineAfter(text: Text, j: nat)
    requires j <= |text| && (forall i :: 0 <= i < j ==> !Breaks(text[i]))
    requires j < |text| ==> Breaks(text[j]) && PlainAt(text, j)
    ensures First(IsNewline, text) == if j == |text| || text[j] == Newline then j else j + 1
  {
  }

  lemma {:induction false} StrippedClean(line: Text)
    requires forall i :: 0 <= i < |line| ==> !Breaks(line[i])
    ensures Stripped(line) == line && Stripped(line + [Return]) == line
  {
  }

  /** What the next line is, both ways. */
  lemma {:induction false} PlainLine(text: Text)
    requires Plain(text)
    ensures Stripped(text[..First(IsNewline, text)]) == text[..First(Breaks, text)]
  {
    var j, k := First(Breaks, text), First(IsNewline, text);
    PlainEnds(text);
    StrippedClean(text[..j]);
    if k == j + 1 { assert text[..k] == text[..j] + [Return]; }
  }

  lemma {:induction false} LastPlainLine(text: Text, j: nat)
    requires text != [] && j == First(Breaks, text)
    requires j == |text| || (j + 1 == |text| && text[j] == Return)
    ensures SplitLines(text) == [text[..j]]
  {
    if j == |text| { assert text[..j] == text; } else { assert text[j + 1..] == []; }
  }

  lemma {:induction false} PlainRestSame(text: Text)
    requires text != [] && Plain(text)
    ensures var j, k := First(Breaks, text), First(IsNewline, text);
            SplitLines(text) == [text[..j]] + if k < |text| then SplitLines(text[k + 1..]) else []
  {
    PlainEnds(text);
    var j, k := First(Breaks, text), First(IsNewline, text);
    if k == |text| { LastPlainLine(text, j); }
  }

  lemma {:induction false} StreamCons(text: Text)
    requires text != []
    ensures var k := First(IsNewline, text);
            StreamLines(text) == [Stripped(text[..k])] + if k < |text| then StreamLines(text[k + 1..]) else []
  {
    var k := First(IsNewline, text);
    if k < |text| {
      MappedCons(text[..k], NewlineLines(text[k + 1..]));
    } else {
      assert text[..k] == text;
      MappedCons(text, []);
    }
  }

  lemma {:induction false} PlainAgrees(text: Text)
    requires Plain(text)
    ensures SplitLines(text) == StreamLines(text)
    decreases |text|
  {
    if text != [] {
      var k := First(IsNewline, text);
      PlainLine(text);
      PlainRestSame(text);
      StreamCons(text);
      if k < |text| {
        PlainRest(text, k + 1);
        PlainAgrees(text[k + 1..]);
      }
    }
  }

  lemma {:induction false} SplitLinesHoldNoBreak(text: Text, n: nat, i: nat)
    requires n < |SplitLines(text)| && i < |SplitLines(text)[n]|
    ensures !Breaks(SplitLines(text)[n][i])
    decreases |text|
  {
    var k := First(Breaks, text);
    if n > 0 {
      SplitLinesHoldNoBreak(
        text[if text[k] == Return && k + 1 < |text| && text[k + 1] == Newline then k + 2 else k + 1..], n - 1, i);
    }
  }

  lemma {:induction false} BreakInLine(text: Text, i: nat)
    requires i < First(IsNewline, text) && !PlainAt(text, i)
    ensures var line := Stripped(text[..First(IsNewline, text)]); i < |line| && line[i] == text[i]
  {
  }

  /** Any other boundary stays inside a line of the stream. */
  lemma {:induction false} NotPlainLater(text: Text, k: nat, i: nat)
    requires k == First(IsNewline, text) <= i < |text| && !PlainAt(text, i)
    ensures k < i && !PlainAt(text[k + 1..], i - k - 1)
  {
    assert text[k + 1..][i - k - 1] == text[i];
  }

  lemma {:induction false} OtherBreakStays(text: Text, i: nat) returns (n: nat, at: nat)
    requires i < |text| && !PlainAt(text, i)
    ensures n < |StreamLines(text)| && at < |StreamLines(text)[n]| && Breaks(StreamLines(text)[n][at])
    decreases |text|
  {
    var k := First(IsNewline, text);
    StreamCons(text);
    if i < k {
      BreakInLine(text, i);
      n, at := 0, i;
    } else {
      NotPlainLater(text, k, i);
      n, at := OtherBreakStays(text[k + 1..], i - k - 1);
      n := n + 1;
    }
  }

  /** Both readers see the same lines exactly on plain text. */
  lemma {:induction false} ReadersAgreeIffPlain(text: Text)
    ensures SplitLines(text) == StreamLines(text) <==> Plain(text)
  {
    if Plain(text) {
      PlainAgrees(text);
    } else {
      var i :| 0 <= i < |text| && !PlainAt(text, i);
      var n, at := OtherBreakStays(text, i);
      if n < |SplitLines(text)| && at < |SplitLines(text)[n]| { SplitLinesHoldNoBreak(text, n, at); }
    }
  }

  /** A line separator inside a JSON string splits the list path's line in two. */
  lemma {:induction false} ReadersCanDiffer()
    ensures SplitLines([34, 0x2028, 34]) != StreamLines([34, 0x2028, 34])
  {
    assert !PlainAt([34, 0x2028, 34], 1);
    ReadersAgreeIffPlain([34, 0x2028, 34]);
  }
}
