/** UTF-8 (RFC 3629) as far as line readers depend on it: which bytes a text has,
    and that cutting at newlines commutes with encoding. */
module Utf8 {
  import opened Lists
  import opened Octets
  import opened Sequences
  import opened TextLines
  import Jsonl

  /** Unicode scalar values. */
  predicate IsScalar(c: int) { 0 <= c < 0xD800 || 0xE000 <= c < 0x110000 }

  predicate IsText(t: Text) {
    forall i :: 0 <= i < |t| ==> IsScalar(t[i])
  }

  function Tail(c: nat): Byte { 0x80 + c % 64 }

  /** The one to four bytes of a character. */
  function Char(c: int): (b: Bytes)
    requires IsScalar(c)
    ensures b != [] && (c < 0x80 ==> b == [c])
    ensures c >= 0x80 ==> forall i :: 0 <= i < |b| ==> b[i] >= 0x80
  {
    if c < 0x80 then [c]
    else if c < 0x800 then [0xC0 + c / 64, Tail(c)]
    else if c < 0x10000 then [0xE0 + c / 4096, Tail(c / 64), Tail(c)]
    else [0xF0 + c / 262144, Tail(c / 4096), Tail(c / 64), Tail(c)]
  }

  /** The value of a byte above its marker. */
  function Bits(b: Byte, marker: int): int { b as int - marker }

  /** The bits of a character in its bytes: 7, 5 + 6, 4 + 6 + 6 or 3 + 6 + 6 + 6. */
  predicate Spells(b: Bytes, c: int) {
    || (|b| == 1 && b[0] < 0x80 && c == b[0])
    || (|b| == 2 && 0xC0 <= b[0] < 0xE0 && c == Bits(b[0], 0xC0) * 0x40 + Bits(b[1], 0x80))
    || (|b| == 3 && 0xE0 <= b[0] < 0xF0 && c == Bits(b[0], 0xE0) * 0x1000 + Bits(b[1], 0x80) * 0x40 + Bits(b[2], 0x80))
    || (|b| == 4 && 0xF0 <= b[0] < 0xF8
        && c == Bits(b[0], 0xF0) * 0x40000 + Bits(b[1], 0x80) * 0x1000 + Bits(b[2], 0x80) * 0x40 + Bits(b[3], 0x80))
  }

  /** The shortest of these spellings, with continuation bytes from 0x80 to 0xBF. */
  lemma {:induction false} CharSpells(c: int)
    requires IsScalar(c)
    ensures Spells(Char(c), c) && forall i :: 0 < i < |Char(c)| ==> 0x80 <= Char(c)[i] < 0xC0
    ensures |Char(c)| == if c < 0x80 then 1 else if c < 0x800 then 2 else if c < 0x10000 then 3 else 4
  {
    SixBits(c);
    SixBits(c / 64);
    SixBits(c / 4096);
    if c < 0x80 {
    } else if c < 0x800 {
      assert Char(c) == [0xC0 + c / 64, Tail(c)];
    } else if c < 0x10000 {
      Shifts(c);
      assert Char(c) == [0xE0 + c / 4096, Tail(c / 64), Tail(c)];
    } else {
      Shifts(c);
      assert Char(c) == [0xF0 + c / 262144, Tail(c / 4096), Tail(c / 64), Tail(c)];
    }
  }

  lemma {:induction false} SixBits(c: nat)
    ensures c == c / 64 * 64 + c % 64
  {
  }

  lemma {:induction false} Shifts(c: nat)
    ensures c / 64 / 64 == c / 4096 && c / 4096 / 64 == c / 262144
  {
  }

  lemma {:induction false} OneSpelling(b: Bytes, rest: Bytes, d: Bytes, other: Bytes, x: int, y: int)
    requires Spells(b, x) && Spells(d, y) && b + rest == d + other
    ensures b == d && x == y && rest == other
  {
    assert b[0] == (b + rest)[0] && d[0] == (d + other)[0];
    assert |b| == |d|;
    assert b == (b + rest)[..|b|] && d == (d + other)[..|d|];
    assert rest == (b + rest)[|b|..] && other == (d + other)[|d|..];
  }

  function Encode(t: Text): Bytes
    requires IsText(t)
  {
    if t == [] then [] else Char(t[0]) + Encode(t[1..])
  }

  /** What the library's decoder must do on encoded text. */
  ghost predicate Decodes(decode: Bytes -> Option<Text>) {
    forall t: Text :: IsText(t) ==> decode(Encode(t)) == Some(t)
  }

  /** Different texts have different bytes, so that a decoder can exist. */
  lemma {:induction false} EncodeInjective(a: Text, b: Text)
    requires IsText(a) && IsText(b) && Encode(a) == Encode(b)
    ensures a == b
  {
    if a != [] && b != [] {
      CharSpells(a[0]);
      CharSpells(b[0]);
      OneSpelling(Char(a[0]), Encode(a[1..]), Char(b[0]), Encode(b[1..]), a[0], b[0]);
      EncodeInjective(a[1..], b[1..]);
      assert a == [a[0]] + a[1..] && b == [b[0]] + b[1..];
    }
  }

  lemma {:induction false} TextAppend(a: Text, b: Text)
    requires IsText(a) && IsText(b)
    ensures IsText(a + b)
  {
  }

  lemma {:induction false} EncodeCons(c: int, t: Text)
    requires IsScalar(c) && IsText(t)
    ensures IsText([c] + t) && Encode([c] + t) == Char(c) + Encode(t)
  {
    assert ([c] + t)[1..] == t;
  }

  lemma {:induction false} EncodeAppend(a: Text, b: Text)
    requires IsText(a) && IsText(b)
    ensures IsText(a + b) && Encode(a + b) == Encode(a) + Encode(b)
  {
    TextAppend(a, b);
    if a == [] {
      assert a + b == b;
    } else {
      var c, rest := a[0], a[1..];
      EncodeAppend(rest, b);
      EncodeCons(c, rest + b);
      Grouped([c], rest, b);
      assert a == [c] + rest;
      Grouped(Char(c), Encode(rest), Encode(b));
    }
  }

  lemma {:induction false} Grouped<T>(a: seq<T>, b: seq<T>, c: seq<T>)
    ensures a + (b + c) == a + b + c
  {
  }

  /** A byte below 0x80 stands for itself and for nothing else. */
  lemma {:induction false} AsciiBytes(t: Text, c: Byte)
    requires IsText(t) && c < 0x80
    ensures c in Encode(t) <==> c in t
  {
    if t != [] {
      AsciiBytes(t[1..], c);
      assert t == [t[0]] + t[1..];
    }
  }

  lemma {:induction false} EncodeOne(c: int)
    requires 0 <= c < 0x80
    ensures IsText([c]) && Encode([c]) == [c]
  {
    assert [c][1..] == [];
  }

  lemma {:induction false} TextParts(line: Text, rest: Text)
    requires IsText(line + [Newline] + rest)
    ensures IsText(line) && IsText(rest)
  {
    var t := line + [Newline] + rest;
    forall i | 0 <= i < |line| ensures IsScalar(line[i]) { assert line[i] == t[i]; }
    forall i | 0 <= i < |rest| ensures IsScalar(rest[i]) { assert rest[i] == t[|line| + 1 + i]; }
  }

  lemma {:induction false} EncodeLine(line: Text, rest: Text)
    requires IsText(line + [Newline] + rest) && IsText(line) && IsText(rest)
    ensures Encode(line + [Newline] + rest) == Encode(line) + [Newline] + Encode(rest)
  {
    EncodeOne(Newline);
    EncodeAppend(line, [Newline]);
    EncodeAppend(line + [Newline], rest);
  }

  /** The first line of a text, on both sides. */
  lemma {:induction false} EncodeFirstLine(t: Text, line: Text, rest: Text)
    requires IsText(t) && t == line + [Newline] + rest && Newline !in line
    ensures IsText(line) && IsText(rest)
    ensures Jsonl.Lines(Encode(t)) == [Encode(line)] + Jsonl.Lines(Encode(rest))
  {
    TextParts(line, rest);
    EncodeLine(line, rest);
    AsciiBytes(line, Newline);
    PieceCut<Byte>(Jsonl.IsNewline, Encode(line), Jsonl.Newline, Encode(rest));
  }

  predicate AllText(lines: seq<Text>) {
    forall i :: 0 <= i < |lines| ==> IsText(lines[i])
  }

  function EncodeAll(lines: seq<Text>): (r: seq<Bytes>)
    requires AllText(lines)
    ensures |r| == |lines| && forall i :: 0 <= i < |lines| ==> r[i] == Encode(lines[i])
  {
    seq(|lines|, i requires 0 <= i < |lines| => Encode(lines[i]))
  }

  lemma {:induction false} EncodeAllCons(line: Text, lines: seq<Text>)
    requires IsText(line) && AllText(lines)
    ensures AllText([line] + lines) && EncodeAll([line] + lines) == [Encode(line)] + EncodeAll(lines)
  {
  }

  lemma {:induction false} EncodeNothing(t: Text)
    requires IsText(t)
    ensures Encode(t) == [] <==> t == []
  {
  }

  /** Cutting the bytes at newlines cuts the text at newlines. */
  lemma {:induction false} LinesOfText(t: Text)
    requires IsText(t)
    ensures AllText(NewlineLines(t)) && Jsonl.Lines(Encode(t)) == EncodeAll(NewlineLines(t))
    decreases |t|
  {
    var k := First(IsNewline, t);
    if t == [] {
    } else if k == |t| {
      AsciiBytes(t, Newline);
      EncodeNothing(t);
      LastPiece<Byte>(Jsonl.IsNewline, Encode(t));
      LastPiece(IsNewline, t);
    } else {
      var line, rest := t[..k], t[k + 1..];
      assert t == line + [Newline] + rest;
      EncodeFirstLine(t, line, rest);
      PieceCut(IsNewline, line, Newline, rest);
      LinesOfText(rest);
      EncodeAllCons(line, NewlineLines(rest));
    }
  }

  /** Dropping a trailing carriage return of the bytes drops that of the text. */
  function StrippedBytes(raw: Bytes): Bytes {
    if raw != [] && Last(raw) == Return then DropLast(raw) else raw
  }

  lemma {:induction false} StrippedLine(line: Text)
    requires IsText(line)
    ensures IsText(Stripped(line)) && StrippedBytes(Encode(line)) == Encode(Stripped(line))
  {
    if line != [] {
      var front, c := DropLast(line), Last(line);
      assert line == front + [c];
      assert [c][1..] == [];
      EncodeAppend(front, [c]);
      assert Encode([c]) == Char(c);
      assert Last(Encode(line)) == Last(Char(c));
      if c == Return { assert DropLast(Encode(line)) == Encode(front); }
    }
  }
}
