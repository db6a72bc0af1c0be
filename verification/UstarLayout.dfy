/** The bytes of a canonical header, field by field, as the ustar interchange format
    of POSIX.1 (IEEE Std 1003.1, pax utility) and the writer's metadata fix them. */
module UstarLayout {
  import opened Sequences
  import opened Octets
  import opened UstarFormat

  /** The sum of all bytes as unsigned values. */
  function Total(s: Bytes): nat {
    if s == [] then 0 else s[0] as int + Total(s[1..])
  }

  predicate OctalDigits(s: Bytes) {
    forall i :: 0 <= i < |s| ==> 48 <= s[i] <= 55
  }

  function Place(b: Byte): int { b as int - 48 }

  /** Six octal digits as a number. */
  function SixDigits(d: Bytes): int
    requires |d| == 6
  {
    32768 * Place(d[0]) + 4096 * Place(d[1]) + 512 * Place(d[2]) + 64 * Place(d[3]) + 8 * Place(d[4]) + Place(d[5])
  }

  /** Eleven octal digits as a number. */
  function ElevenDigits(d: Bytes): int
    requires |d| == 11
  {
    1073741824 * Place(d[0]) + 134217728 * Place(d[1]) + 16777216 * Place(d[2]) + 2097152 * Place(d[3])
    + 262144 * Place(d[4]) + SixDigits(d[5..])
  }

  /** A regular file with mode 0644, no owner, time 0 and empty names. The checksum
      is over all bytes, with the checksum field itself read as eight blanks. */
  predicate IsPosixHeader(h: Bytes, name: Bytes, size: nat) {
    && |h| == 512 && 0 < |name| <= 100
    && h[..|name|] == name && (forall i :: |name| <= i < 100 ==> h[i] == 0)
    && h[100..108] == [48, 48, 48, 48, 54, 52, 52, 0]
    && h[108..116] == [48, 48, 48, 48, 48, 48, 48, 0]
    && h[116..124] == [48, 48, 48, 48, 48, 48, 48, 0]
    && OctalDigits(h[124..135]) && ElevenDigits(h[124..135]) == size && h[135] == 0
    && h[136..148] == [48, 48, 48, 48, 48, 48, 48, 48, 48, 48, 48, 0]
    && OctalDigits(h[148..154]) && SixDigits(h[148..154]) == Total(h[..148]) + 8 * 32 + Total(h[156..])
    && h[154] == 0 && h[155] == 32
    && h[156] == 48 && (forall i :: 157 <= i < 257 ==> h[i] == 0)
    && h[257..265] == [117, 115, 116, 97, 114, 0, 48, 48]
    && (forall i :: 265 <= i < 512 ==> h[i] == 0)
  }

  // ----- digits --------------------------------------------------------------------

  lemma {:induction false} ValueSnoc(s: Bytes, d: Byte)
    requires AllDigits(s) && IsDigit(d)
    ensures AllDigits(s + [d]) && OctalValue(s + [d]) == 8 * OctalValue(s) + Place(d)
  {
    assert DropLast(s + [d]) == s;
  }

  lemma {:induction false} OneMean(a: Byte)
    requires IsDigit(a)
    ensures AllDigits([a]) && OctalValue([a]) == Place(a)
  {
    ValueSnoc([], a);
    assert [] + [a] == [a];
  }

  lemma {:induction false} TwoMean(a: Byte, b: Byte)
    requires IsDigit(a) && IsDigit(b)
    ensures AllDigits([a, b]) && OctalValue([a, b]) == 8 * Place(a) + Place(b)
  {
    OneMean(a);
    ValueSnoc([a], b);
    assert [a] + [b] == [a, b];
  }

  lemma {:induction false} ThreeMean(a: Byte, b: Byte, c: Byte)
    requires IsDigit(a) && IsDigit(b) && IsDigit(c)
    ensures AllDigits([a, b, c]) && OctalValue([a, b, c]) == 64 * Place(a) + 8 * Place(b) + Place(c)
  {
    TwoMean(a, b);
    ValueSnoc([a, b], c);
    assert [a, b] + [c] == [a, b, c];
  }

  lemma {:induction false} FiveMean(a: Byte, b: Byte, c: Byte, d: Byte, e: Byte)
    requires IsDigit(a) && IsDigit(b) && IsDigit(c) && IsDigit(d) && IsDigit(e)
    ensures AllDigits([a, b, c, d, e])
    ensures OctalValue([a, b, c, d, e]) == 4096 * Place(a) + 512 * Place(b) + 64 * Place(c) + 8 * Place(d) + Place(e)
  {
    ThreeMean(a, b, c);
    ValueSnoc([a, b, c], d);
    assert [a, b, c] + [d] == [a, b, c, d];
    ValueSnoc([a, b, c, d], e);
    assert [a, b, c, d] + [e] == [a, b, c, d, e];
  }

  lemma {:induction false} SixMean(d: Bytes)
    requires |d| == 6 && AllDigits(d)
    ensures OctalValue(d) == SixDigits(d)
  {
    var front := [d[0], d[1], d[2], d[3], d[4]];
    FiveMean(d[0], d[1], d[2], d[3], d[4]);
    ValueSnoc(front, d[5]);
    assert d == front + [d[5]];
  }

  function EightTo(n: nat): nat { if n == 0 then 1 else 8 * EightTo(n - 1) }

  lemma {:induction false} ValueJoins(s: Bytes, t: Bytes)
    requires AllDigits(s) && AllDigits(t)
    ensures AllDigits(s + t) && OctalValue(s + t) == OctalValue(s) * EightTo(|t|) + OctalValue(t)
    decreases |t|
  {
    if t == [] {
      assert s + t == s;
    } else {
      ValueJoins(s, DropLast(t));
      assert DropLast(s + t) == s + DropLast(t) && Last(s + t) == Last(t);
      Distributes(OctalValue(s), EightTo(|t| - 1), OctalValue(DropLast(t)), Last(t) - 48);
    }
  }

  lemma {:induction false} Distributes(a: int, p: int, b: int, d: int)
    ensures 8 * (a * p + b) + d == a * (8 * p) + (8 * b + d)
  {
  }

  lemma {:induction false} ElevenMean(d: Bytes)
    requires |d| == 11 && AllDigits(d)
    ensures OctalValue(d) == ElevenDigits(d)
  {
    var front := [d[0], d[1], d[2], d[3], d[4]];
    FiveMean(d[0], d[1], d[2], d[3], d[4]);
    assert d == front + d[5..] && |d[5..]| == 6;
    ValueJoins(front, d[5..]);
    SixMean(d[5..]);
    assert EightTo(3) == 512;
    assert EightTo(6) == 262144;
  }

  /** Digits of a fixed width are determined by their number. */
  lemma {:induction false} DigitsFromValue(d: Bytes)
    requires AllDigits(d)
    ensures Octal(OctalValue(d), |d|) == d
  {
    if d != [] {
      DigitsFromValue(DropLast(d));
      var v := OctalValue(DropLast(d));
      assert (8 * v + (Last(d) - 48)) / 8 == v && (8 * v + (Last(d) - 48)) % 8 == Last(d) - 48;
      assert d == DropLast(d) + [Last(d)];
    }
  }

  lemma {:induction false} TotalIsSum(s: Bytes)
    ensures SumBytes(s) == Total(s)
  {
    if s != [] {
      TotalIsSum(DropLast(s));
      TotalSnoc(DropLast(s), Last(s));
      assert s == DropLast(s) + [Last(s)];
    }
  }

  lemma {:induction false} TotalSnoc(s: Bytes, b: Byte)
    ensures Total(s + [b]) == Total(s) + b
  {
    if s == [] {
      assert [] + [b] == [b] && [b][1..] == [];
    } else {
      TotalSnoc(s[1..], b);
      assert (s + [b])[1..] == s[1..] + [b];
    }
  }

  // ----- the layout ------------------------------------------------------------------

  /** The three parts that the writer joins. */
  lemma {:induction false} ThreeParts(front: Bytes, sum: Bytes, back: Bytes)
    requires |front| == 148 && |sum| == 8 && |back| == 356
    ensures var h := front + sum + back;
            |h| == 512 && h[..148] == front && h[148..156] == sum && h[156..] == back
  {
  }

  predicate FrontFields(f: Bytes, name: Bytes, size: nat) {
    && |f| == 148 && 0 < |name| <= 100
    && f[..|name|] == name && (forall i :: |name| <= i < 100 ==> f[i] == 0)
    && f[100..108] == [48, 48, 48, 48, 54, 52, 52, 0]
    && f[108..116] == [48, 48, 48, 48, 48, 48, 48, 0]
    && f[116..124] == [48, 48, 48, 48, 48, 48, 48, 0]
    && OctalDigits(f[124..135]) && ElevenDigits(f[124..135]) == size && f[135] == 0
    && f[136..148] == [48, 48, 48, 48, 48, 48, 48, 48, 48, 48, 48, 0]
  }

  predicate BackFields(b: Bytes) {
    && |b| == 356 && b[0] == 48 && (forall i :: 1 <= i < 101 ==> b[i] == 0)
    && b[101..109] == [117, 115, 116, 97, 114, 0, 48, 48] && (forall i :: 109 <= i < 356 ==> b[i] == 0)
  }

  lemma {:induction false} SevenMean(a: Byte, d: Bytes)
    requires IsDigit(a) && |d| == 6 && AllDigits(d)
    ensures AllDigits([a] + d) && OctalValue([a] + d) == 262144 * Place(a) + SixDigits(d)
  {
    SixMean(d);
    ValueSnoc([], a);
    assert [] + [a] == [a];
    ValueJoins([a], d);
    assert EightTo(3) == 512;
    assert EightTo(6) == 262144;
  }

  lemma {:induction false} SevenDigits(a: Byte, d: Bytes)
    requires IsDigit(a) && |d| == 6 && AllDigits(d)
    ensures Octal(262144 * Place(a) + SixDigits(d), 7) == [a] + d
  {
    SevenMean(a, d);
    DigitsFromValue([a] + d);
  }

  lemma {:induction false} ModeDigits()
    ensures ModeField == [48, 48, 48, 48, 54, 52, 52, 0]
  {
    var d: Bytes := [48, 48, 48, 54, 52, 52];
    SevenDigits(48, d);
    assert SixDigits(d) == 420;
    assert [48] + d + [0] == [48, 48, 48, 48, 54, 52, 52, 0];
  }

  lemma {:induction false} ZeroDigits(width: nat)
    ensures Octal(0, width) == seq(width, _ => 48)
  {
    if width != 0 {
      ZeroDigits(width - 1);
      assert seq(width, _ => 48) == seq(width - 1, _ => 48) + [48];
    }
  }

  lemma {:induction false} ZeroFields()
    ensures ZeroField == [48, 48, 48, 48, 48, 48, 48, 0]
    ensures TimeField == [48, 48, 48, 48, 48, 48, 48, 48, 48, 48, 48, 0]
  {
    ZeroDigits(7);
    ZeroDigits(11);
  }

  lemma {:induction false} SizeDigits(size: nat)
    requires size < 8589934592
    ensures OctalDigits(Octal(size, 11)) && ElevenDigits(Octal(size, 11)) == size
  {
    SizeFitsField();
    OctalRoundTrip(size, 11);
    ElevenMean(Octal(size, 11));
  }

  lemma {:induction false} FrontHasFields(name: Bytes, size: nat)
    requires ValidName(name) && size < 8589934592
    ensures FrontFields(HeaderFront(name, size), name, size)
  {
    ModeDigits();
    ZeroFields();
    SizeDigits(size);
    var f := HeaderFront(name, size);
    assert f[124..135] == Octal(size, 11);
  }

  lemma {:induction false} BackHasFields()
    ensures BackFields(HeaderBack)
  {
  }

  lemma {:induction false} FrontFromFields(f: Bytes, name: Bytes, size: nat)
    requires FrontFields(f, name, size) && 0 !in name
    ensures f == HeaderFront(name, size)
  {
    ModeDigits();
    ZeroFields();
    assert AllDigits(f[124..135]);
    ElevenMean(f[124..135]);
    DigitsFromValue(f[124..135]);
    assert f == f[..|name|] + f[|name|..100] + f[100..108] + f[108..116] + f[116..124] + (f[124..135] + [f[135]]) + f[136..148];
    assert f[|name|..100] == Zeros(100 - |name|);
  }

  lemma {:induction false} BackFromFields(b: Bytes)
    requires BackFields(b)
    ensures b == HeaderBack
  {
    assert b == [b[0]] + b[1..101] + b[101..109] + b[109..];
    assert b[1..101] == Zeros(100) && b[109..] == Zeros(247);
  }

  lemma {:induction false} SumFromDigits(d: Bytes, sum: nat)
    requires |d| == 6 && OctalDigits(d) && SixDigits(d) == sum
    ensures d == Octal(sum, 6)
  {
    SixMean(d);
    DigitsFromValue(d);
  }

  lemma {:induction false} SumHasDigits(sum: nat)
    requires sum < 262144
    ensures OctalDigits(Octal(sum, 6)) && SixDigits(Octal(sum, 6)) == sum
  {
    SizeFitsField();
    OctalRoundTrip(sum, 6);
    SixMean(Octal(sum, 6));
  }

  /** The fields, seen through the three parts. */
  lemma {:induction false} FieldsOfParts(h: Bytes, name: Bytes, size: nat)
    requires |h| == 512 && 0 < |name| <= 100
    ensures IsPosixHeader(h, name, size) <==>
            && FrontFields(h[..148], name, size) && BackFields(h[156..])
            && OctalDigits(h[148..154]) && SixDigits(h[148..154]) == Total(h[..148]) + 8 * 32 + Total(h[156..])
            && h[154] == 0 && h[155] == 32
  {
    var f, b := h[..148], h[156..];
    assert f[..|name|] == h[..|name|] && f[100..108] == h[100..108] && f[108..116] == h[108..116];
    assert f[116..124] == h[116..124] && f[124..135] == h[124..135] && f[136..148] == h[136..148];
    assert forall i :: 0 <= i < 148 ==> f[i] == h[i];
    assert b[101..109] == h[257..265];
    assert forall i :: 0 <= i < 356 ==> b[i] == h[156 + i];
    assert forall i :: 156 <= i < 512 ==> h[i] == b[i - 156];
  }

  lemma {:induction false} HeaderParts(name: Bytes, size: nat)
    requires ValidName(name)
    ensures var h, sum := Header(name, size), Total(HeaderFront(name, size)) + 8 * 32 + Total(HeaderBack);
            && sum < 262144 && |h| == 512 && h[..148] == HeaderFront(name, size)
            && h[148..154] == Octal(sum, 6) && h[154] == 0 && h[155] == 32 && h[156..] == HeaderBack
  {
    var front := HeaderFront(name, size);
    var sum := Checksum(front, HeaderBack);
    TotalIsSum(front);
    TotalIsSum(HeaderBack);
    var field := Octal(sum, 6) + [0, 32];
    ThreeParts(front, field, HeaderBack);
    var h := Header(name, size);
    assert h[148..154] == h[148..156][..6] == Octal(sum, 6);
    assert h[154] == h[148..156][6] && h[155] == h[148..156][7];
  }

  lemma {:induction false} WrittenIsPosix(name: Bytes, size: nat)
    requires ValidName(name) && size < 8589934592
    ensures IsPosixHeader(Header(name, size), name, size)
  {
    HeaderParts(name, size);
    FieldsOfParts(Header(name, size), name, size);
    FrontHasFields(name, size);
    BackHasFields();
    SumHasDigits(Total(HeaderFront(name, size)) + 8 * 32 + Total(HeaderBack));
  }

  lemma {:induction false} PosixIsWritten(h: Bytes, name: Bytes, size: nat)
    requires IsPosixHeader(h, name, size) && 0 !in name
    ensures h == Header(name, size)
  {
    HeaderParts(name, size);
    var w, sum := Header(name, size), Total(HeaderFront(name, size)) + 8 * 32 + Total(HeaderBack);
    FieldsOfParts(h, name, size);
    FrontFromFields(h[..148], name, size);
    BackFromFields(h[156..]);
    SumFromDigits(h[148..154], sum);
    Cut(h);
    Cut(w);
  }

  lemma {:induction false} Cut(h: Bytes)
    requires |h| == 512
    ensures h == h[..148] + (h[148..154] + [h[154], h[155]]) + h[156..]
  {
  }

  /** The header that is written is the one block with the standard's fields. */
  lemma {:induction false} HeaderIsPosix(h: Bytes, name: Bytes, size: nat)
    requires ValidName(name) && size < 8589934592
    ensures IsPosixHeader(h, name, size) <==> h == WriteHeader(name, size)
  {
    WrittenIsPosix(name, size);
    if IsPosixHeader(h, name, size) {
      PosixIsWritten(h, name, size);
    }
  }

  /** Every block with these fields reads as its name and size. */
  lemma {:induction false} PosixHeaderReads(h: Bytes, name: Bytes, size: nat)
    requires IsPosixHeader(h, name, size) && 0 !in name && size < 8589934592
    ensures ReadHeader(h) == Some(Parsed(name, size))
  {
    HeaderIsPosix(h, name, size);
    SizeFitsField();
    HeaderRoundTrip(name, size);
  }
}
