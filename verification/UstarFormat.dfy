/** Canonical USTAR images: regular files only, mode 0644, owner 0, mtime 0, in
    the ustar interchange format of POSIX.1 (IEEE Std 1003.1, pax utility). */
module UstarFormat {
  import opened Sequences
  import opened Octets

  const BlockSize := 512
  const RecordSize := 10240

  function Zeros(n: nat): (z: Bytes)
    ensures |z| == n && forall i :: 0 <= i < n ==> z[i] == 0
  {
    seq(n, _ => 0)
  }

  // ----- octal fields -------------------------------------------------------

  function Digit(d: nat): Byte
    requires d < 8
  {
    48 + d
  }

  predicate IsDigit(b: Byte) { 48 <= b < 56 }

  function Pow8(width: nat): (p: nat)
    ensures 0 < p
  {
    if width == 0 then 1 else 8 * Pow8(width - 1)
  }

  /** `width` octal digits, most significant first. */
  function Octal(n: nat, width: nat): (s: Bytes)
    ensures |s| == width && forall i :: 0 <= i < width ==> IsDigit(s[i])
  {
    if width == 0 then [] else Octal(n / 8, width - 1) + [Digit(n % 8)]
  }

  predicate AllDigits(s: Bytes) {
    forall i :: 0 <= i < |s| ==> IsDigit(s[i])
  }

  function OctalValue(s: Bytes): nat
    requires AllDigits(s)
  {
    if s == [] then 0 else 8 * OctalValue(DropLast(s)) + (Last(s) - 48)
  }

  lemma {:induction false} OctalRoundTrip(n: nat, width: nat)
    requires n < Pow8(width)
    ensures OctalValue(Octal(n, width)) == n
  {
    if width != 0 {
      OctalRoundTrip(n / 8, width - 1);
      assert DropLast(Octal(n, width)) == Octal(n / 8, width - 1);
    }
  }

  /** The bytes of a field before its first NUL. */
  function UpToNul(s: Bytes): Bytes {
    if s == [] || s[0] == 0 then [] else [s[0]] + UpToNul(s[1..])
  }

  lemma {:induction false} UpToNulOf(text: Bytes, rest: Bytes)
    requires 0 !in text
    ensures UpToNul(text + [0] + rest) == text
  {
    if text == [] {
      assert text + [0] + rest == [0] + rest;
    } else {
      UpToNulOf(text[1..], rest);
      assert (text + [0] + rest)[1..] == text[1..] + [0] + rest;
    }
  }

  /** A number field. Other spellings that a lenient reader takes are treated as
      unreadable: no canonical header contains one. */
  function ParseNumber(field: Bytes): Option<nat> {
    var text := UpToNul(field);
    if AllDigits(text) then Some(OctalValue(text)) else None
  }

  lemma {:induction false} ParseOctalField(n: nat, width: nat, rest: Bytes)
    requires n < Pow8(width)
    ensures ParseNumber(Octal(n, width) + [0] + rest) == Some(n)
  {
    UpToNulOf(Octal(n, width), rest);
    OctalRoundTrip(n, width);
  }

  // ----- headers ------------------------------------------------------------

  function SumBytes(s: Bytes): (t: nat)
    ensures t <= 255 * |s|
  {
    if s == [] then 0 else SumBytes(DropLast(s)) + Last(s)
  }

  const Magic: Bytes := [117, 115, 116, 97, 114, 0, 48, 48]
  const ModeField: Bytes := Octal(420, 7) + [0]
  const ZeroField: Bytes := Octal(0, 7) + [0]
  const TimeField: Bytes := Octal(0, 11) + [0]

  predicate ValidName(name: Bytes) {
    0 < |name| <= 100 && 0 !in name
  }

  /** Bytes 0 to 147: name, mode, owner, group, size and time. */
  function HeaderFront(name: Bytes, size: nat): (h: Bytes)
    requires ValidName(name)
    ensures |h| == 148
  {
    name + Zeros(100 - |name|) + ModeField + ZeroField + ZeroField + (Octal(size, 11) + [0]) + TimeField
  }

  /** Bytes 156 to 511: the regular-file type flag, magic and empty fields. */
  const HeaderBack: Bytes := [48] + Zeros(100) + Magic + Zeros(247)

  function Checksum(front: Bytes, back: Bytes): nat {
    SumBytes(front) + 8 * 32 + SumBytes(back)
  }

  function Header(name: Bytes, size: nat): (h: Bytes)
    requires ValidName(name)
    ensures |h| == BlockSize
  {
    var front := HeaderFront(name, size);
    front + (Octal(Checksum(front, HeaderBack), 6) + [0, 32]) + HeaderBack
  }

  datatype Parsed = Parsed(name: Bytes, size: nat)

  /** The parts of a header that the verifiers read before comparing it. */
  function ParseHeader(h: Bytes): Option<Parsed>
    requires |h| == BlockSize
  {
    var size, sum := ParseNumber(h[124..136]), ParseNumber(h[148..156]);
    if size.None? || sum.None? || sum.value != Checksum(h[..148], h[156..]) then None
    else Some(Parsed(UpToNul(h[..100]), size.value))
  }

  lemma {:induction false} SizeFitsField()
    ensures Pow8(11) == 8589934592 && Pow8(6) == 262144
  {
  }

  lemma {:induction false} NameField(name: Bytes, size: nat)
    requires ValidName(name)
    ensures UpToNul(Header(name, size)[..100]) == name
  {
    var h := Header(name, size);
    assert h[..100] == name + Zeros(100 - |name|);
    if |name| < 100 {
      assert name + Zeros(100 - |name|) == name + [0] + Zeros(99 - |name|);
      UpToNulOf(name, Zeros(99 - |name|));
    } else {
      assert name + Zeros(0) == name;
      UpToNulWhole(name);
    }
  }

  lemma {:induction false} UpToNulWhole(text: Bytes)
    requires 0 !in text
    ensures UpToNul(text) == text
  {
    if text != [] { UpToNulWhole(text[1..]); }
  }

  lemma {:induction false} SizeField(name: Bytes, size: nat)
    requires ValidName(name) && size < Pow8(11)
    ensures ParseNumber(Header(name, size)[124..136]) == Some(size)
  {
    var h := Header(name, size);
    assert h[124..136] == Octal(size, 11) + [0] + [];
    ParseOctalField(size, 11, []);
  }

  lemma {:induction false} SumField(name: Bytes, size: nat)
    requires ValidName(name)
    ensures var h := Header(name, size); ParseNumber(h[148..156]) == Some(Checksum(h[..148], h[156..]))
  {
    var h, front := Header(name, size), HeaderFront(name, size);
    var sum := Checksum(front, HeaderBack);
    assert h[..148] == front && h[156..] == HeaderBack;
    assert h[148..156] == Octal(sum, 6) + [0] + [32];
    SizeFitsField();
    ParseOctalField(sum, 6, [32]);
  }

  /** A canonical header reads back as the name and size it was written for. */
  lemma {:induction false} HeaderRoundTrip(name: Bytes, size: nat)
    requires ValidName(name) && size < Pow8(11)
    ensures ParseHeader(Header(name, size)) == Some(Parsed(name, size))
    ensures Header(name, size) != Zeros(BlockSize)
  {
    NameField(name, size);
    SizeField(name, size);
    SumField(name, size);
    assert Header(name, size)[0] == name[0] && name[0] in name;
  }

  // ----- the header codec ---------------------------------------------------

  /** A header writer and the reader that goes with it. */
  datatype Codec = Codec(write: (Bytes, nat) -> Bytes, read: Bytes -> Option<Parsed>)

  /** Sizes that fit the eleven octal digits of the size field. */
  const SizeLimit := 8589934592

  /** Headers are one non-zero block that reads back as written. */
  ghost predicate Faithful(c: Codec) {
    forall name: Bytes, size: nat {:trigger c.write(name, size)} :: ValidName(name) && size < SizeLimit ==>
      && |c.write(name, size)| == BlockSize && c.write(name, size) != Zeros(BlockSize)
      && c.read(c.write(name, size)) == Some(Parsed(name, size))
  }

  function WriteHeader(name: Bytes, size: nat): Bytes {
    if ValidName(name) then Header(name, size) else []
  }

  function ReadHeader(h: Bytes): Option<Parsed> {
    if |h| == BlockSize then ParseHeader(h) else None
  }

  const Posix := Codec(WriteHeader, ReadHeader)

  lemma {:induction false} PosixFaithful()
    ensures Faithful(Posix)
  {
    SizeFitsField();
    forall name: Bytes, size: nat | ValidName(name) && size < SizeLimit
      ensures && |Posix.write(name, size)| == BlockSize && Posix.write(name, size) != Zeros(BlockSize)
              && Posix.read(Posix.write(name, size)) == Some(Parsed(name, size))
    {
      HeaderRoundTrip(name, size);
    }
  }
}

/** Archives of members behind a header codec. */
module UstarArchive {
  import opened Sequences
  import opened Octets
  import opened UstarFormat

  /** One inventory entry: the exact member name and its size limit. */
  datatype Entry = Entry(name: Bytes, limit: nat)

  type Inventory = seq<Entry>

  predicate ValidInventory(inv: Inventory) {
    forall i :: 0 <= i < |inv| ==> ValidName(inv[i].name) && inv[i].limit < SizeLimit
  }

  function BlockPadding(size: nat): (p: nat)
    ensures p < BlockSize && (size + p) % BlockSize == 0
  {
    (0 - size) % BlockSize
  }

  function RecordPadding(end: nat): (p: nat)
    ensures p < RecordSize && (end + p) % RecordSize == 0
  {
    (0 - end) % RecordSize
  }

  function Padded(size: nat): nat { size + BlockPadding(size) }

  function Member(c: Codec, name: Bytes, data: Bytes): Bytes {
    c.write(name, |data|) + data + Zeros(BlockPadding(|data|))
  }

  function Members(c: Codec, inv: Inventory, payloads: seq<Bytes>): Bytes
    requires |payloads| == |inv|
  {
    if inv == [] then [] else Member(c, inv[0].name, payloads[0]) + Members(c, inv[1..], payloads[1..])
  }

  /** Two zero blocks and the zero fill up to a whole record. */
  function FooterSize(dataEnd: nat): nat {
    2 * BlockSize + RecordPadding(dataEnd + 2 * BlockSize)
  }

  /** What the canonical writer emits. */
  function Image(c: Codec, inv: Inventory, payloads: seq<Bytes>): Bytes
    requires |payloads| == |inv|
  {
    var body := Members(c, inv, payloads);
    body + Zeros(FooterSize(|body|))
  }

  predicate Bounded(inv: Inventory, payloads: seq<Bytes>) {
    |payloads| == |inv| && forall i :: 0 <= i < |inv| ==> 0 < |payloads[i]| <= inv[i].limit
  }
}
