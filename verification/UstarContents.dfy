/** A canonical raw archive, byte range by byte range: where each member stands, what
    fills the gaps, and what the checksum listing says. */
module UstarContents {
  import opened Lists
  import opened Sequences
  import opened Octets
  import opened UstarFormat
  import opened UstarArchive
  import opened UstarVerifier
  import opened UstarPolicies
  import opened UstarLayout

  predicate ZeroBetween(file: Bytes, from: nat, to: nat)
    requires to <= |file|
  {
    forall k :: from <= k < to ==> file[k] == 0
  }

  /** Header, data and zeros up to the next block boundary. */
  predicate MemberAt(file: Bytes, name: Bytes, data: Bytes, at: nat, next: nat) {
    && at + 512 + |data| <= next <= |file| && next < at + 512 + |data| + 512 && (next - at) % 512 == 0
    && IsPosixHeader(file[at..at + 512], name, |data|)
    && file[at + 512..at + 512 + |data|] == data && ZeroBetween(file, at + 512 + |data|, next)
  }

  predicate MembersAt(file: Bytes, inv: Inventory, payloads: seq<Bytes>, at: seq<nat>) {
    && |inv| == |payloads| && |at| == |inv| + 1
    && forall i :: 0 <= i < |inv| ==> MemberAt(file, inv[i].name, payloads[i], at[i], at[i + 1])
  }

  /** The members from the first byte on, and after them at least two blocks of zeros
      up to the end of a record of 10,240 bytes. */
  predicate LaidOut(file: Bytes, inv: Inventory, payloads: seq<Bytes>, at: seq<nat>) {
    && MembersAt(file, inv, payloads, at) && at[0] == 0
    && |file| % 10240 == 0 && at[|inv|] + 1024 <= |file| < at[|inv|] + 1024 + 10240
    && ZeroBetween(file, at[|inv|], |file|)
  }

  // ----- one member ------------------------------------------------------------------

  lemma {:induction false} OnePadding(n: nat, p: nat, q: nat, unit: nat)
    requires p < unit && q < unit && (n + p) % unit == 0 && (n + q) % unit == 0
    ensures p == q
  {
    if p <= q { OneMultiple(n + p, n + q, unit); } else { OneMultiple(n + q, n + p, unit); }
  }

  /** Two multiples less than a unit apart are equal. */
  lemma {:induction false} OneMultiple(a: nat, b: nat, unit: nat)
    requires a <= b < a + unit && a % unit == 0 && b % unit == 0
    ensures a == b
  {
    var k, m := a / unit, b / unit;
    assert a == k * unit && b == m * unit;
    assert (k + 1) * unit == k * unit + unit;
    MulKeepsOrder(k + 1, m, unit);
    MulKeepsOrder(m, k, unit);
  }

  lemma {:induction false} MulKeepsOrder(a: int, b: int, unit: nat)
    ensures a <= b ==> a * unit <= b * unit
  {
  }

  lemma {:induction false} ZerosAre(file: Bytes, from: nat, to: nat)
    requires from <= to <= |file|
    ensures file[from..to] == Zeros(to - from) <==> ZeroBetween(file, from, to)
  {
    if file[from..to] == Zeros(to - from) {
      forall k | from <= k < to ensures file[k] == 0 { assert file[k] == file[from..to][k - from]; }
    }
  }

  /** The same with the header given. */
  predicate BlocksAt(file: Bytes, header: Bytes, data: Bytes, at: nat, next: nat) {
    && at + 512 + |data| <= next <= |file| && next < at + 512 + |data| + 512 && (next - at) % 512 == 0
    && file[at..at + 512] == header
    && file[at + 512..at + 512 + |data|] == data && ZeroBetween(file, at + 512 + |data|, next)
  }

  lemma {:induction false} MemberIsBlocks(file: Bytes, name: Bytes, data: Bytes, at: nat, next: nat)
    requires ValidName(name) && |data| < SizeLimit
    ensures MemberAt(file, name, data, at, next) <==> BlocksAt(file, WriteHeader(name, |data|), data, at, next)
  {
    if at + 512 <= |file| { HeaderIsPosix(file[at..at + 512], name, |data|); }
  }

  lemma {:induction false} FillIsPadding(n: nat, at: nat, next: nat)
    requires at + 512 + n <= next < at + 512 + n + 512
    ensures (next - at) % 512 == 0 <==> next == at + 512 + n + BlockPadding(n)
  {
    var fill := next - (at + 512 + n);
    assert next - at == 512 + (n + fill);
    if (next - at) % 512 == 0 { OnePadding(n, fill, BlockPadding(n), 512); }
  }

  lemma {:induction false} BlocksAre(file: Bytes, header: Bytes, data: Bytes, at: nat, next: nat)
    requires |header| == 512
    ensures BlocksAt(file, header, data, at, next) <==>
            && at <= next <= |file| && next == at + 512 + |data| + BlockPadding(|data|)
            && file[at..next] == header + data + Zeros(BlockPadding(|data|))
  {
    var n, m := |data|, header + data + Zeros(BlockPadding(|data|));
    if at + 512 + n <= next < at + 512 + n + 512 { FillIsPadding(n, at, next); }
    if next <= |file| && next == at + 512 + n + BlockPadding(n) {
      ZerosAre(file, at + 512 + n, next);
      JoinSlices(file, at, at + 512, at + 512 + n);
      JoinSlices(file, at, at + 512 + n, next);
      if file[at..next] == m { CutBlocks(file, header, data, at, next); }
    }
  }

  lemma {:induction false} CutBlocks(file: Bytes, header: Bytes, data: Bytes, at: nat, next: nat)
    requires |header| == 512 && next == at + 512 + |data| + BlockPadding(|data|) && next <= |file|
    requires file[at..next] == header + data + Zeros(BlockPadding(|data|))
    ensures file[at..at + 512] == header && file[at + 512..at + 512 + |data|] == data
    ensures file[at + 512 + |data|..next] == Zeros(BlockPadding(|data|))
  {
    Parts(header, data, Zeros(BlockPadding(|data|)));
    SubSlice(file, at, next - at, 0, 512);
    SubSlice(file, at, next - at, 512, 512 + |data|);
    SubSlice(file, at, next - at, 512 + |data|, next - at);
  }

  lemma {:induction false} MemberStands(file: Bytes, name: Bytes, data: Bytes, at: nat, next: nat)
    requires ValidName(name) && |data| < SizeLimit
    ensures MemberAt(file, name, data, at, next) <==>
            at <= next <= |file| && next == at + |Member(Posix, name, data)| && file[at..next] == Member(Posix, name, data)
  {
    MemberIsBlocks(file, name, data, at, next);
    BlocksAre(file, WriteHeader(name, |data|), data, at, next);
    assert |Member(Posix, name, data)| == 512 + |data| + BlockPadding(|data|);
  }

  // ----- all members -------------------------------------------------------------------

  lemma {:induction false} AfterFirst(file: Bytes, inv: Inventory, payloads: seq<Bytes>, at: seq<nat>)
    requires inv != [] && MembersAt(file, inv, payloads, at)
    ensures MembersAt(file, inv[1..], payloads[1..], at[1..])
  {
    forall i | 0 <= i < |inv| - 1
      ensures MemberAt(file, inv[1..][i].name, payloads[1..][i], at[1..][i], at[1..][i + 1])
    {
      assert MemberAt(file, inv[i + 1].name, payloads[i + 1], at[i + 1], at[i + 2]);
    }
  }

  lemma {:induction false} MembersStand(file: Bytes, inv: Inventory, payloads: seq<Bytes>, at: seq<nat>)
    requires ValidInventory(inv) && Bounded(inv, payloads) && MembersAt(file, inv, payloads, at)
    requires at[0] <= |file|
    ensures at[0] <= at[|inv|] <= |file| && file[at[0]..at[|inv|]] == Members(Posix, inv, payloads)
  {
    if inv != [] {
      assert MemberAt(file, inv[0].name, payloads[0], at[0], at[1]);
      MemberStands(file, inv[0].name, payloads[0], at[0], at[1]);
      AfterFirst(file, inv, payloads, at);
      MembersStand(file, inv[1..], payloads[1..], at[1..]);
      JoinSlices(file, at[0], at[1], at[|inv|]);
    }
  }

  lemma {:induction false} BeforeRest(
      file: Bytes, inv: Inventory, payloads: seq<Bytes>, first: nat, rest: seq<nat>)
    requires inv != [] && |payloads| == |inv| && MembersAt(file, inv[1..], payloads[1..], rest)
    requires MemberAt(file, inv[0].name, payloads[0], first, rest[0])
    ensures MembersAt(file, inv, payloads, [first] + rest)
  {
    var at := [first] + rest;
    forall i | 0 <= i < |inv| ensures MemberAt(file, inv[i].name, payloads[i], at[i], at[i + 1]) {
      if i > 0 {
        assert MemberAt(file, inv[1..][i - 1].name, payloads[1..][i - 1], rest[i - 1], rest[i]);
      }
    }
  }

  lemma {:induction false} FirstStands(file: Bytes, inv: Inventory, payloads: seq<Bytes>, from: nat, next: nat)
    requires inv != [] && ValidInventory(inv) && Bounded(inv, payloads) && from + |Members(Posix, inv, payloads)| <= |file|
    requires file[from..from + |Members(Posix, inv, payloads)|] == Members(Posix, inv, payloads)
    requires next == from + |Member(Posix, inv[0].name, payloads[0])|
    ensures MemberAt(file, inv[0].name, payloads[0], from, next)
    ensures var more := Members(Posix, inv[1..], payloads[1..]);
            && from + |Members(Posix, inv, payloads)| == next + |more| <= |file| && file[next..next + |more|] == more
  {
    var m, more := Member(Posix, inv[0].name, payloads[0]), Members(Posix, inv[1..], payloads[1..]);
    SplitMembers(file, from, m, more);
    MemberStands(file, inv[0].name, payloads[0], from, next);
  }

  lemma {:induction false} StandAsMembers(file: Bytes, inv: Inventory, payloads: seq<Bytes>, from: nat) returns (at: seq<nat>)
    requires ValidInventory(inv) && Bounded(inv, payloads) && from + |Members(Posix, inv, payloads)| <= |file|
    requires file[from..from + |Members(Posix, inv, payloads)|] == Members(Posix, inv, payloads)
    ensures MembersAt(file, inv, payloads, at) && at[0] == from
    ensures at[|inv|] == from + |Members(Posix, inv, payloads)|
  {
    if inv == [] {
      at := [from];
    } else {
      var next := from + |Member(Posix, inv[0].name, payloads[0])|;
      FirstStands(file, inv, payloads, from, next);
      var rest := StandAsMembers(file, inv[1..], payloads[1..], next);
      BeforeRest(file, inv, payloads, from, rest);
      at := [from] + rest;
    }
  }

  // ----- the archive ---------------------------------------------------------------------

  lemma {:induction false} FooterIs(end: nat, length: nat)
    ensures length == end + FooterSize(end) <==>
            length % 10240 == 0 && end + 1024 <= length < end + 1024 + 10240
  {
    if length % 10240 == 0 && end + 1024 <= length < end + 1024 + 10240 {
      OnePadding(end + 1024, length - (end + 1024), RecordPadding(end + 1024), 10240);
    }
  }

  /** The writer's image is the one file laid out like this. */
  lemma {:induction false} ImageIsLaidOut(file: Bytes, inv: Inventory, payloads: seq<Bytes>)
    requires ValidInventory(inv) && Bounded(inv, payloads)
    ensures file == Image(Posix, inv, payloads) <==> exists at :: LaidOut(file, inv, payloads, at)
  {
    if file == Image(Posix, inv, payloads) { var at := ImageLaid(file, inv, payloads); }
    if at :| LaidOut(file, inv, payloads, at) { LaidIsImage(file, inv, payloads, at); }
  }

  lemma {:induction false} ImageLaid(file: Bytes, inv: Inventory, payloads: seq<Bytes>) returns (at: seq<nat>)
    requires ValidInventory(inv) && Bounded(inv, payloads) && file == Image(Posix, inv, payloads)
    ensures LaidOut(file, inv, payloads, at)
  {
    var body := Members(Posix, inv, payloads);
    assert file[0..|body|] == body && file[|body|..|file|] == Zeros(FooterSize(|body|));
    at := StandAsMembers(file, inv, payloads, 0);
    ZerosAre(file, |body|, |file|);
    FooterIs(|body|, |file|);
  }

  lemma {:induction false} LaidIsImage(file: Bytes, inv: Inventory, payloads: seq<Bytes>, at: seq<nat>)
    requires ValidInventory(inv) && Bounded(inv, payloads) && LaidOut(file, inv, payloads, at)
    ensures file == Image(Posix, inv, payloads)
  {
    var end := at[|inv|];
    MembersStand(file, inv, payloads, at);
    ZerosAre(file, end, |file|);
    FooterIs(end, |file|);
    assert file == file[0..end] + file[end..|file|];
  }

  // ----- the checksum listing --------------------------------------------------------------

  /** One line of `sha256sum`: the digest, two blanks, the name. */
  function Line(sha: Digest, name: Bytes, data: Bytes): Bytes {
    sha(data) + Ascii("  ") + name + Ascii("\n")
  }

  lemma {:induction false} LineIs(sha: Digest, name: Bytes, data: Bytes)
    ensures SumLine(sha, name, data) == Line(sha, name, data)
  {
    assert Ascii("  ") == [32, 32] && Ascii("\n") == [10];
  }

  /** The lines of all members but the first, in the order of the inventory. */
  function LinesAfterFirst(sha: Digest, inv: Inventory, payloads: seq<Bytes>): seq<Bytes>
    requires 0 < |inv| == |payloads|
  {
    seq(|inv| - 1, i requires 0 <= i < |inv| - 1 => Line(sha, inv[i + 1].name, payloads[i + 1]))
  }

  function AllLines(sha: Digest, inv: Inventory, payloads: seq<Bytes>): seq<Bytes>
    requires |inv| == |payloads|
  {
    seq(|inv|, i requires 0 <= i < |inv| => Line(sha, inv[i].name, payloads[i]))
  }

  lemma {:induction false} SumsAreLines(sha: Digest, inv: Inventory, payloads: seq<Bytes>, sums: Bytes)
    requires |inv| == |payloads| && forall i :: 0 <= i < |inv| ==> inv[i].name != sums
    ensures SumsFile(sha, inv, payloads, sums) == Flatten(AllLines(sha, inv, payloads))
  {
    if inv != [] {
      SumsAreLines(sha, inv[1..], payloads[1..], sums);
      LineIs(sha, inv[0].name, payloads[0]);
      assert AllLines(sha, inv, payloads)[1..] == AllLines(sha, inv[1..], payloads[1..]);
    }
  }

  lemma {:induction false} ListingIs(sha: Digest, inv: Inventory, payloads: seq<Bytes>)
    requires 0 < |inv| == |payloads| && forall i :: 0 < i < |inv| ==> inv[i].name != inv[0].name
    ensures SumsFile(sha, inv, payloads, inv[0].name) == Flatten(LinesAfterFirst(sha, inv, payloads))
  {
    SumsAreLines(sha, inv[1..], payloads[1..], inv[0].name);
    assert AllLines(sha, inv[1..], payloads[1..]) == LinesAfterFirst(sha, inv, payloads);
    assert SumsFile(sha, inv, payloads, inv[0].name) == [] + SumsFile(sha, inv[1..], payloads[1..], inv[0].name);
  }

  // ----- what the verifiers accept -----------------------------------------------------------

  /** Bounded members laid out byte by byte, the first of which lists the digests of
      all the others. */
  ghost predicate Faultless(sha: Digest, inv: Inventory, file: Bytes, payloads: seq<Bytes>) {
    && 0 < |inv| == |payloads|
    && (forall i :: 0 <= i < |inv| ==> 0 < |payloads[i]| <= inv[i].limit)
    && (exists at :: LaidOut(file, inv, payloads, at))
    && payloads[0] == Flatten(LinesAfterFirst(sha, inv, payloads))
  }

  predicate FirstNameUnique(inv: Inventory) {
    forall i :: 0 < i < |inv| ==> inv[i].name != inv[0].name
  }

  lemma {:induction false} CanonicalIsFaultless(sha: Digest, p: Policy, file: Bytes, payloads: seq<Bytes>)
    requires ValidInventory(p.inventory) && p.codec == Posix && p.listing == 0 < |p.inventory| && FirstNameUnique(p.inventory)
    ensures Canonical(sha, p, file, payloads) <==> Faultless(sha, p.inventory, file, payloads)
  {
    if Bounded(p.inventory, payloads) {
      ImageIsLaidOut(file, p.inventory, payloads);
      ListingIs(sha, p.inventory, payloads);
    }
  }

  lemma {:induction false} FirstNames()
    ensures FirstNameUnique(SoakInventory()) && FirstNameUnique(PerformanceInventory())
  {
    var soak, runs := SoakInventory(), PerformanceInventory();
    forall i | 0 < i < |soak| ensures soak[i].name != soak[0].name { assert soak[i].name[0] != 83; }
    forall i | 0 < i < |runs| ensures runs[i].name != runs[0].name { assert runs[i].name[0] != 83; }
  }

  lemma {:induction false} PolicyAcceptsFaultless(sha: Digest, p: Policy, file: Bytes, payloads: seq<Bytes>)
    requires ValidPolicy(p) && p.codec == Posix && p.listing == 0 && FirstNameUnique(p.inventory)
    ensures Verified(sha, p, file).Some? && Slices(file, Verified(sha, p, file).value) == payloads <==>
            Faultless(sha, p.inventory, file, payloads)
  {
    VerifiedIffCanonical(sha, p, file, payloads);
    CanonicalIsFaultless(sha, p, file, payloads);
  }

  /** Both verifiers accept exactly the archives with these bytes. */
  lemma {:induction false} VerifiersAcceptFaultless(sha: Digest, file: Bytes, payloads: seq<Bytes>)
    ensures Verified(sha, SoakPolicy(), file).Some? && Slices(file, Verified(sha, SoakPolicy(), file).value) == payloads <==>
            Faultless(sha, SoakInventory(), file, payloads)
    ensures Verified(sha, PerformancePolicy(), file).Some? && Slices(file, Verified(sha, PerformancePolicy(), file).value) == payloads
            <==> Faultless(sha, PerformanceInventory(), file, payloads)
  {
    PoliciesValid();
    FirstNames();
    PolicyAcceptsFaultless(sha, SoakPolicy(), file, payloads);
    PolicyAcceptsFaultless(sha, PerformancePolicy(), file, payloads);
  }
}
