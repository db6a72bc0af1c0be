/** The two archive inventories, their size bounds, and the end-of-archive
    arithmetic that three checkers compute in three ways. */
module UstarPolicies {
  import opened Sequences
  import opened Octets
  import opened UstarFormat
  import opened UstarArchive
  import opened UstarVerifier

  // ----- sizes --------------------------------------------------------------

  function Sizes(payloads: seq<Bytes>): (s: seq<nat>)
    ensures |s| == |payloads|
  {
    seq(|payloads|, i requires 0 <= i < |payloads| => |payloads[i]|)
  }

  /** `_canonical_raw_archive_size`: headers, padded members and two end blocks,
      without the fill to a whole record. */
  function CanonicalSize(sizes: seq<nat>): nat {
    if sizes == [] then 1024 else 512 + (sizes[0] + 511) / 512 * 512 + CanonicalSize(sizes[1..])
  }

  lemma {:induction false} MembersLength(c: Codec, inv: Inventory, payloads: seq<Bytes>)
    requires Faithful(c) && ValidInventory(inv) && Bounded(inv, payloads)
    ensures |Members(c, inv, payloads)| + 1024 == CanonicalSize(Sizes(payloads))
    ensures |Members(c, inv, payloads)| % 512 == 0
  {
    if inv != [] {
      var size := |payloads[0]|;
      assert Sizes(payloads)[1..] == Sizes(payloads[1..]);
      MembersLength(c, inv[1..], payloads[1..]);
      PaddedIsRoundUp(size);
      assert |c.write(inv[0].name, size)| == BlockSize;
    }
  }

  lemma {:induction false} PaddedIsRoundUp(size: nat)
    ensures Padded(size) == (size + 511) / 512 * 512 && Padded(size) % 512 == 0
  {
  }

  function RoundUpToRecord(n: nat): nat { (n + 10239) / 10240 * 10240 }

  /** The writer's archive length is the canonical size rounded up to a record. */
  lemma {:induction false} ImageLength(c: Codec, inv: Inventory, payloads: seq<Bytes>)
    requires Faithful(c) && ValidInventory(inv) && Bounded(inv, payloads)
    ensures |Image(c, inv, payloads)| == RoundUpToRecord(CanonicalSize(Sizes(payloads)))
  {
    MembersLength(c, inv, payloads);
    EndsAgree(|Members(c, inv, payloads)|);
  }

  /** For every data end, the end-to-end checker's rounded size is the data end plus
      the footer that both verifiers demand. */
  lemma {:induction false} EndsAgree(dataEnd: nat)
    ensures RoundUpToRecord(dataEnd + 1024) == dataEnd + FooterSize(dataEnd)
  {
  }

  /** Blocks of member data. */
  function DataBlocks(sizes: seq<nat>): nat {
    if sizes == [] then 0 else (sizes[0] + 511) / 512 + DataBlocks(sizes[1..])
  }

  lemma {:induction false} SizeInBlocks(sizes: seq<nat>)
    ensures CanonicalSize(sizes) == 512 * (2 + |sizes| + DataBlocks(sizes))
  {
    if sizes != [] { SizeInBlocks(sizes[1..]); }
  }

  /** The canonical size is the archive's length exactly when the two end blocks, one
      header block for each member and the members' data blocks fill whole records of
      twenty blocks. */
  lemma {:induction false} CanonicalSizeExactIff(c: Codec, inv: Inventory, payloads: seq<Bytes>)
    requires Faithful(c) && ValidInventory(inv) && Bounded(inv, payloads)
    ensures |Image(c, inv, payloads)| == CanonicalSize(Sizes(payloads)) <==>
            (2 + |payloads| + DataBlocks(Sizes(payloads))) % 20 == 0
  {
    ImageLength(c, inv, payloads);
    SizeInBlocks(Sizes(payloads));
    WholeRecords(2 + |payloads| + DataBlocks(Sizes(payloads)));
  }

  lemma {:induction false} WholeRecords(blocks: nat)
    ensures RoundUpToRecord(512 * blocks) == 512 * blocks <==> blocks % 20 == 0
  {
  }

  // ----- size bounds --------------------------------------------------------

  function TotalLimit(inv: Inventory): nat {
    if inv == [] then 0 else inv[0].limit + TotalLimit(inv[1..])
  }

  lemma {:induction false} MembersWithinLimits(c: Codec, inv: Inventory, payloads: seq<Bytes>)
    requires Faithful(c) && ValidInventory(inv) && Bounded(inv, payloads)
    ensures |Members(c, inv, payloads)| <= TotalLimit(inv) + 1023 * |inv|
  {
    if inv != [] {
      MembersWithinLimits(c, inv[1..], payloads[1..]);
      assert |c.write(inv[0].name, |payloads[0]|)| == BlockSize;
    }
  }

  /** The archive bound leaves room for every canonical archive, so it never
      refuses one. */
  lemma {:induction false} MaximumRefusesNoCanonicalArchive(sha: Digest, p: Policy, file: Bytes, payloads: seq<Bytes>)
    requires ValidPolicy(p) && TotalLimit(p.inventory) + 1023 * |p.inventory| + 11263 <= p.maximum
    requires Canonical(sha, p, file, payloads)
    ensures 1 <= |file| <= p.maximum
  {
    MembersWithinLimits(p.codec, p.inventory, payloads);
  }

  // ----- the inventories ----------------------------------------------------

  /** ASCII encoding of a member name; any other character becomes `?`. */
  function Ascii(s: string): (b: Bytes)
    ensures |b| == |s| && 0 !in b
  {
    seq(|s|, i requires 0 <= i < |s| => if 0 < s[i] as int < 128 then s[i] as int else 63)
  }

  function Named(name: string, limit: nat): (e: Entry)
    requires 0 < |name| <= 100
    ensures ValidName(e.name) && e.limit == limit
  {
    Entry(Ascii(name), limit)
  }

  const KiB := 1024
  const MiB := 1048576

  /** `sorted(RAW_ARCHIVE_MEMBERS)` with the member bounds. */
  function SoakInventory(): (inv: Inventory)
    ensures |inv| == 11 && ValidInventory(inv)
  {
    [ Named("SHA256SUMS", 4 * KiB),
      Named("container-inspect-post.json", 16 * MiB),
      Named("container-inspect-pre.json", 16 * MiB),
      Named("events.jsonl", 512 * MiB),
      Named("host-gpu.csv", 4 * KiB),
      Named("launcher-receipt.json", 64 * KiB),
      Named("manifest.json", 4 * MiB),
      Named("release-image-inspect.json", 16 * MiB),
      Named("release-runtime-closure.tsv", MiB),
      Named("run.json", 4 * MiB),
      Named("test-layer-image-inspect.json", 16 * MiB) ]
  }

  function SoakPolicy(): Policy {
    Policy(Posix, SoakInventory(), 0, TotalLimit(SoakInventory()) + 64 * KiB)
  }

  predicate AdmitsOneByte(inv: Inventory) {
    forall i :: 0 <= i < |inv| ==> 1 <= inv[i].limit
  }

  function RunReceipts(index: char): (inv: Inventory)
    requires '1' <= index <= '5'
    ensures |inv| == 6 && ValidInventory(inv) && AdmitsOneByte(inv)
  {
    var dir := "run-" + [index] + "/";
    [ Named(dir + "candidate.json", 64 * MiB),
      Named(dir + "container-inspect-after.json", 16 * MiB),
      Named(dir + "container-inspect-before.json", 16 * MiB),
      Named(dir + "execution-receipt.json", 256 * KiB),
      Named(dir + "gpu-monitor.csv", 256 * KiB),
      Named(dir + "preflight.txt", 256 * KiB) ]
  }

  /** `RUNNER_RECEIPT_FILES` with their bounds. */
  function PerformanceInventory(): (inv: Inventory)
    ensures |inv| == 35 && ValidInventory(inv) && AdmitsOneByte(inv)
  {
    var first := [ Named("SHA256SUMS", 256 * KiB), Named("gpu.csv", 256 * KiB),
                   Named("optimizer-image-inspect-after.json", 16 * MiB),
                   Named("optimizer-image-inspect-before.json", 16 * MiB) ];
    var last := [Named("runner-manifest.json", 256 * KiB)];
    first + RunReceipts('1') + RunReceipts('2') + RunReceipts('3') + RunReceipts('4') + RunReceipts('5') + last
  }

  function PerformancePolicy(): Policy {
    Policy(Posix, PerformanceInventory(), 0, TotalLimit(PerformanceInventory()) + 2 * MiB)
  }

  lemma {:induction false} OneByteMembers(n: nat)
    ensures CanonicalSize(seq(n, _ => 1)) == 1024 + 1024 * n
  {
    if n > 0 {
      OneByteMembers(n - 1);
      assert seq(n, _ => 1)[1..] == seq(n - 1, _ => 1);
    }
  }

  /** On the inventory that the size is computed for, with receipts of one byte each,
      the formula gives 36,864 and the archive has 40,960 bytes. */
  lemma {:induction false} CanonicalSizeFallsShort()
    ensures var payloads: seq<Bytes> := seq(35, _ => [7]);
            && Bounded(PerformanceInventory(), payloads)
            && |Image(Posix, PerformanceInventory(), payloads)| == 40960
            && CanonicalSize(Sizes(payloads)) == 36864
  {
    var payloads: seq<Bytes> := seq(35, _ => [7]);
    PosixFaithful();
    ImageLength(Posix, PerformanceInventory(), payloads);
    OneByteMembers(35);
    assert Sizes(payloads) == seq(35, _ => 1);
  }

  lemma {:induction false} PoliciesValid()
    ensures ValidPolicy(SoakPolicy()) && ValidPolicy(PerformancePolicy())
  {
    PosixFaithful();
  }

  /** What acceptance under a policy means. */
  ghost predicate AcceptsExactlyWritten(sha: Digest, p: Policy, file: Bytes, payloads: seq<Bytes>)
    requires p.listing < |p.inventory|
  {
    && (Canonical(sha, p, file, payloads) <==>
          Verified(sha, p, file).Some? && Slices(file, Verified(sha, p, file).value) == payloads)
    && (Canonical(sha, p, file, payloads) ==> 1 <= |file| <= p.maximum)
  }

  lemma {:induction false} PolicyAcceptsExactlyWritten(sha: Digest, p: Policy, file: Bytes, payloads: seq<Bytes>)
    requires ValidPolicy(p) && TotalLimit(p.inventory) + 1023 * |p.inventory| + 11263 <= p.maximum
    ensures AcceptsExactlyWritten(sha, p, file, payloads)
  {
    VerifiedIffCanonical(sha, p, file, payloads);
    if Canonical(sha, p, file, payloads) { MaximumRefusesNoCanonicalArchive(sha, p, file, payloads); }
  }

  /** Both verifiers accept an archive exactly when it is the canonical writer's
      output for the payloads they slice out, and their size bounds refuse none. */
  lemma {:induction false} ArchivesAcceptedIffWritten(sha: Digest, file: Bytes, payloads: seq<Bytes>)
    ensures AcceptsExactlyWritten(sha, SoakPolicy(), file, payloads)
    ensures AcceptsExactlyWritten(sha, PerformancePolicy(), file, payloads)
  {
    PoliciesValid();
    PolicyAcceptsExactlyWritten(sha, SoakPolicy(), file, payloads);
    PolicyAcceptsExactlyWritten(sha, PerformancePolicy(), file, payloads);
  }
}
