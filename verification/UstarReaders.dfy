/** The archive verifiers as they run: reads come back short in every possible
    way, and only digests, offsets and small payloads are kept. */
module UstarReaders {
  import opened Sequences
  import opened Octets
  import opened UstarFormat
  import opened UstarArchive
  import opened UstarVerifier

  // ----- short reads --------------------------------------------------------

  /** Any non-empty prefix of the wanted range, or nothing at the end of file. */
  ghost predicate IsRead(file: Bytes, offset: nat, want: nat, block: Bytes) {
    && |block| <= want
    && (block != [] ==> offset + |block| <= |file| && block == file[offset..offset + |block|])
    && (block == [] ==> want == 0 || |file| <= offset)
  }

  /** `os.pread`: the host decides how much of the range it returns. */
  method Pread(file: Bytes, want: nat, offset: nat) returns (block: Bytes)
    ensures IsRead(file, offset, want, block)
  {
    if want == 0 || |file| <= offset { return []; }
    var available := if want <= |file| - offset then want else |file| - offset;
    var n :| 1 <= n <= available;
    block := file[offset..offset + n];
  }

  /** Reads exactly the range, or fails when the file ends inside it. */
  method PreadExact(file: Bytes, offset: nat, size: nat) returns (r: Option<Bytes>)
    ensures r == if size == 0 then Some([])
                 else if offset + size <= |file| then Some(file[offset..offset + size]) else None
  {
    var result: Bytes := [];
    while |result| < size
      invariant |result| <= size
      invariant result != [] ==> offset + |result| <= |file| && result == file[offset..offset + |result|]
      decreases size - |result|
    {
      var block := Pread(file, size - |result|, offset + |result|);
      if block == [] { return None; }
      assert file[offset..offset + |result| + |block|] ==
             (if result == [] then [] else file[offset..offset + |result|]) + block;
      result := result + block;
    }
    return Some(result);
  }

  /** Streams a range in chunks of at most 1 MiB; the digest sees its bytes in order. */
  method StreamRange(file: Bytes, offset: nat, size: nat) returns (r: Option<Bytes>)
    ensures r == if size == 0 then Some([])
                 else if offset + size <= |file| then Some(file[offset..offset + size]) else None
  {
    var seen: Bytes, at: nat, remaining: nat := [], offset, size;
    while remaining != 0
      invariant at == offset + |seen| && |seen| + remaining == size
      invariant seen != [] ==> at <= |file| && seen == file[offset..at]
    {
      var block := Pread(file, if remaining < 1048576 then remaining else 1048576, at);
      if block == [] { return None; }
      assert file[offset..at + |block|] == (if seen == [] then [] else file[offset..at]) + block;
      seen, at, remaining := seen + block, at + |block|, remaining - |block|;
    }
    return Some(seen);
  }

  // ----- one member ---------------------------------------------------------

  method CheckMember(c: Codec, file: Bytes, entry: Entry, offset: nat) returns (r: Option<(Located, Bytes)>)
    ensures r.Some? <==> ScanMember(c, file, entry, offset).Some?
    ensures r.Some? ==> Some(r.value.0) == ScanMember(c, file, entry, offset) && r.value.1 == SliceOf(file, r.value.0)
  {
    var header := PreadExact(file, offset, BlockSize);
    if header.None? || header.value == Zeros(BlockSize) { return None; }
    var parsed := c.read(header.value);
    if parsed.None? || parsed.value.name != entry.name { return None; }
    var size := parsed.value.size;
    if size == 0 || entry.limit < size || header.value != c.write(entry.name, size) { return None; }
    var data := offset + BlockSize;
    if |file| < data + Padded(size) { return None; }
    var payload := StreamRange(file, data, size);
    var padding := PreadExact(file, data + size, BlockPadding(size));
    if payload.None? || padding.None? || padding.value != Zeros(BlockPadding(size)) { return None; }
    return Some((Located(data, size), payload.value));
  }

  // ----- the soak verifier --------------------------------------------------

  /** The listing text from member digests alone. */
  function ListingText(inv: Inventory, digests: seq<Bytes>, sums: Bytes): Bytes
    requires |digests| == |inv|
  {
    if inv == [] then []
    else
      (if inv[0].name == sums then [] else digests[0] + [32, 32] + inv[0].name + [10])
      + ListingText(inv[1..], digests[1..], sums)
  }

  function DigestsOf(sha: Digest, payloads: seq<Bytes>): (d: seq<Bytes>)
    ensures |d| == |payloads|
  {
    seq(|payloads|, i requires 0 <= i < |payloads| => sha(payloads[i]))
  }

  lemma {:induction false} ListingFromDigests(sha: Digest, inv: Inventory, payloads: seq<Bytes>, sums: Bytes)
    requires |payloads| == |inv|
    ensures ListingText(inv, DigestsOf(sha, payloads), sums) == SumsFile(sha, inv, payloads, sums)
  {
    if inv != [] {
      assert DigestsOf(sha, payloads)[1..] == DigestsOf(sha, payloads[1..]);
      ListingFromDigests(sha, inv[1..], payloads[1..], sums);
    }
  }

  /** The result of a scan of which a first part is done. */
  function Resume(done: seq<Located>, rest: Option<Scanned>): Option<Scanned> {
    if rest.None? then None else Some(Scanned(done + rest.value.locs, rest.value.end))
  }

  /** One member further: `todo` is the inventory that remains. */
  lemma {:induction false} ResumeNext(
    scan: MemberScan, todo: Inventory, offset: nat, done: seq<Located>, total: Option<Scanned>, l: Located, next: nat)
    requires todo != [] && total == Resume(done, ScanAll(scan, todo, offset))
    requires scan(todo[0], offset) == Some(l) && next == l.offset + Padded(l.size)
    ensures total == Resume(done + [l], ScanAll(scan, todo[1..], next))
  {
    var rest := ScanAll(scan, todo[1..], next);
    if rest.Some? { assert done + ([l] + rest.value.locs) == done + [l] + rest.value.locs; }
  }

  lemma {:induction false} ResumeStops(
      scan: MemberScan, todo: Inventory, offset: nat, done: seq<Located>, total: Option<Scanned>)
    requires total == Resume(done, ScanAll(scan, todo, offset))
    ensures todo == [] ==> total == Some(Scanned(done, offset))
    ensures todo != [] && scan(todo[0], offset).None? ==> total == None
  {
    assert done + [] == done;
  }

  lemma {:induction false} ResumeStarts(scan: MemberScan, inv: Inventory)
    ensures Resume([], ScanAll(scan, inv, 0)) == ScanAll(scan, inv, 0)
  {
    var r := ScanAll(scan, inv, 0);
    if r.Some? { assert [] + r.value.locs == r.value.locs; }
  }

  predicate Expected(sha: Digest, p: Policy, file: Bytes, expectedSha: Bytes, expectedLength: nat) {
    1 <= expectedLength <= p.maximum && |file| == expectedLength && sha(file) == expectedSha
  }

  /** The outcome that both verifiers must produce. */
  function Outcome(sha: Digest, p: Policy, file: Bytes, expectedSha: Bytes, expectedLength: nat): Option<seq<Located>>
    requires p.listing < |p.inventory|
  {
    if Expected(sha, p, file, expectedSha, expectedLength) then Verified(sha, p, file) else None
  }

  /** Every located member lies in the file and has its digest kept. */
  predicate Kept(sha: Digest, file: Bytes, locs: seq<Located>, digests: seq<Bytes>) {
    if locs == [] then digests == []
    else
      && digests != [] && Kept(sha, file, DropLast(locs), DropLast(digests))
      && Last(locs).offset + Last(locs).size <= |file| && Last(digests) == sha(SliceOf(file, Last(locs)))
  }

  lemma {:induction false} KeptSnoc(sha: Digest, file: Bytes, locs: seq<Located>, digests: seq<Bytes>, l: Located)
    requires Kept(sha, file, locs, digests) && l.offset + l.size <= |file|
    ensures Kept(sha, file, locs + [l], digests + [sha(SliceOf(file, l))])
  {
  }

  lemma {:induction false} KeptMeans(sha: Digest, file: Bytes, locs: seq<Located>, digests: seq<Bytes>)
    requires Kept(sha, file, locs, digests)
    ensures InFile(file, locs) && digests == DigestsOf(sha, Slices(file, locs))
  {
    if locs != [] {
      KeptMeans(sha, file, DropLast(locs), DropLast(digests));
      assert locs == DropLast(locs) + [Last(locs)] && digests == DropLast(digests) + [Last(digests)];
      assert InFile(file, locs);
      assert forall i :: 0 <= i < |locs| - 1 ==> Slices(file, DropLast(locs))[i] == Slices(file, locs)[i];
    }
  }

  /** The member loop: locations and digests of a complete inventory. */
  method ScanInventory(sha: Digest, c: Codec, file: Bytes, inv: Inventory, ghost scan: MemberScan)
    returns (r: Option<Scanned>, digests: seq<Bytes>)
    requires IsScanOf(scan, c, file)
    ensures r == ScanAll(scan, inv, 0)
    ensures r.Some? ==> Kept(sha, file, r.value.locs, digests)
  {
    var locs: seq<Located>, offset: nat := [], 0;
    digests := [];
    ghost var todo := inv;
    ghost var total := ScanAll(scan, inv, 0);
    ResumeStarts(scan, inv);
    for i := 0 to |inv|
      invariant todo == inv[i..] && Kept(sha, file, locs, digests)
      invariant total == Resume(locs, ScanAll(scan, todo, offset))
    {
      var member := CheckMember(c, file, inv[i], offset);
      if member.None? {
        ResumeStops(scan, todo, offset, locs, total);
        return None, digests;
      }
      var (l, data) := member.value;
      KeptSnoc(sha, file, locs, digests, l);
      var next := l.offset + Padded(l.size);
      ResumeNext(scan, todo, offset, locs, total, l, next);
      locs, digests := locs + [l], digests + [sha(data)];
      assert total == Resume(locs, ScanAll(scan, todo[1..], next));
      todo, offset := todo[1..], next;
    }
    ResumeStops(scan, todo, offset, locs, total);
    return Some(Scanned(locs, offset)), digests;
  }

  /** The verdict once the members are located: footer and listing remain. */
  lemma {:induction false} VerdictFromScan(sha: Digest, p: Policy, file: Bytes, digests: seq<Bytes>)
    requires p.listing < |p.inventory| && Scan(p.codec, file, p.inventory).Some?
    requires Kept(sha, file, Scan(p.codec, file, p.inventory).value.locs, digests)
    ensures var s := Scan(p.codec, file, p.inventory).value;
            var l := s.locs[p.listing];
            && s.end <= |file| && |digests| == |p.inventory| && l.offset + l.size <= |file|
            && Verified(sha, p, file) ==
               if |file| == s.end + FooterSize(s.end) && file[s.end..] == Zeros(FooterSize(s.end))
                  && SliceOf(file, l) == ListingText(p.inventory, digests, p.inventory[p.listing].name)
               then Some(s.locs) else None
  {
    ScansCanonical(p.codec, file, p.inventory);
    var locs := Scan(p.codec, file, p.inventory).value.locs;
    KeptMeans(sha, file, locs, digests);
    ListingFromDigests(sha, p.inventory, Slices(file, locs), p.inventory[p.listing].name);
  }

  /** Re-reads one located member. */
  method ReadMember(file: Bytes, l: Located) returns (data: Bytes)
    requires l.offset + l.size <= |file|
    ensures data == SliceOf(file, l)
  {
    var r := StreamRange(file, l.offset, l.size);
    data := r.value;
  }

  method CheckFooter(file: Bytes, end: nat) returns (ok: bool)
    requires end <= |file|
    ensures ok <==> |file| == end + FooterSize(end) && file[end..] == Zeros(FooterSize(end))
  {
    var footer := PreadExact(file, end, FooterSize(end));
    if footer.None? { return false; }
    assert |file| == end + FooterSize(end) ==> file[end..end + FooterSize(end)] == file[end..];
    return footer.value == Zeros(FooterSize(end)) && end + FooterSize(end) == |file|;
  }

  /** `_stream_bound_raw_archive` of the soak checker: whole-file digest first, then
      positioned reads member by member, the footer and the listing. */
  method VerifySoakArchive(sha: Digest, p: Policy, file: Bytes, expectedSha: Bytes, expectedLength: nat)
    returns (r: Option<seq<Located>>)
    requires p.listing < |p.inventory|
    ensures r == Outcome(sha, p, file, expectedSha, expectedLength)
  {
    if expectedLength < 1 || p.maximum < expectedLength || |file| != expectedLength { return None; }
    var whole := StreamRange(file, 0, expectedLength);
    assert file[0..|file|] == file;
    if whole.None? || sha(whole.value) != expectedSha { return None; }
    var scanned, digests := ScanInventory(sha, p.codec, file, p.inventory, FileScan(p.codec, file));
    if scanned.None? { return None; }
    VerdictFromScan(sha, p, file, digests);
    var footer := CheckFooter(file, scanned.value.end);
    if !footer { return None; }
    var listing := ReadMember(file, scanned.value.locs[p.listing]);
    if listing != ListingText(p.inventory, digests, p.inventory[p.listing].name) { return None; }
    return Some(scanned.value.locs);
  }
}
