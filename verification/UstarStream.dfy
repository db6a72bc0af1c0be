/** The performance checker's archive verifier: one sequential pass over a
    descriptor, with an end-of-archive decision at every header. */
module UstarStream {
  import opened Sequences
  import opened Octets
  import opened UstarFormat
  import opened UstarArchive
  import opened UstarVerifier
  import opened UstarReaders

  /** An open descriptor with a read position; every byte read also enters the
      archive digest. */
  class Descriptor {
    const file: Bytes
    var position: nat
    var hashed: Bytes

    predicate Valid()
      reads this
    {
      position <= |file| && hashed == file[..position]
    }

    constructor (file: Bytes)
      ensures this.file == file && Valid() && position == 0
    {
      this.file, position, hashed := file, 0, [];
    }

    /** `_bound_raw_read`: advances by whatever the host returns. */
    method Read(want: nat) returns (block: Bytes)
      requires Valid()
      modifies this
      ensures Valid() && IsRead(file, old(position), want, block) && position == old(position) + |block|
    {
      block := Pread(file, want, position);
      assert file[..position + |block|] == file[..position] + block;
      position, hashed := position + |block|, hashed + block;
    }
  }

  /** The range of the file that a read of `size` bytes at `at` would give. */
  function Range(file: Bytes, at: nat, size: nat): Option<Bytes> {
    if size == 0 then Some([]) else if at + size <= |file| then Some(file[at..at + size]) else None
  }

  predicate AllZero(s: Bytes) {
    forall i :: 0 <= i < |s| ==> s[i] == 0
  }

  /** Streams one region; every byte also enters the archive digest. A region that
      must be zero stops at the first chunk that is not. */
  method Consume(d: Descriptor, size: nat, requireZero: bool) returns (r: Option<Bytes>)
    requires d.Valid()
    modifies d
    ensures d.Valid()
    ensures r == (var range := Range(d.file, old(d.position), size);
                  if range.Some? && requireZero && !AllZero(range.value) then None else range)
    ensures r.Some? ==> d.position == old(d.position) + size
  {
    var seen: Bytes, remaining: nat, start := [], size, d.position;
    while remaining != 0
      invariant d.Valid() && |seen| + remaining == size && d.position == start + |seen|
      invariant seen != [] ==> start + |seen| <= |d.file| && seen == d.file[start..start + |seen|]
      invariant requireZero ==> AllZero(seen)
    {
      var block := d.Read(if remaining < 1048576 then remaining else 1048576);
      if block == [] { return None; }
      var at := start + |seen|;
      assert d.file[start..at + |block|] == (if seen == [] then [] else d.file[start..at]) + block;
      if requireZero && !AllZero(block) {
        if start + size <= |d.file| { NonZeroInside(d.file, start, at, |block|, size); }
        return None;
      }
      seen, remaining := seen + block, remaining - |block|;
    }
    return Some(seen);
  }

  lemma {:induction false} NonZeroInside(file: Bytes, start: nat, at: nat, length: nat, size: nat)
    requires start <= at && at + length <= start + size <= |file| && !AllZero(file[at..at + length])
    ensures !AllZero(file[start..start + size])
  {
    var i :| 0 <= i < length && file[at..at + length][i] != 0;
    assert file[start..start + size][at - start + i] == file[at + i];
  }

  /** The members, one header at a time, as far as they are canonical. */
  method StreamMember(c: Codec, d: Descriptor, entry: Entry, header: Bytes, ghost offset: nat)
    returns (r: Option<(Located, Bytes)>)
    requires d.Valid() && Faithful(c) && ValidName(entry.name) && entry.limit < SizeLimit
    requires d.position == offset + BlockSize <= |d.file| && header == d.file[offset..offset + BlockSize]
    requires header != Zeros(BlockSize)
    modifies d
    ensures d.Valid()
    ensures r.Some? <==> ScanMember(c, d.file, entry, offset).Some?
    ensures r.Some? ==> Some(r.value.0) == ScanMember(c, d.file, entry, offset) && r.value.1 == SliceOf(d.file, r.value.0)
    ensures r.Some? ==> d.position == r.value.0.offset + Padded(r.value.0.size) <= |d.file|
  {
    var parsed := c.read(header);
    if parsed.None? { return None; }
    var size := parsed.value.size;
    if size == 0 || entry.limit < size || header != c.write(entry.name, size) { return None; }
    assert parsed.value.name == entry.name;
    var data := d.position;
    var payload := Consume(d, size, false);
    if payload.None? { return None; }
    var padding := Consume(d, BlockPadding(size), true);
    PaddingText(d.file, data + size, BlockPadding(size));
    if padding.None? { return None; }
    return Some((Located(data, size), payload.value));
  }

  lemma {:induction false} PaddingText(file: Bytes, at: nat, size: nat)
    requires at <= |file|
    ensures var range := Range(file, at, size);
            range.Some? && AllZero(range.value) <==> at + size <= |file| && file[at..at + size] == Zeros(size)
  {
  }

  // ----- the end of the archive ---------------------------------------------

  /** The exact zero footer, as the stream meets it: two zero blocks, then zero
      fill of the length that completes the record. */
  predicate FooterInParts(file: Bytes, end: nat) {
    && end + 2 * BlockSize <= |file|
    && file[end..end + BlockSize] == Zeros(BlockSize)
    && file[end + BlockSize..end + 2 * BlockSize] == Zeros(BlockSize)
    && |file| - (end + 2 * BlockSize) == RecordPadding(end + 2 * BlockSize)
    && AllZero(file[end + 2 * BlockSize..])
  }

  lemma {:induction false} FooterAgrees(file: Bytes, end: nat)
    requires end <= |file|
    ensures FooterInParts(file, end) <==> |file| == end + FooterSize(end) && file[end..] == Zeros(FooterSize(end))
  {
  }

  /** Reads what follows the last member; the first zero block is already read. */
  method StreamFooter(d: Descriptor, ghost end: nat) returns (ok: bool)
    requires d.Valid() && d.position == end + BlockSize && d.file[end..end + BlockSize] == Zeros(BlockSize)
    modifies d
    ensures d.Valid() && (ok <==> FooterInParts(d.file, end))
    ensures ok ==> d.position == |d.file|
  {
    if |d.file| < d.position + BlockSize { return false; }
    var second := Consume(d, BlockSize, false);
    if second.None? || second.value != Zeros(BlockSize) { return false; }
    var fill := RecordPadding(d.position);
    if |d.file| - d.position != fill { return false; }
    ghost var at := d.position;
    assert d.file[at..at + fill] == d.file[at..];
    var rest := Consume(d, fill, true);
    return rest.Some?;
  }

  /** One turn of the header loop. */
  datatype Turn = AtEnd | Refused | Next(l: Located, data: Bytes)

  method StreamHeader(p: Policy, d: Descriptor, i: nat, ghost scan: MemberScan) returns (t: Turn)
    requires ValidPolicy(p) && d.Valid() && i <= |p.inventory| && IsScanOf(scan, p.codec, d.file)
    modifies d
    ensures d.Valid()
    ensures t.AtEnd? ==>
      && i == |p.inventory| && d.position == old(d.position) + BlockSize
      && d.file[old(d.position)..d.position] == Zeros(BlockSize)
    ensures t.Refused? ==>
      if i < |p.inventory| then scan(p.inventory[i], old(d.position)).None?
      else !FooterInParts(d.file, old(d.position))
    ensures t.Next? ==>
      && i < |p.inventory| && scan(p.inventory[i], old(d.position)) == Some(t.l)
      && t.l.offset + t.l.size <= |d.file| && t.data == SliceOf(d.file, t.l)
      && d.position == t.l.offset + Padded(t.l.size) && old(d.position) < d.position
  {
    ghost var offset := d.position;
    if i < |p.inventory| { assert scan(p.inventory[i], offset) == ScanMember(p.codec, d.file, p.inventory[i], offset); }
    if |d.file| < d.position + BlockSize { return Refused; }
    var header := Consume(d, BlockSize, false);
    if header.value == Zeros(BlockSize) {
      return if i != |p.inventory| then Refused else AtEnd;
    }
    if i == |p.inventory| { return Refused; }
    var member := StreamMember(p.codec, d, p.inventory[i], header.value, offset);
    if member.None? { return Refused; }
    return Next(member.value.0, member.value.1);
  }

  /** What the member loop of the stream leaves: the whole inventory located and
      the first zero block consumed, or nothing. */
  method StreamMembers(sha: Digest, p: Policy, d: Descriptor, ghost scan: MemberScan)
    returns (r: Option<seq<Located>>, digests: seq<Bytes>, ghost end: nat)
    requires ValidPolicy(p) && d.Valid() && d.position == 0 && IsScanOf(scan, p.codec, d.file)
    modifies d
    ensures d.Valid()
    ensures r.Some? ==>
      && ScanAll(scan, p.inventory, 0) == Some(Scanned(r.value, end))
      && Kept(sha, d.file, r.value, digests)
      && d.position == end + BlockSize <= |d.file| && d.file[end..end + BlockSize] == Zeros(BlockSize)
    ensures r.None? ==>
      var s := ScanAll(scan, p.inventory, 0); s.None? || !FooterInParts(d.file, s.value.end)
  {
    var locs: seq<Located>, i: nat := [], 0;
    digests, end := [], 0;
    ghost var todo := p.inventory;
    ghost var total := ScanAll(scan, p.inventory, 0);
    ResumeStarts(scan, p.inventory);
    while true
      invariant d.Valid() && i <= |p.inventory| && todo == p.inventory[i..] && Kept(sha, d.file, locs, digests)
      invariant total == Resume(locs, ScanAll(scan, todo, d.position))
      decreases |d.file| - d.position
    {
      end := d.position;
      var t := StreamHeader(p, d, i, scan);
      if !t.Next? {
        ResumeStops(scan, todo, end, locs, total);
        return if t.AtEnd? then Some(locs) else None, digests, end;
      }
      KeptSnoc(sha, d.file, locs, digests, t.l);
      ResumeNext(scan, todo, end, locs, total, t.l, d.position);
      todo := todo[1..];
      locs, i, digests := locs + [t.l], i + 1, digests + [sha(t.data)];
    }
  }

  /** `_stream_bound_raw_archive` of the performance checker. It accepts exactly what
      the soak verifier would accept under the same policy. */
  method VerifyPerformanceArchive(sha: Digest, p: Policy, d: Descriptor, expectedSha: Bytes, expectedLength: nat)
    returns (r: Option<seq<Located>>)
    requires ValidPolicy(p) && d.Valid() && d.position == 0
    modifies d
    ensures r == Outcome(sha, p, d.file, expectedSha, expectedLength)
  {
    if expectedLength < 1 || p.maximum < expectedLength || |d.file| != expectedLength { return None; }
    ghost var end;
    var locs, digests;
    locs, digests, end := StreamMembers(sha, p, d, FileScan(p.codec, d.file));
    if Scan(p.codec, d.file, p.inventory).Some? { FooterVerdict(sha, p, d.file); }
    if locs.None? { return None; }
    VerdictFromScan(sha, p, d.file, digests);
    var footer := StreamFooter(d, end);
    if !footer { return None; }
    assert d.file[..|d.file|] == d.file;
    if sha(d.hashed) != expectedSha { return None; }
    var listing := ReadMember(d.file, locs.value[p.listing]);
    if listing != ListingText(p.inventory, digests, p.inventory[p.listing].name) { return None; }
    return locs;
  }

  lemma {:induction false} FooterVerdict(sha: Digest, p: Policy, file: Bytes)
    requires p.listing < |p.inventory| && Scan(p.codec, file, p.inventory).Some?
    ensures var end := Scan(p.codec, file, p.inventory).value.end;
            && end <= |file|
            && (FooterInParts(file, end) <==> |file| == end + FooterSize(end) && file[end..] == Zeros(FooterSize(end)))
            && (!FooterInParts(file, end) ==> Verified(sha, p, file) == None)
  {
    ScansCanonical(p.codec, file, p.inventory);
    FooterAgrees(file, Scan(p.codec, file, p.inventory).value.end);
  }
}
