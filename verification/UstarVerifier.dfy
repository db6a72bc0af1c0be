/** The two held-descriptor verifiers of canonical raw evidence archives, proved
    against one description of what they accept. */
module UstarVerifier {
  import opened Sequences
  import opened Octets
  import opened UstarFormat
  import opened UstarArchive

  /** Where a verified member's data lies in the archive. */
  datatype Located = Located(offset: nat, size: nat)

  function SliceOf(file: Bytes, l: Located): Bytes
    requires l.offset + l.size <= |file|
  {
    file[l.offset..l.offset + l.size]
  }

  predicate InFile(file: Bytes, locs: seq<Located>) {
    forall i :: 0 <= i < |locs| ==> locs[i].offset + locs[i].size <= |file|
  }

  function Slices(file: Bytes, locs: seq<Located>): (ps: seq<Bytes>)
    requires InFile(file, locs)
    ensures |ps| == |locs|
  {
    seq(|locs|, i requires 0 <= i < |locs| => SliceOf(file, locs[i]))
  }

  // ----- one member ---------------------------------------------------------

  /** Checks the header, bounds and padding of the member at `offset`. */
  function ScanMember(c: Codec, file: Bytes, entry: Entry, offset: nat): (r: Option<Located>)
    ensures r.Some? ==> r.value.offset == offset + BlockSize && 0 < r.value.size <= entry.limit
                        && offset + BlockSize + Padded(r.value.size) <= |file|
  {
    if |file| < offset + BlockSize then None
    else
      var header := file[offset..offset + BlockSize];
      if header == Zeros(BlockSize) then None
      else
        var parsed := c.read(header);
        if parsed.None? then None
        else if parsed.value.name != entry.name then None
        else
          var size := parsed.value.size;
          if size == 0 || entry.limit < size then None
          else if header != c.write(entry.name, size) then None
          else
            var data := offset + BlockSize;
            if |file| < data + Padded(size) then None
            else if file[data + size..data + Padded(size)] != Zeros(BlockPadding(size)) then None
            else Some(Located(data, size))
  }

  lemma {:induction false} ScanMemberSound(c: Codec, file: Bytes, entry: Entry, offset: nat)
    requires ScanMember(c, file, entry, offset).Some?
    ensures var l := ScanMember(c, file, entry, offset).value;
            file[offset..l.offset + Padded(l.size)] == Member(c, entry.name, SliceOf(file, l))
  {
  }

  lemma {:induction false} SubSlice(file: Bytes, offset: nat, length: nat, from: nat, to: nat)
    requires offset + length <= |file| && from <= to <= length
    ensures file[offset..offset + length][from..to] == file[offset + from..offset + to]
  {
    var part := file[offset..offset + length];
    assert forall i :: 0 <= i < to - from ==> part[from..to][i] == part[from + i] == file[offset + from + i];
  }

  lemma {:induction false} Parts(a: Bytes, b: Bytes, z: Bytes)
    ensures (a + b + z)[0..|a|] == a
    ensures (a + b + z)[|a|..|a| + |b|] == b
    ensures (a + b + z)[|a| + |b|..|a + b + z|] == z
  {
  }

  lemma {:induction false} ScanMemberComplete(c: Codec, file: Bytes, entry: Entry, offset: nat, data: Bytes)
    requires Faithful(c) && ValidName(entry.name) && entry.limit < SizeLimit && 0 < |data| <= entry.limit
    requires offset + |Member(c, entry.name, data)| <= |file|
    requires file[offset..offset + |Member(c, entry.name, data)|] == Member(c, entry.name, data)
    ensures ScanMember(c, file, entry, offset) == Some(Located(offset + BlockSize, |data|))
    ensures SliceOf(file, Located(offset + BlockSize, |data|)) == data
  {
    var m, n := Member(c, entry.name, data), |data|;
    assert |c.write(entry.name, n)| == BlockSize;
    SubSlice(file, offset, |m|, 0, BlockSize);
    SubSlice(file, offset, |m|, BlockSize, BlockSize + n);
    SubSlice(file, offset, |m|, BlockSize + n, |m|);
    Parts(c.write(entry.name, n), data, Zeros(BlockPadding(n)));
  }

  // ----- the whole archive --------------------------------------------------

  datatype Scanned = Scanned(locs: seq<Located>, end: nat)

  /** A check of one member at an offset. */
  type MemberScan = (Entry, nat) -> Option<Located>

  function ScanAll(scan: MemberScan, inv: Inventory, offset: nat): (r: Option<Scanned>)
    ensures r.Some? ==> |r.value.locs| == |inv|
  {
    if inv == [] then Some(Scanned([], offset))
    else
      var first := scan(inv[0], offset);
      if first.None? then None
      else
        var rest := ScanAll(scan, inv[1..], first.value.offset + Padded(first.value.size));
        if rest.None? then None else Some(Scanned([first.value] + rest.value.locs, rest.value.end))
  }

  /** A member check that passes only whole members inside the file. */
  ghost predicate SoundScan(scan: MemberScan, c: Codec, file: Bytes) {
    forall entry: Entry, offset: nat :: scan(entry, offset).Some? ==>
      var l := scan(entry, offset).value;
      && l.offset == offset + BlockSize && 0 < l.size <= entry.limit && l.offset + Padded(l.size) <= |file|
      && file[offset..l.offset + Padded(l.size)] == Member(c, entry.name, SliceOf(file, l))
  }

  function FileScan(c: Codec, file: Bytes): MemberScan {
    (entry: Entry, offset: nat) => ScanMember(c, file, entry, offset)
  }

  /** `scan` is the member check of this file, member by member. */
  ghost predicate IsScanOf(scan: MemberScan, c: Codec, file: Bytes) {
    forall entry: Entry, offset: nat {:trigger ScanMember(c, file, entry, offset)} ::
      scan(entry, offset) == ScanMember(c, file, entry, offset)
  }

  lemma {:induction false} FileScanSound(c: Codec, file: Bytes)
    ensures SoundScan(FileScan(c, file), c, file)
  {
    forall entry: Entry, offset: nat | FileScan(c, file)(entry, offset).Some?
      ensures var l := FileScan(c, file)(entry, offset).value;
        && l.offset == offset + BlockSize && 0 < l.size <= entry.limit && l.offset + Padded(l.size) <= |file|
        && file[offset..l.offset + Padded(l.size)] == Member(c, entry.name, SliceOf(file, l))
    {
      ScanMemberSound(c, file, entry, offset);
    }
  }

  function Scan(c: Codec, file: Bytes, inv: Inventory): Option<Scanned> {
    ScanAll(FileScan(c, file), inv, 0)
  }

  lemma {:induction false} SlicesCons(file: Bytes, first: Located, rest: seq<Located>)
    requires InFile(file, rest) && first.offset + first.size <= |file|
    ensures InFile(file, [first] + rest)
    ensures Slices(file, [first] + rest) == [SliceOf(file, first)] + Slices(file, rest)
  {
  }

  lemma {:induction false} BoundedCons(c: Codec, inv: Inventory, first: Bytes, rest: seq<Bytes>)
    requires inv != [] && 0 < |first| <= inv[0].limit && Bounded(inv[1..], rest)
    ensures Bounded(inv, [first] + rest)
    ensures Members(c, inv, [first] + rest) == Member(c, inv[0].name, first) + Members(c, inv[1..], rest)
  {
  }

  /** Everything a scan passes is exactly the members its locations slice out. */
  lemma {:induction false} ScanSound(scan: MemberScan, c: Codec, file: Bytes, inv: Inventory, offset: nat)
    requires SoundScan(scan, c, file) && offset <= |file| && ScanAll(scan, inv, offset).Some?
    ensures var r := ScanAll(scan, inv, offset).value;
            && InFile(file, r.locs) && offset <= r.end <= |file|
            && Bounded(inv, Slices(file, r.locs)) && file[offset..r.end] == Members(c, inv, Slices(file, r.locs))
  {
    if inv != [] {
      var first := scan(inv[0], offset).value;
      var next := first.offset + Padded(first.size);
      var rest := ScanAll(scan, inv[1..], next).value;
      ScanSound(scan, c, file, inv[1..], next);
      SlicesCons(file, first, rest.locs);
      BoundedCons(c, inv, SliceOf(file, first), Slices(file, rest.locs));
      JoinSlices(file, offset, next, rest.end);
    }
  }

  lemma {:induction false} JoinSlices(file: Bytes, a: nat, b: nat, d: nat)
    requires a <= b <= d <= |file|
    ensures file[a..d] == file[a..b] + file[b..d]
  {
  }

  lemma {:induction false} SplitMembers(file: Bytes, offset: nat, m: Bytes, rest: Bytes)
    requires offset + |m + rest| <= |file| && file[offset..offset + |m + rest|] == m + rest
    ensures file[offset..offset + |m|] == m
    ensures file[offset + |m|..offset + |m| + |rest|] == rest
  {
    SubSlice(file, offset, |m + rest|, 0, |m|);
    SubSlice(file, offset, |m + rest|, |m|, |m + rest|);
    assert (m + rest)[0..|m|] == m && (m + rest)[|m|..|m + rest|] == rest;
  }

  /** The member of `entry` holding `data` stands at `offset`. */
  predicate Stands(c: Codec, file: Bytes, entry: Entry, offset: nat, data: Bytes) {
    var m := Member(c, entry.name, data);
    && ValidName(entry.name) && entry.limit < SizeLimit && 0 < |data| <= entry.limit
    && offset + |m| <= |file| && file[offset..offset + |m|] == m
  }

  predicate Finds(scan: MemberScan, c: Codec, file: Bytes, entry: Entry, offset: nat, data: Bytes) {
    && scan(entry, offset) == Some(Located(offset + BlockSize, |data|))
    && |Member(c, entry.name, data)| == BlockSize + Padded(|data|)
    && offset + BlockSize + |data| <= |file|
    && SliceOf(file, Located(offset + BlockSize, |data|)) == data
  }

  /** A member check that passes every canonical member, and locates its data. */
  ghost predicate CompleteScan(scan: MemberScan, c: Codec, file: Bytes) {
    forall entry: Entry, offset: nat, data: Bytes ::
      Stands(c, file, entry, offset, data) ==> Finds(scan, c, file, entry, offset, data)
  }

  lemma {:induction false} FileScanComplete(c: Codec, file: Bytes)
    requires Faithful(c)
    ensures CompleteScan(FileScan(c, file), c, file)
  {
    forall entry: Entry, offset: nat, data: Bytes | Stands(c, file, entry, offset, data)
      ensures Finds(FileScan(c, file), c, file, entry, offset, data)
    {
      ScanMemberComplete(c, file, entry, offset, data);
    }
  }

  lemma {:induction false} ScanCons(
      scan: MemberScan, c: Codec, file: Bytes, inv: Inventory, offset: nat, data: Bytes, rest: seq<Bytes>)
    requires inv != [] && Finds(scan, c, file, inv[0], offset, data)
    requires var r := ScanAll(scan, inv[1..], offset + |Member(c, inv[0].name, data)|);
             r.Some? && InFile(file, r.value.locs) && Slices(file, r.value.locs) == rest
    ensures var r := ScanAll(scan, inv, offset);
            && r.Some? && InFile(file, r.value.locs) && Slices(file, r.value.locs) == [data] + rest
            && r.value.end == ScanAll(scan, inv[1..], offset + |Member(c, inv[0].name, data)|).value.end
  {
    var tail := ScanAll(scan, inv[1..], offset + |Member(c, inv[0].name, data)|).value;
    SlicesCons(file, Located(offset + BlockSize, |data|), tail.locs);
  }

  /** A scan passes the members of every bounded payload list and slices it out. */
  lemma {:induction false} ScanComplete(
    scan: MemberScan, c: Codec, file: Bytes, inv: Inventory, offset: nat, payloads: seq<Bytes>)
    requires CompleteScan(scan, c, file) && ValidInventory(inv) && Bounded(inv, payloads)
    requires offset + |Members(c, inv, payloads)| <= |file|
    requires file[offset..offset + |Members(c, inv, payloads)|] == Members(c, inv, payloads)
    ensures var r := ScanAll(scan, inv, offset);
            && r.Some? && r.value.end == offset + |Members(c, inv, payloads)|
            && InFile(file, r.value.locs) && Slices(file, r.value.locs) == payloads
  {
    if inv != [] {
      var m := Member(c, inv[0].name, payloads[0]);
      var rest := Members(c, inv[1..], payloads[1..]);
      SplitMembers(file, offset, m, rest);
      assert Stands(c, file, inv[0], offset, payloads[0]);
      ScanComplete(scan, c, file, inv[1..], offset + |m|, payloads[1..]);
      ScanCons(scan, c, file, inv, offset, payloads[0], payloads[1..]);
      assert [payloads[0]] + payloads[1..] == payloads;
      assert |Members(c, inv, payloads)| == |m| + |rest|;
    }
  }

  // ----- checksums ----------------------------------------------------------

  type Digest = Bytes -> Bytes

  function SumLine(sha: Digest, name: Bytes, data: Bytes): Bytes {
    sha(data) + [32, 32] + name + [10]
  }

  /** The checksum listing of every member but the listing itself. */
  function SumsFile(sha: Digest, inv: Inventory, payloads: seq<Bytes>, sums: Bytes): Bytes
    requires |payloads| == |inv|
  {
    if inv == [] then []
    else
      (if inv[0].name == sums then [] else SumLine(sha, inv[0].name, payloads[0]))
      + SumsFile(sha, inv[1..], payloads[1..], sums)
  }

  /** An archive policy: the header codec, the ordered inventory, the position of
      the checksum listing in it and the archive size bound. */
  datatype Policy = Policy(codec: Codec, inventory: Inventory, listing: nat, maximum: nat)

  ghost predicate ValidPolicy(p: Policy) {
    Faithful(p.codec) && ValidInventory(p.inventory) && p.listing < |p.inventory|
  }

  /** The archive is the writer's image of bounded payloads whose listing binds
      all the others. */
  predicate Canonical(sha: Digest, p: Policy, file: Bytes, payloads: seq<Bytes>)
    requires p.listing < |p.inventory|
  {
    && Bounded(p.inventory, payloads)
    && file == Image(p.codec, p.inventory, payloads)
    && payloads[p.listing] == SumsFile(sha, p.inventory, payloads, p.inventory[p.listing].name)
  }

  /** What both verifiers compute from the archive bytes. */
  function Verified(sha: Digest, p: Policy, file: Bytes): (v: Option<seq<Located>>)
    requires p.listing < |p.inventory|
    ensures v.Some? ==> InFile(file, v.value)
  {
    var r := Scan(p.codec, file, p.inventory);
    if r.None? then None
    else
      FileScanSound(p.codec, file);
      ScanSound(FileScan(p.codec, file), p.codec, file, p.inventory, 0);
      var end, ps := r.value.end, Slices(file, r.value.locs);
      if |file| != end + FooterSize(end) || file[end..] != Zeros(FooterSize(end)) then None
      else if ps[p.listing] != SumsFile(sha, p.inventory, ps, p.inventory[p.listing].name) then None
      else Some(r.value.locs)
  }

  lemma {:induction false} CanonicalScans(c: Codec, file: Bytes, inv: Inventory, payloads: seq<Bytes>)
    requires Faithful(c) && ValidInventory(inv) && Bounded(inv, payloads) && file == Image(c, inv, payloads)
    ensures var r := Scan(c, file, inv);
            && r.Some? && r.value.end == |Members(c, inv, payloads)|
            && InFile(file, r.value.locs) && Slices(file, r.value.locs) == payloads
            && |file| == r.value.end + FooterSize(r.value.end) && file[r.value.end..] == Zeros(FooterSize(r.value.end))
  {
    var body := Members(c, inv, payloads);
    assert file[0..|body|] == body && file[|body|..] == Zeros(FooterSize(|body|));
    FileScanComplete(c, file);
    ScanComplete(FileScan(c, file), c, file, inv, 0, payloads);
  }

  lemma {:induction false} ScansCanonical(c: Codec, file: Bytes, inv: Inventory)
    requires Scan(c, file, inv).Some?
    ensures var r := Scan(c, file, inv).value;
            && InFile(file, r.locs) && r.end <= |file|
            && (file[r.end..] == Zeros(FooterSize(r.end)) ==>
                  Bounded(inv, Slices(file, r.locs)) && file == Image(c, inv, Slices(file, r.locs)))
  {
    var r := Scan(c, file, inv).value;
    FileScanSound(c, file);
    ScanSound(FileScan(c, file), c, file, inv, 0);
    assert file == file[0..r.end] + file[r.end..];
  }

  /** Acceptance means: the canonical image of the sliced payloads, and nothing
      else is accepted or rejected. */
  lemma {:induction false} VerifiedIffCanonical(sha: Digest, p: Policy, file: Bytes, payloads: seq<Bytes>)
    requires ValidPolicy(p)
    ensures Canonical(sha, p, file, payloads) <==>
            Verified(sha, p, file).Some? && Slices(file, Verified(sha, p, file).value) == payloads
  {
    if Canonical(sha, p, file, payloads) {
      CanonicalScans(p.codec, file, p.inventory, payloads);
    }
    if Verified(sha, p, file).Some? {
      ScansCanonical(p.codec, file, p.inventory);
    }
  }

  /** The writer's image determines the payloads. */
  lemma {:induction false} ImageInjective(c: Codec, inv: Inventory, one: seq<Bytes>, two: seq<Bytes>)
    requires Faithful(c) && ValidInventory(inv) && Bounded(inv, one) && Bounded(inv, two)
    requires Image(c, inv, one) == Image(c, inv, two)
    ensures one == two
  {
    CanonicalScans(c, Image(c, inv, one), inv, one);
    CanonicalScans(c, Image(c, inv, two), inv, two);
  }
}
