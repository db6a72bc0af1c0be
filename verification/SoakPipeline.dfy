/** From archive bytes to a report: the archive is verified, the event member's
    lines are cut and decoded, and the events are replayed. */
module SoakPipeline {
  import opened Lists
  import opened Octets
  import opened Sequences
  import opened SoakEvents
  import opened SoakBatch
  import opened SoakAgreement
  import opened TextLines
  import opened UstarFormat
  import opened UstarVerifier
  import opened UstarReaders
  import opened UstarPolicies
  import Jsonl
  import Utf8

  /** The UTF-8 decoder, and the JSON decoder of one line with its event shape; a
      blank line decodes to nothing. */
  datatype Decoder = Decoder(utf8: Bytes -> Option<Text>, event: Text -> Option<Event>)

  /** All lines decoded, or nothing when one is not an event. */
  function Decoded<T>(decode: T -> Option<Event>, lines: seq<T>): (r: Option<seq<Event>>)
    ensures r.Some? ==> |r.value| == |lines|
  {
    if lines == [] then Some([])
    else
      var front, last := Decoded(decode, DropLast(lines)), decode(Last(lines));
      if front.None? || last.None? then None else Some(front.value + [last.value])
  }

  // ----- the list path -----------------------------------------------------------------

  /** `_parse_jsonl_bytes`. */
  function ListEvents(d: Decoder, data: Bytes): Option<seq<Event>> {
    var text := d.utf8(data);
    if text.None? || SplitLines(text.value) == [] then None else Decoded(d.event, SplitLines(text.value))
  }

  function EvaluateEvents(m: Manifest, run: RunInfo, events: Option<seq<Event>>): Option<Report> {
    if events.None? then None else Evaluate(m, run, events.value)
  }

  // ----- the streaming path ------------------------------------------------------------

  /** `decode_line`. */
  function LineEvent(d: Decoder): Bytes -> Option<Event> {
    (raw: Bytes) =>
      var text := d.utf8(Utf8.StrippedBytes(raw));
      if text.None? then None else d.event(text.value)
  }

  function StreamEvents(d: Decoder, data: Bytes, cap: nat): Option<seq<Event>> {
    var lines := Jsonl.Lines(data);
    if lines == [] || !Jsonl.WithinCap(lines, cap) then None else Decoded(LineEvent(d), lines)
  }

  lemma {:induction false} DecodedSnoc<T>(decode: T -> Option<Event>, lines: seq<T>, line: T)
    ensures Decoded(decode, lines + [line]) ==
            var front, last := Decoded(decode, lines), decode(line);
            if front.None? || last.None? then None else Some(front.value + [last.value])
  {
    assert DropLast(lines + [line]) == lines;
  }

  lemma {:induction false} DecodedPrefix<T>(decode: T -> Option<Event>, lines: seq<T>, n: nat)
    requires n <= |lines| && Decoded(decode, lines).Some?
    ensures Decoded(decode, lines[..n]).Some?
  {
    if n == |lines| {
      assert lines[..n] == lines;
    } else {
      DecodedPrefix(decode, DropLast(lines), n);
      assert DropLast(lines)[..n] == lines[..n];
    }
  }

  /** Decodes line by line and stops at the first that is no event. */
  method DecodeLines(d: Decoder, lines: seq<Bytes>) returns (r: Option<seq<Event>>)
    ensures r == Decoded(LineEvent(d), lines)
  {
    var events: seq<Event>, decode := [], LineEvent(d);
    for i := 0 to |lines|
      invariant Decoded(decode, lines[..i]) == Some(events)
    {
      assert lines[..i + 1] == lines[..i] + [lines[i]];
      DecodedSnoc(decode, lines[..i], lines[i]);
      var event := decode(lines[i]);
      if event.None? {
        if Decoded(decode, lines).Some? { DecodedPrefix(decode, lines, i + 1); }
        return None;
      }
      events := events + [event.value];
    }
    assert lines[..|lines|] == lines;
    return Some(events);
  }

  /** The event member streamed out of the archive, decoded and replayed. */
  method ReplayMember(d: Decoder, m: Manifest, run: RunInfo, file: Bytes, member: Located, cap: nat)
    returns (r: Option<Report>)
    requires ValidManifest(m) && member.offset + member.size <= |file|
    ensures StreamVerdict(d, m, run, SliceOf(file, member), cap, r)
  {
    var lines := Jsonl.IterateLines(file, member, cap);
    if lines.None? { return None; }
    var events := DecodeLines(d, lines.value);
    if events.None? { return None; }
    r := Replay(m, run, events.value);
  }

  // ----- both paths decode alike ---------------------------------------------------------

  lemma {:induction false} DecodedAlike(d: Decoder, lines: seq<Text>)
    requires Utf8.Decodes(d.utf8) && Utf8.AllText(lines)
    ensures Decoded(LineEvent(d), Utf8.EncodeAll(lines)) == Decoded(d.event, Mapped(Stripped, lines))
  {
    if lines != [] {
      var front, line := DropLast(lines), Last(lines);
      DecodedAlike(d, front);
      Utf8.StrippedLine(line);
      assert DropLast(Utf8.EncodeAll(lines)) == Utf8.EncodeAll(front);
      assert DropLast(Mapped(Stripped, lines)) == Mapped(Stripped, front);
    }
  }

  /** On plain text whose lines are within the cap, the stream and the list path see
      the same events, or both refuse. */
  lemma {:induction false} EventsAgree(d: Decoder, text: Text, cap: nat)
    requires Utf8.Decodes(d.utf8) && Utf8.IsText(text) && Plain(text)
    requires Jsonl.WithinCap(Jsonl.Lines(Utf8.Encode(text)), cap)
    ensures StreamEvents(d, Utf8.Encode(text), cap) == ListEvents(d, Utf8.Encode(text))
  {
    Utf8.LinesOfText(text);
    DecodedAlike(d, NewlineLines(text));
    ReadersAgreeIffPlain(text);
  }

  // ----- the whole path --------------------------------------------------------------------

  /** The result that replaying the stream of `data` must have. */
  ghost predicate StreamVerdict(d: Decoder, m: Manifest, run: RunInfo, data: Bytes, cap: nat, r: Option<Report>) {
    SameEvaluation(r, EvaluateEvents(m, run, StreamEvents(d, data, cap)))
  }

  /** What the list path makes of `data`. */
  ghost predicate ListVerdict(d: Decoder, m: Manifest, run: RunInfo, data: Bytes, r: Option<Report>) {
    SameEvaluation(r, EvaluateEvents(m, run, ListEvents(d, data)))
  }

  /** An event member that both line readers read alike. */
  ghost predicate PlainEvents(data: Bytes, cap: nat) {
    && Jsonl.WithinCap(Jsonl.Lines(data), cap)
    && exists text :: Utf8.IsText(text) && Plain(text) && data == Utf8.Encode(text)
  }

  lemma {:induction false} PlainVerdict(d: Decoder, m: Manifest, run: RunInfo, data: Bytes, cap: nat, r: Option<Report>)
    requires Utf8.Decodes(d.utf8) && PlainEvents(data, cap) && StreamVerdict(d, m, run, data, cap, r)
    ensures ListVerdict(d, m, run, data, r)
  {
    var text :| Utf8.IsText(text) && Plain(text) && data == Utf8.Encode(text);
    EventsAgree(d, text, cap);
  }

  /** What the verified locations say about one member. */
  lemma {:induction false} VerifiedMember(sha: Digest, p: Policy, file: Bytes, k: nat)
    requires p.listing < |p.inventory| && k < |p.inventory| && Verified(sha, p, file).Some?
    ensures var locs := Verified(sha, p, file).value;
            |locs| == |p.inventory| && locs[k].offset + locs[k].size <= |file| && Slices(file, locs)[k] == SliceOf(file, locs[k])
  {
  }

  /** No report without verified locations; otherwise the verdict on member `k`. */
  ghost predicate MemberVerdict(
    v: Option<seq<Located>>, k: nat, d: Decoder, m: Manifest, run: RunInfo, file: Bytes, cap: nat, r: Option<Report>)
  {
    if v.None? then r.None?
    else k < |v.value| && v.value[k].offset + v.value[k].size <= |file|
         && StreamVerdict(d, m, run, SliceOf(file, v.value[k]), cap, r)
  }

  /** The held archive end to end: verification, then the replay of member `k`. */
  method ReplayArchive(
    sha: Digest, p: Policy, k: nat, d: Decoder, m: Manifest, run: RunInfo,
    file: Bytes, expectedSha: Bytes, expectedLength: nat, cap: nat)
    returns (r: Option<Report>)
    requires ValidManifest(m) && p.listing < |p.inventory| && k < |p.inventory|
    ensures MemberVerdict(UstarReaders.Outcome(sha, p, file, expectedSha, expectedLength), k, d, m, run, file, cap, r)
  {
    var locs := VerifySoakArchive(sha, p, file, expectedSha, expectedLength);
    if locs.None? { return None; }
    VerifiedMember(sha, p, file, k);
    r := ReplayMember(d, m, run, file, locs.value[k], cap);
  }

  /** What that result means. Without the canonical writer's output of the expected
      length and digest there is no report. For an archive that was written with
      plain events within the cap, it is the list path's verdict on the payload. */
  lemma {:induction false} ReplayMeansListVerdict(
    sha: Digest, p: Policy, k: nat, d: Decoder, m: Manifest, run: RunInfo,
    file: Bytes, expectedSha: Bytes, expectedLength: nat, cap: nat, payloads: seq<Bytes>, r: Option<Report>)
    requires ValidPolicy(p) && k < |p.inventory| && Utf8.Decodes(d.utf8)
    requires MemberVerdict(UstarReaders.Outcome(sha, p, file, expectedSha, expectedLength), k, d, m, run, file, cap, r)
    ensures r.Some? ==> Expected(sha, p, file, expectedSha, expectedLength) && exists ps :: Canonical(sha, p, file, ps)
    ensures (&& Expected(sha, p, file, expectedSha, expectedLength) && Canonical(sha, p, file, payloads)
             && PlainEvents(payloads[k], cap)) ==> ListVerdict(d, m, run, payloads[k], r)
  {
    var v := UstarReaders.Outcome(sha, p, file, expectedSha, expectedLength);
    if v.Some? {
      VerifiedIffCanonical(sha, p, file, Slices(file, v.value));
      VerifiedMember(sha, p, file, k);
    }
    VerifiedIffCanonical(sha, p, file, payloads);
    if Expected(sha, p, file, expectedSha, expectedLength) && Canonical(sha, p, file, payloads) && PlainEvents(payloads[k], cap) {
      PlainVerdict(d, m, run, payloads[k], cap, r);
    }
  }

  /** Position of `events.jsonl` in the soak inventory. */
  const EventsMember := 3

  lemma {:induction false} EventsMemberName()
    ensures SoakPolicy().inventory[EventsMember].name == Ascii("events.jsonl") && ValidPolicy(SoakPolicy())
  {
    PoliciesValid();
  }
}
