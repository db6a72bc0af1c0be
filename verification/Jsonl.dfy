/** The bounded JSONL iterator: lines are cut out of a byte stream that arrives in
    chunks of any size, and no line longer than the cap is ever assembled. */
module Jsonl {
  import opened Lists
  import opened Sequences
  import opened Octets
  import opened UstarVerifier
  import opened UstarReaders

  const Newline: Byte := 10

  predicate IsNewline(b: Byte) { b == Newline }

  /** Position of the first newline, or the length when there is none. */
  function FirstNewline(data: Bytes): (k: nat)
    ensures k <= |data|
  {
    First(IsNewline, data)
  }

  /** The newline-separated lines; a last line without newline counts when it is
      not empty. */
  function Lines(data: Bytes): seq<Bytes> { Pieces(IsNewline, data) }

  predicate WithinCap(lines: seq<Bytes>, cap: nat) {
    forall i :: 0 <= i < |lines| ==> |lines[i]| <= cap
  }

  /** Each line with its newline. */
  function Terminated(lines: seq<Bytes>): Bytes {
    if lines == [] then [] else lines[0] + [Newline] + Terminated(lines[1..])
  }

  lemma {:induction false} NewlineFound(data: Bytes)
    ensures Newline !in data[..FirstNewline(data)]
    ensures FirstNewline(data) < |data| ==> data[FirstNewline(data)] == Newline
  {
  }

  lemma {:induction false} LinesHoldNoNewline(data: Bytes, i: nat)
    requires i < |Lines(data)|
    ensures Newline !in Lines(data)[i]
    decreases |data|
  {
    var k := FirstNewline(data);
    NewlineFound(data);
    if k == |data| {
      assert data[..k] == data;
    } else if 0 < i {
      LinesHoldNoNewline(data[k + 1..], i - 1);
    }
  }

  function Ended(data: Bytes): Bytes {
    if data == [] || Last(data) == Newline then data else data + [Newline]
  }

  lemma {:induction false} EndedSplits(line: Bytes, rest: Bytes)
    ensures Ended(line + [Newline] + rest) == line + [Newline] + Ended(rest)
  {
  }

  lemma {:induction false} LastLineEnds(data: Bytes)
    requires data != [] && FirstNewline(data) == |data|
    ensures Terminated([data]) == Ended(data)
  {
  }

  lemma {:induction false} TerminatedCons(line: Bytes, lines: seq<Bytes>)
    ensures Terminated([line] + lines) == line + [Newline] + Terminated(lines)
  {
  }

  /** Data with a newline is its first line, that newline, and the rest. */
  lemma {:induction false} LineCutsData(data: Bytes, line: Bytes, rest: Bytes)
    requires FirstNewline(data) < |data| && line == data[..FirstNewline(data)] && rest == data[FirstNewline(data) + 1..]
    ensures data == line + [Newline] + rest && Lines(data) == [line] + Lines(rest)
  {
    NewlineFound(data);
  }

  /** The lines spell the data again; only the last line may lack its newline. */
  lemma {:induction false} LinesSpellData(data: Bytes)
    ensures Terminated(Lines(data)) == Ended(data)
    decreases |data|
  {
    var k := FirstNewline(data);
    if data == [] {
    } else if k == |data| {
      LastLineEnds(data);
    } else {
      var line, rest := data[..k], data[k + 1..];
      LinesSpellData(rest);
      LineCutsData(data, line, rest);
      TerminatedCons(line, Lines(rest));
      EndedSplits(line, rest);
    }
  }

  /** What follows a newline does not move it, and what follows a partial line can
      only lengthen it. */
  lemma {:induction false} NewlineStays(pending: Bytes, rest: Bytes)
    ensures FirstNewline(pending) < |pending| ==> FirstNewline(pending + rest) == FirstNewline(pending)
    ensures |pending| == FirstNewline(pending) <= FirstNewline(pending + rest) || FirstNewline(pending) < |pending|
  {
    var k, j := FirstNewline(pending), FirstNewline(pending + rest);
    if k < |pending| { assert IsNewline((pending + rest)[k]); }
    assert j < |pending| ==> (pending + rest)[j] == pending[j];
  }

  /** Cutting at a newline already seen does not depend on what follows. */
  lemma {:induction false} CutLine(pending: Bytes, rest: Bytes)
    requires FirstNewline(pending) < |pending|
    ensures var k := FirstNewline(pending);
            Lines(pending + rest) == [pending[..k]] + Lines(pending[k + 1..] + rest)
  {
    NewlineStays(pending, rest);
    var k := FirstNewline(pending);
    assert (pending + rest)[..k] == pending[..k];
    assert (pending + rest)[k + 1..] == pending[k + 1..] + rest;
  }

  /** A partial line never shrinks. */
  lemma {:induction false} PartialLineGrows(pending: Bytes, rest: Bytes)
    requires pending != [] && FirstNewline(pending) == |pending|
    ensures Lines(pending + rest) != [] && |pending| <= |Lines(pending + rest)[0]|
  {
    NewlineStays(pending, rest);
  }

  lemma {:induction false} CapAppend(done: seq<Bytes>, more: seq<Bytes>, cap: nat)
    ensures WithinCap(done + more, cap) <==> WithinCap(done, cap) && WithinCap(more, cap)
  {
    if WithinCap(done + more, cap) {
      forall i | 0 <= i < |done| ensures |done[i]| <= cap { assert (done + more)[i] == done[i]; }
      forall i | 0 <= i < |more| ensures |more[i]| <= cap { assert (done + more)[|done| + i] == more[i]; }
    }
  }

  lemma {:induction false} CutNext(total: seq<Bytes>, lines: seq<Bytes>, left: Bytes, rest: Bytes, k: nat, cap: nat)
    requires total == lines + Lines(left + rest) && WithinCap(lines, cap)
    requires k == FirstNewline(left) < |left|
    ensures if k <= cap
            then total == (lines + [left[..k]]) + Lines(left[k + 1..] + rest) && WithinCap(lines + [left[..k]], cap)
            else !WithinCap(total, cap)
  {
    CutLine(left, rest);
    var more := Lines(left[k + 1..] + rest);
    assert lines + ([left[..k]] + more) == (lines + [left[..k]]) + more;
    assert total[|lines|] == left[..k];
  }

  lemma {:induction false} CutPartial(total: seq<Bytes>, lines: seq<Bytes>, left: Bytes, rest: Bytes, cap: nat)
    requires total == lines + Lines(left + rest) && FirstNewline(left) == |left| && cap < |left|
    ensures !WithinCap(total, cap)
  {
    PartialLineGrows(left, rest);
    assert total[|lines|] == Lines(left + rest)[0];
  }

  /** Cuts every complete line off `pending`. The rest of the stream is `rest`. */
  method CutLines(pending: Bytes, cap: nat, ghost rest: Bytes)
    returns (ok: bool, lines: seq<Bytes>, left: Bytes)
    ensures ok ==> Lines(pending + rest) == lines + Lines(left + rest) && WithinCap(lines, cap)
    ensures ok ==> FirstNewline(left) == |left| <= cap
    ensures !ok ==> !WithinCap(Lines(pending + rest), cap)
  {
    lines, left := [], pending;
    ghost var total := Lines(pending + rest);
    while true
      invariant total == lines + Lines(left + rest) && WithinCap(lines, cap)
      decreases |left|
    {
      var k := FirstNewline(left);
      if k == |left| {
        if cap < |left| { CutPartial(total, lines, left, rest, cap); }
        return |left| <= cap, lines, left;
      }
      CutNext(total, lines, left, rest, k, cap);
      if cap < k { return false, lines, left; }
      lines, left := lines + [left[..k]], left[k + 1..];
    }
  }

  /** `_iter_bound_jsonl_events`, up to decoding: for every way the host cuts the
      member into reads, exactly its lines come out, and the pass fails exactly
      when a line exceeds the cap or there is no line at all. */
  method IterateLines(file: Bytes, member: Located, cap: nat) returns (r: Option<seq<Bytes>>)
    requires member.offset + member.size <= |file|
    ensures var lines := Lines(SliceOf(file, member));
            r == if lines != [] && WithinCap(lines, cap) then Some(lines) else None
  {
    ghost var data := SliceOf(file, member);
    var lines: seq<Bytes>, pending: Bytes := [], [];
    var at: nat, remaining: nat := member.offset, member.size;
    ghost var end, rest := member.offset + member.size, data;
    assert pending + rest == data;
    while remaining != 0
      invariant at + remaining == end && rest == file[at..end] && Fed(data, lines, pending, rest, cap)
    {
      var block := Pread(file, if remaining < 1048576 then remaining else 1048576, at);
      ReadSplits(file, at, end, block);
      ghost var after := file[at + |block|..end];
      var ok, cut, left := CutLines(pending + block, cap, after);
      FeedBlock(data, lines, pending, block, after, cap);
      if !ok { return None; }
      FeedCut(data, lines, pending + block, cut, left, after, cap);
      lines := lines + cut;
      assert Fed(data, lines, left, after, cap);
      pending, rest, at, remaining := left, after, at + |block|, remaining - |block|;
    }
    FeedEnd(data, lines, pending, rest, cap);
    if pending != [] { lines := lines + [pending]; }
    return if lines == [] then None else Some(lines);
  }

  lemma {:induction false} ReadSplits(file: Bytes, at: nat, end: nat, block: Bytes)
    requires at < end <= |file| && block != [] && at + |block| <= end && block == file[at..at + |block|]
    ensures file[at..end] == block + file[at + |block|..end]
  {
  }

  lemma {:induction false} FeedEnd(data: Bytes, lines: seq<Bytes>, pending: Bytes, rest: Bytes, cap: nat)
    requires Fed(data, lines, pending, rest, cap) && rest == []
    ensures Lines(data) == (if pending == [] then lines else lines + [pending]) && WithinCap(Lines(data), cap)
  {
    assert pending + rest == pending && lines + [] == lines;
    CapAppend(lines, Lines(pending), cap);
  }

  /** The lines cut so far and the unfinished text account for the whole member. */
  ghost predicate Fed(data: Bytes, lines: seq<Bytes>, pending: Bytes, rest: Bytes, cap: nat) {
    && Lines(data) == lines + Lines(pending + rest) && WithinCap(lines, cap)
    && FirstNewline(pending) == |pending| <= cap
  }

  lemma {:induction false} FeedBlock(
      data: Bytes, lines: seq<Bytes>, pending: Bytes, block: Bytes, after: Bytes, cap: nat)
    requires Fed(data, lines, pending, block + after, cap)
    ensures Lines(data) == lines + Lines(pending + block + after)
    ensures !WithinCap(Lines(pending + block + after), cap) ==> !WithinCap(Lines(data), cap) && Lines(data) != []
  {
    assert pending + (block + after) == pending + block + after;
    CapAppend(lines, Lines(pending + block + after), cap);
  }

  lemma {:induction false} FeedCut(
    data: Bytes, lines: seq<Bytes>, text: Bytes, cut: seq<Bytes>, left: Bytes, after: Bytes, cap: nat)
    requires Lines(data) == lines + Lines(text + after) && WithinCap(lines, cap)
    requires Lines(text + after) == cut + Lines(left + after) && WithinCap(cut, cap)
    requires FirstNewline(left) == |left| <= cap
    ensures Fed(data, lines + cut, left, after, cap)
  {
    assert lines + (cut + Lines(left + after)) == (lines + cut) + Lines(left + after);
    CapAppend(lines, cut, cap);
  }
}
