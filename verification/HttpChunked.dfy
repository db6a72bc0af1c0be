/** HTTP chunked transfer coding (section 7.1 of RFC 9112) without extensions and
    trailers, as the release end-to-end checker decodes it. */
module HttpChunked {
  import opened Sequences
  import opened Octets

  const Crlf: Bytes := [13, 10]

  // ----- sizes ---------------------------------------------------------------------

  function HexDigit(b: Byte): Option<nat> {
    if 48 <= b < 58 then Some(b - 48)
    else if 65 <= b < 71 then Some(b - 55)
    else if 97 <= b < 103 then Some(b - 87)
    else None
  }

  /** The sixteen digits, in either case. */
  lemma {:induction false} HexDigitIs(b: Byte, d: nat)
    ensures HexDigit(b) == Some(d) <==>
            d < 16 && (b == "0123456789abcdef"[d] as int || b == "0123456789ABCDEF"[d] as int)
  {
    if d < 16 { LetterAt(d); }
  }

  lemma {:induction false} LetterAt(d: nat)
    requires d < 16
    ensures "0123456789abcdef"[d] as int == if d < 10 then 48 + d else 87 + d
    ensures "0123456789ABCDEF"[d] as int == if d < 10 then 48 + d else 55 + d
  {
  }

  predicate AllHex(text: Bytes) {
    forall i :: 0 <= i < |text| ==> HexDigit(text[i]).Some?
  }

  function HexValue(text: Bytes): nat
    requires AllHex(text)
  {
    if text == [] then 0 else 16 * HexValue(DropLast(text)) + HexDigit(Last(text)).value
  }

  /** At least one hexadecimal digit, in either case, with any leading zeros. */
  function Size(text: Bytes): Option<nat> {
    if text != [] && AllHex(text) then Some(HexValue(text)) else None
  }

  function HexChar(d: nat): (b: Byte)
    requires d < 16
    ensures HexDigit(b) == Some(d)
  {
    if d < 10 then 48 + d else 87 + d
  }

  function HexText(n: nat): (text: Bytes)
    ensures text != [] && AllHex(text)
  {
    if n < 16 then [HexChar(n)] else HexText(n / 16) + [HexChar(n % 16)]
  }

  lemma {:induction false} HexSnoc(text: Bytes, d: nat)
    requires AllHex(text) && d < 16
    ensures AllHex(text + [HexChar(d)]) && HexValue(text + [HexChar(d)]) == 16 * HexValue(text) + d
  {
  }

  /** Every size has a spelling. */
  lemma {:induction false} HexRoundTrip(n: nat)
    ensures Size(HexText(n)) == Some(n)
  {
    if n < 16 {
      HexSnoc([], n);
      assert [] + [HexChar(n)] == HexText(n);
    } else {
      HexRoundTrip(n / 16);
      HexSnoc(HexText(n / 16), n % 16);
    }
  }

  // ----- the coding ----------------------------------------------------------------

  datatype Chunk = Chunk(size: Bytes, data: Bytes)

  predicate ChunkOk(c: Chunk) { c.data != [] && Size(c.size) == Some(|c.data|) }

  predicate ChunksOk(chunks: seq<Chunk>) {
    forall i :: 0 <= i < |chunks| ==> ChunkOk(chunks[i])
  }

  function Encode(chunks: seq<Chunk>, zero: Bytes): Bytes {
    if chunks == [] then zero + Crlf + Crlf
    else chunks[0].size + Crlf + (chunks[0].data + Crlf + Encode(chunks[1..], zero))
  }

  function Payload(chunks: seq<Chunk>): Bytes {
    if chunks == [] then [] else chunks[0].data + Payload(chunks[1..])
  }

  // ----- decoding ------------------------------------------------------------------

  function FirstCrlf(body: Bytes): (r: Option<nat>)
    ensures r.Some? ==> r.value + 2 <= |body| && body[r.value] == 13 && body[r.value + 1] == 10
  {
    if |body| < 2 then None
    else if body[0] == 13 && body[1] == 10 then Some(0)
    else
      var r := FirstCrlf(body[1..]);
      if r.Some? then Some(r.value + 1) else None
  }

  function Join(front: Bytes, rest: Option<Bytes>): Option<Bytes> {
    if rest.Some? then Some(front + rest.value) else None
  }

  /** What a body begins with: the terminal chunk and nothing more, or one chunk. */
  datatype Piece = Bad | Final | More(data: Bytes, rest: Bytes)

  /** What follows a size line for `n` bytes. */
  function AfterSize(rest: Bytes, n: nat): (p: Piece)
    ensures p.More? ==> |p.rest| < |rest|
  {
    if n == 0 then if rest == Crlf then Final else Bad
    else if n + 2 > |rest| || rest[n..n + 2] != Crlf then Bad
    else More(rest[..n], rest[n + 2..])
  }

  function Next(body: Bytes): (p: Piece)
    ensures p.More? ==> |p.rest| < |body|
  {
    var k := FirstCrlf(body);
    if k.None? then Bad
    else
      var n := Size(body[..k.value]);
      if n.None? then Bad else AfterSize(body[k.value + 2..], n.value)
  }

  function Decode(body: Bytes): Option<Bytes>
    decreases |body|
  {
    match Next(body)
    case Bad => None
    case Final => Some([])
    case More(data, rest) => Join(data, Decode(rest))
  }

  /** A size line is found whatever follows it. */
  lemma {:induction false} SizeLineFound(size: Bytes, rest: Bytes)
    requires AllHex(size)
    ensures FirstCrlf(size + Crlf + rest) == Some(|size|)
  {
    var body := size + Crlf + rest;
    if size != [] {
      assert HexDigit(size[0]).Some? && body[0] == size[0];
      SizeLineFound(size[1..], rest);
      assert body[1..] == size[1..] + Crlf + rest;
    }
  }

  lemma {:induction false} NextAfterLine(size: Bytes, rest: Bytes)
    requires Size(size).Some?
    ensures Next(size + Crlf + rest) == AfterSize(rest, Size(size).value)
  {
    SizeLineFound(size, rest);
    var body := size + Crlf + rest;
    assert body[..|size|] == size && body[|size| + 2..] == rest;
  }

  lemma {:induction false} AfterSizeIsChunk(data: Bytes, rest: Bytes)
    requires data != []
    ensures AfterSize(data + Crlf + rest, |data|) == More(data, rest)
  {
  }

  /** Every encoding decodes to its payload, however the sizes are spelled. */
  lemma {:induction false} EncodingDecodes(chunks: seq<Chunk>, zero: Bytes)
    requires ChunksOk(chunks) && Size(zero) == Some(0)
    ensures Decode(Encode(chunks, zero)) == Some(Payload(chunks))
  {
    if chunks == [] {
      NextAfterLine(zero, Crlf);
    } else {
      var c, rest := chunks[0], Encode(chunks[1..], zero);
      assert ChunkOk(c);
      EncodingDecodes(chunks[1..], zero);
      NextAfterLine(c.size, c.data + Crlf + rest);
      AfterSizeIsChunk(c.data, rest);
    }
  }

  lemma {:induction false} SplitSizeLine(body: Bytes, k: nat)
    requires FirstCrlf(body) == Some(k)
    ensures body == body[..k] + Crlf + body[k + 2..]
  {
  }

  lemma {:induction false} SplitChunk(rest: Bytes, n: nat)
    requires n + 2 <= |rest| && rest[n..n + 2] == Crlf
    ensures rest == rest[..n] + Crlf + rest[n + 2..]
  {
  }

  lemma {:induction false} ChunksCons(c: Chunk, chunks: seq<Chunk>, zero: Bytes)
    ensures var all := [c] + chunks;
            && Encode(all, zero) == c.size + Crlf + (c.data + Crlf + Encode(chunks, zero))
            && Payload(all) == c.data + Payload(chunks)
            && (ChunkOk(c) && ChunksOk(chunks) ==> ChunksOk(all))
  {
  }

  /** What one step takes off the front. */
  lemma {:induction false} NextTakes(body: Bytes) returns (size: Bytes)
    requires !Next(body).Bad?
    ensures Next(body).Final? ==> Size(size) == Some(0) && body == size + Crlf + Crlf
    ensures Next(body).More? ==>
              var c := Chunk(size, Next(body).data); ChunkOk(c) && body == c.size + Crlf + (c.data + Crlf + Next(body).rest)
  {
    var k := FirstCrlf(body).value;
    size := body[..k];
    SplitSizeLine(body, k);
    if Next(body).More? { SplitChunk(body[k + 2..], Size(size).value); }
  }

  /** Whatever decodes is an encoding of its result. */
  lemma {:induction false} DecodedIsEncoding(body: Bytes) returns (chunks: seq<Chunk>, zero: Bytes)
    requires Decode(body).Some?
    ensures ChunksOk(chunks) && Size(zero) == Some(0)
    ensures body == Encode(chunks, zero) && Decode(body) == Some(Payload(chunks))
    decreases |body|
  {
    var size := NextTakes(body);
    if Next(body).Final? { return [], size; }
    var more;
    more, zero := DecodedIsEncoding(Next(body).rest);
    var c := Chunk(size, Next(body).data);
    ChunksCons(c, more, zero);
    chunks := [c] + more;
  }

  /** The decoder accepts exactly the encodings, and returns their payload. */
  lemma {:induction false} DecodesIffEncoded(body: Bytes, data: Bytes)
    ensures Decode(body) == Some(data) <==>
            exists chunks, zero ::
              ChunksOk(chunks) && Size(zero) == Some(0) && body == Encode(chunks, zero) && data == Payload(chunks)
  {
    if Decode(body) == Some(data) {
      var chunks, zero := DecodedIsEncoding(body);
    }
    if chunks, zero :|
      ChunksOk(chunks) && Size(zero) == Some(0) && body == Encode(chunks, zero) && data == Payload(chunks)
    {
      EncodingDecodes(chunks, zero);
    }
  }

  // ----- the loop --------------------------------------------------------------------

  ghost predicate Decoding(body: Bytes, result: Bytes, rest: Bytes) {
    Decode(body) == Join(result, Decode(rest))
  }

  lemma {:induction false} DecodingBegins(body: Bytes)
    ensures Decoding(body, [], body)
  {
    if Decode(body).Some? { assert [] + Decode(body).value == Decode(body).value; }
  }

  lemma {:induction false} DecodingEnds(body: Bytes, result: Bytes, rest: Bytes)
    requires Decoding(body, result, rest)
    ensures Decode(rest).None? ==> Decode(body).None?
    ensures Decode(rest) == Some([]) ==> Decode(body) == Some(result)
  {
    assert result + [] == result;
  }

  lemma {:induction false} ChunkTaken(body: Bytes, result: Bytes, rest: Bytes, data: Bytes, next: Bytes)
    requires Decoding(body, result, rest) && Decode(rest) == Join(data, Decode(next))
    ensures Decoding(body, result + data, next)
  {
    var more := Decode(next);
    if more.Some? { assert result + (data + more.value) == result + data + more.value; }
  }

  /** The piece at a cursor, with the chunk as a slice of the body. */
  predicate PieceAt(body: Bytes, cursor: nat, start: nat, end: nat)
    requires cursor <= |body|
  {
    cursor < start < end && end + 2 <= |body| && Next(body[cursor..]) == More(body[start..end], body[end + 2..])
  }

  lemma {:induction false} SlicesOf(body: Bytes, cursor: nat, k: nat, n: nat)
    requires cursor + k + 2 + n + 2 <= |body|
    ensures var rest, start := body[cursor..][k + 2..], cursor + k + 2;
            && rest[..n] == body[start..start + n] && rest[n + 2..] == body[start + n + 2..]
            && rest[n..n + 2] == body[start + n..start + n + 2]
  {
  }

  /** One turn of the loop, up to extending the result. */
  method ReadPiece(body: Bytes, cursor: nat) returns (more: bool, ok: bool, start: nat, end: nat)
    requires cursor <= |body|
    ensures more ==> PieceAt(body, cursor, start, end)
    ensures !more ==> Next(body[cursor..]) == if ok then Final else Bad
  {
    start, end := 0, 0;
    var line := FirstCrlf(body[cursor..]);
    if line.None? { return false, false, 0, 0; }
    var text := body[cursor..cursor + line.value];
    assert body[cursor..][..line.value] == text;
    var size := Size(text);
    if size.None? { return false, false, 0, 0; }
    start := cursor + line.value + 2;
    assert body[cursor..][line.value + 2..] == body[start..];
    if size.value == 0 { return false, body[start..] == Crlf, 0, 0; }
    end := start + size.value;
    if end + 2 > |body| { return false, false, 0, 0; }
    SlicesOf(body, cursor, line.value, size.value);
    if body[end..end + 2] != Crlf { return false, false, 0, 0; }
    return true, true, start, end;
  }

  lemma {:induction false} LoopTurn(body: Bytes, result: Bytes, cursor: nat, start: nat, end: nat)
    requires cursor <= |body| && Decoding(body, result, body[cursor..]) && PieceAt(body, cursor, start, end)
    ensures Decoding(body, result + body[start..end], body[end + 2..])
  {
    ChunkTaken(body, result, body[cursor..], body[start..end], body[end + 2..]);
  }

  /** `_decode_chunked`: a cursor and a growing result. */
  method DecodeChunked(body: Bytes) returns (r: Option<Bytes>)
    ensures r == Decode(body)
  {
    var result: Bytes, cursor: nat := [], 0;
    ghost var rest := body;
    DecodingBegins(body);
    while true
      invariant cursor <= |body| && rest == body[cursor..] && Decoding(body, result, rest)
      decreases |body| - cursor
    {
      DecodingEnds(body, result, rest);
      var more, ok, start, end := ReadPiece(body, cursor);
      if !more { return if ok then Some(result) else None; }
      LoopTurn(body, result, cursor, start, end);
      rest := body[end + 2..];
      result, cursor := result + body[start..end], end + 2;
    }
  }
}
