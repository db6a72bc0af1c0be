/** The comments and literals of Rust source, stated by their characters, and the
    cleaned text as a cutting of the source into them. */
module RustTokens {
  import opened Sequences
  import opened RustLexer

  /** `//` up to the next newline or the end of the text. */
  predicate LineComment(s: string, i: nat, end: nat) {
    && i + 2 <= end <= |s| && s[i] == '/' && s[i + 1] == '/'
    && (forall k :: i + 2 <= k < end ==> s[k] != '\n')
    && (end == |s| || s[end] == '\n')
  }

  predicate BlockOpens(s: string, i: nat) {
    i + 2 <= |s| && s[i] == '/' && s[i + 1] == '*'
  }

  /** A block opener up to the close that matches it. */
  predicate BlockComment(s: string, i: nat, end: nat) {
    BlockOpens(s, i) && MatchingClose(s, i + 2) == Some(end)
  }

  /** `r`, `br` or `cr`, then `hashes` number signs, then a quote. */
  predicate RawOpens(s: string, i: nat, quote: nat, hashes: nat) {
    && i < quote < |s| && s[quote] == '"'
    && ((quote == i + 1 + hashes && s[i] == 'r')
        || (quote == i + 2 + hashes && (s[i] == 'b' || s[i] == 'c') && s[i + 1] == 'r'))
    && forall k :: quote - hashes <= k < quote ==> s[k] == '#'
  }

  /** A quote with `hashes` number signs after it. */
  predicate RawCloses(s: string, hashes: nat, at: nat) {
    at + hashes < |s| && s[at] == '"' && forall k :: at < k <= at + hashes ==> s[k] == '#'
  }

  /** The end is just past the first close behind the opening quote. */
  predicate RawEnds(s: string, quote: nat, hashes: nat, end: nat) {
    && quote + 1 + hashes < end && RawCloses(s, hashes, end - 1 - hashes)
    && forall k :: quote < k < end - 1 - hashes ==> !RawCloses(s, hashes, k)
  }

  ghost predicate OpensRaw(s: string, i: nat) {
    exists quote: nat, hashes: nat :: RawOpens(s, i, quote, hashes)
  }

  ghost predicate RawString(s: string, i: nat, end: nat) {
    exists quote: nat, hashes: nat :: RawOpens(s, i, quote, hashes) && RawEnds(s, quote, hashes, end)
  }

  /** A quote, plain or after `b` or `c`. */
  predicate StringOpens(s: string, i: nat, quote: nat) {
    && quote < |s| && s[quote] == '"'
    && (quote == i || (quote == i + 1 && (s[i] == 'b' || s[i] == 'c')))
  }

  ghost predicate OpensString(s: string, i: nat) {
    exists quote: nat :: StringOpens(s, i, quote)
  }

  /** The end is just past the first quote from `low` on with an even run of
      backslashes. */
  predicate StringEnds(s: string, low: nat, end: nat) {
    && low < end <= |s| && Closes(s, low, end - 1)
    && forall k: nat :: low <= k < end - 1 ==> !Closes(s, low, k)
  }

  ghost predicate QuotedString(s: string, i: nat, end: nat) {
    exists quote: nat :: StringOpens(s, i, quote) && StringEnds(s, quote + 1, end)
  }

  /** A character literal, plain or after `b`. */
  predicate CharLiteral(s: string, i: nat, end: nat) {
    || PlainLiteral(s, i, end) || EscapedLiteral(s, i, end)
    || (i < |s| && s[i] == 'b' && (PlainLiteral(s, i + 1, end) || EscapedLiteral(s, i + 1, end)))
  }

  ghost predicate IsToken(s: string, i: nat, end: nat) {
    || LineComment(s, i, end) || BlockComment(s, i, end) || RawString(s, i, end)
    || QuotedString(s, i, end) || CharLiteral(s, i, end)
  }

  /** No comment and no literal begins here. */
  ghost predicate IsCode(s: string, i: nat) {
    && !(i + 2 <= |s| && s[i] == '/' && s[i + 1] == '/') && !BlockOpens(s, i)
    && !OpensRaw(s, i) && !OpensString(s, i) && forall end :: !CharLiteral(s, i, end)
  }

  // ----- line comments -----------------------------------------------------------

  lemma {:induction false} NewlineOccurs(s: string, k: nat)
    ensures Occurs(s, "\n", k) <==> k < |s| && s[k] == '\n'
  {
    if k < |s| { assert s[k..k + 1] == [s[k]]; }
  }

  lemma {:induction false} LineEndIs(s: string, i: nat, end: nat)
    requires i + 2 <= |s| && s[i] == '/' && s[i + 1] == '/'
    ensures LineEnd(s, i + 2) == end <==> LineComment(s, i, end)
  {
    FindIsFirst(s, "\n", i + 2);
    forall k: nat ensures Occurs(s, "\n", k) <==> k < |s| && s[k] == '\n' { NewlineOccurs(s, k); }
  }

  // ----- raw strings ---------------------------------------------------------------

  lemma {:induction false} HashesSkipped(s: string, i: nat)
    requires i <= |s|
    ensures forall k :: i <= k < SkipHashes(s, i) ==> s[k] == '#'
    decreases |s| - i
  {
    if i < |s| && s[i] == '#' { HashesSkipped(s, i + 1); }
  }

  lemma {:induction false} SkipStopsAt(s: string, i: nat, to: nat)
    requires i <= to < |s| && s[to] != '#' && forall k :: i <= k < to ==> s[k] == '#'
    ensures SkipHashes(s, i) == to
    decreases |s| - i
  {
    if i < to { SkipStopsAt(s, i + 1, to); }
  }

  lemma {:induction false} RawQuoteOpens(s: string, i: nat)
    requires i < |s| && RawQuote(s, i).Some?
    ensures var q := RawQuote(s, i).value; RawOpens(s, i, q, q - i - RawPrefix(s, i))
  {
    HashesSkipped(s, i + RawPrefix(s, i));
  }

  lemma {:induction false} OpensAtRawQuote(s: string, i: nat, quote: nat, hashes: nat)
    requires i < |s| && RawOpens(s, i, quote, hashes)
    ensures RawQuote(s, i) == Some(quote) && hashes == quote - i - RawPrefix(s, i)
  {
    SkipStopsAt(s, quote - hashes, quote);
  }

  lemma {:induction false} CloseOccurs(s: string, hashes: nat, at: nat)
    ensures Occurs(s, ['"'] + Hashes(hashes), at) <==> RawCloses(s, hashes, at)
  {
    var close := ['"'] + Hashes(hashes);
    if at + hashes < |s| {
      var text := s[at..at + |close|];
      assert text[0] == s[at];
      assert forall k :: at < k <= at + hashes ==> s[k] == text[k - at];
      if RawCloses(s, hashes, at) {
        assert forall k :: 0 < k <= hashes ==> text[k] == s[at + k];
        assert text == close;
      }
    }
  }

  lemma {:induction false} RawEndIs(s: string, quote: nat, hashes: nat, end: nat)
    requires quote < |s|
    ensures RawEnd(s, quote, hashes) == Some(end) <==> RawEnds(s, quote, hashes, end)
  {
    var close := ['"'] + Hashes(hashes);
    FindIsFirst(s, close, quote + 1);
    forall k: nat ensures Occurs(s, close, k) <==> RawCloses(s, hashes, k) { CloseOccurs(s, hashes, k); }
    var found := Find(s, close, quote + 1);
    if RawEnds(s, quote, hashes, end) {
      assert Occurs(s, close, end - 1 - hashes);
    }
  }

  lemma {:induction false} RawToken(s: string, i: nat, end: nat)
    requires i < |s|
    ensures OpensRaw(s, i) <==> RawQuote(s, i).Some?
    ensures RawString(s, i, end) <==>
            RawQuote(s, i).Some? && var q := RawQuote(s, i).value; RawEnd(s, q, q - i - RawPrefix(s, i)) == Some(end)
  {
    if RawQuote(s, i).Some? {
      var q := RawQuote(s, i).value;
      RawQuoteOpens(s, i);
      RawEndIs(s, q, q - i - RawPrefix(s, i), end);
    }
    if quote, hashes :| RawOpens(s, i, quote, hashes) {
      OpensAtRawQuote(s, i, quote, hashes);
    }
    if RawString(s, i, end) {
      var quote, hashes :| RawOpens(s, i, quote, hashes) && RawEnds(s, quote, hashes, end);
      OpensAtRawQuote(s, i, quote, hashes);
      RawEndIs(s, quote, hashes, end);
    }
  }

  // ----- strings and characters ----------------------------------------------------

  lemma {:induction false} StringEndIs(s: string, low: nat, end: nat)
    requires low <= |s|
    ensures StringEnd(s, low, false) == Some(end) <==> StringEnds(s, low, end)
  {
    StringEndsAtFirstClose(s, low, low);
    var r := StringEnd(s, low, false);
    if r.Some? && StringEnds(s, low, end) {
      assert Closes(s, low, end - 1) && Closes(s, low, r.value - 1);
    }
  }

  lemma {:induction false} OneStringQuote(s: string, i: nat, quote: nat)
    requires i < |s|
    ensures StringOpens(s, i, quote) <==>
            || (s[i] == '"' && quote == i)
            || ((Pair(s, i, 'b', '"') || Pair(s, i, 'c', '"')) && quote == i + 1)
  {
  }

  lemma {:induction false} QuotedToken(s: string, i: nat, end: nat)
    requires i < |s|
    ensures OpensString(s, i) <==> s[i] == '"' || Pair(s, i, 'b', '"') || Pair(s, i, 'c', '"')
    ensures s[i] == '"' ==> (QuotedString(s, i, end) <==> StringEnd(s, i + 1, false) == Some(end))
    ensures Pair(s, i, 'b', '"') || Pair(s, i, 'c', '"') ==>
              (QuotedString(s, i, end) <==> StringEnd(s, i + 2, false) == Some(end))
  {
    forall quote: nat
      ensures StringOpens(s, i, quote) <==>
              || (s[i] == '"' && quote == i)
              || ((Pair(s, i, 'b', '"') || Pair(s, i, 'c', '"')) && quote == i + 1)
    {
      OneStringQuote(s, i, quote);
    }
    if s[i] == '"' {
      assert StringOpens(s, i, i);
      StringEndIs(s, i + 1, end);
    }
    if Pair(s, i, 'b', '"') || Pair(s, i, 'c', '"') {
      assert StringOpens(s, i, i + 1);
      StringEndIs(s, i + 2, end);
    }
  }

  lemma {:induction false} CharToken(s: string, i: nat, end: nat)
    requires i < |s|
    ensures CharLiteral(s, i, end) <==> CharEnd(s, if Pair(s, i, 'b', '\'') then i + 1 else i) == Some(end)
  {
    CharLiteralsEndAtFirstClose(s, i, end);
    CharLiteralsEndAtFirstClose(s, i + 1, end);
  }

  lemma {:induction false} NoCharLiteral(s: string, i: nat)
    requires i < |s|
    ensures (forall end :: !CharLiteral(s, i, end)) <==> CharEnd(s, if Pair(s, i, 'b', '\'') then i + 1 else i).None?
  {
    var found := CharEnd(s, if Pair(s, i, 'b', '\'') then i + 1 else i);
    if found.Some? {
      CharToken(s, i, found.value);
    } else {
      forall end: nat ensures !CharLiteral(s, i, end) { CharToken(s, i, end); }
    }
  }

  // ----- all tokens ------------------------------------------------------------------

  /** What is blanked from a position, to the character, and what is left as code. */
  lemma {:induction false} TokensAre(s: string, i: nat, end: nat)
    requires i < |s|
    ensures TokenAt(s, i) == Blank(end) <==> IsToken(s, i, end)
    ensures TokenAt(s, i) == Keep <==> IsCode(s, i)
  {
    if Pair(s, i, '/', '/') { LineEndIs(s, i, end); }
    if Pair(s, i, '/', '*') { BlockCommentsNest(s, i); }
    RawToken(s, i, end);
    QuotedToken(s, i, end);
    CharToken(s, i, end);
    NoCharLiteral(s, i);
  }

  // ----- the cleaned text ----------------------------------------------------------

  /** Line breaks stay and everything else becomes a space. */
  predicate BlankedRange(s: string, o: string, from: nat, to: nat)
    requires to <= |s| == |o|
  {
    forall k :: from <= k < to ==> o[k] == if s[k] == '\n' || s[k] == '\r' then s[k] else ' '
  }

  /** One piece of the source: a token that is blanked, or one character of code. */
  ghost predicate Piece(s: string, o: string, from: nat, to: nat)
    requires |o| == |s|
  {
    && from < to <= |s|
    && ((IsToken(s, from, to) && BlankedRange(s, o, from, to))
        || (IsCode(s, from) && to == from + 1 && o[from] == s[from]))
  }

  /** `cuts` divides the source from `i` on into such pieces. */
  ghost predicate Pieces(s: string, o: string, i: nat, cuts: seq<nat>)
    requires |o| == |s|
    decreases |cuts|
  {
    if cuts == [] then i == |s| else Piece(s, o, i, cuts[0]) && Pieces(s, o, cuts[0], cuts[1..])
  }

  ghost predicate Divided(s: string, o: string) {
    |o| == |s| && exists cuts :: Pieces(s, o, 0, cuts)
  }

  lemma {:induction false} CleanedHasPieces(s: string, o: string, i: nat) returns (cuts: seq<nat>)
    requires i <= |s| == |o| && CleanFrom(s, i) == Some(o[i..])
    ensures Pieces(s, o, i, cuts)
    decreases |s| - i
  {
    cuts := [];
    if i < |s| {
      var to := match TokenAt(s, i) case Blank(end) => end case _ => i + 1;
      TokensAre(s, i, to);
      var front := match TokenAt(s, i) case Blank(end) => BlankedText(s[i..end]) case _ => [s[i]];
      RestOf(o, i, to, front, CleanFrom(s, to).value);
      var rest := CleanedHasPieces(s, o, to);
      cuts := [to] + rest;
      forall k | i <= k < to ensures o[k] == front[k - i] { assert o[i..to][k - i] == o[k]; }
      assert Piece(s, o, i, to);
    }
  }

  lemma {:induction false} RestOf(o: string, i: nat, to: nat, front: string, rest: string)
    requires i <= to <= |o| && |front| == to - i && o[i..] == front + rest
    ensures o[i..to] == front && o[to..] == rest
  {
    assert o[i..to] == o[i..][..to - i] && o[to..] == o[i..][to - i..];
  }

  lemma {:induction false} PiecesAreCleaned(s: string, o: string, i: nat, cuts: seq<nat>)
    requires i <= |s| == |o| && Pieces(s, o, i, cuts)
    ensures CleanFrom(s, i) == Some(o[i..])
    decreases |cuts|
  {
    if cuts != [] {
      var to := cuts[0];
      PiecesAreCleaned(s, o, to, cuts[1..]);
      TokensAre(s, i, to);
      assert o[i..] == o[i..to] + o[to..];
      if TokenAt(s, i).Blank? {
        assert o[i..to] == BlankedText(s[i..to]);
      } else {
        assert o[i..to] == [s[i]];
      }
    } else {
      assert o[i..] == "";
    }
  }

  /** Cleaning succeeds with exactly the text in which each comment and literal of a
      left-to-right division is blanked, and fails when there is no division. */
  lemma {:induction false} CleanIffDivided(s: string, o: string)
    ensures Clean(s) == Some(o) <==> Divided(s, o)
  {
    if Clean(s) == Some(o) {
      assert o[0..] == o;
      var cuts := CleanedHasPieces(s, o, 0);
    }
    if Divided(s, o) {
      var cuts :| Pieces(s, o, 0, cuts);
      PiecesAreCleaned(s, o, 0, cuts);
      assert o[0..] == o;
    }
  }
}
