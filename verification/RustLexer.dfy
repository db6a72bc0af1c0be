/** The scanner that blanks comments and literals out of Rust source while every
    line and column keeps its place. */
module RustLexer {
  import opened Sequences

  /** What begins at a position: text to blank up to `end`, code, or a defect. */
  datatype Token = Blank(end: nat) | Keep | Raise

  predicate Pair(s: string, i: nat, a: char, b: char) {
    i + 1 < |s| && s[i] == a && s[i + 1] == b
  }

  predicate LineBreak(c: char) { c == '\n' || c == '\r' }

  function Blanked(c: char): char { if LineBreak(c) then c else ' ' }

  // ----- where a token ends -----------------------------------------------------

  /** First occurrence of `pattern` at or after `i`. */
  function Find(s: string, pattern: string, i: nat): (r: Option<nat>)
    ensures r.Some? ==> i <= r.value && r.value + |pattern| <= |s|
    decreases |s| - i
  {
    if i + |pattern| > |s| then None
    else if s[i..i + |pattern|] == pattern then Some(i)
    else Find(s, pattern, i + 1)
  }

  function LineEnd(s: string, i: nat): (r: nat)
    requires i <= |s|
    ensures i <= r <= |s|
  {
    var r := Find(s, "\n", i);
    if r.Some? then r.value else |s|
  }

  /** Past the close that brings the nesting depth to zero. */
  function CommentEnd(s: string, i: nat, depth: nat): (r: Option<nat>)
    requires i <= |s|
    ensures r.Some? ==> i <= r.value <= |s|
    decreases |s| - i
  {
    if depth == 0 then Some(i)
    else if i == |s| then None
    else if Pair(s, i, '/', '*') then CommentEnd(s, i + 2, depth + 1)
    else if Pair(s, i, '*', '/') then CommentEnd(s, i + 2, depth - 1)
    else CommentEnd(s, i + 1, depth)
  }

  function SkipHashes(s: string, i: nat): (r: nat)
    requires i <= |s|
    ensures i <= r <= |s| && (r < |s| ==> s[r] != '#')
    decreases |s| - i
  {
    if i < |s| && s[i] == '#' then SkipHashes(s, i + 1) else i
  }

  /** Length of the raw-string prefix that begins at `i`, or zero. */
  function RawPrefix(s: string, i: nat): nat
    requires i < |s|
  {
    if Pair(s, i, 'b', 'r') || Pair(s, i, 'c', 'r') then 2 else if s[i] == 'r' then 1 else 0
  }

  /** The opening quote of a raw string that begins at `i`. */
  function RawQuote(s: string, i: nat): (r: Option<nat>)
    requires i < |s|
    ensures r.Some? ==> i < r.value < |s| && s[r.value] == '"' && RawPrefix(s, i) > 0 && i + RawPrefix(s, i) <= r.value
  {
    var p := RawPrefix(s, i);
    if p == 0 then None
    else
      var quote := SkipHashes(s, i + p);
      if quote < |s| && s[quote] == '"' then Some(quote) else None
  }

  function Hashes(n: nat): (r: string)
    ensures |r| == n
  {
    seq(n, i => '#')
  }

  function RawEnd(s: string, quote: nat, hashes: nat): (r: Option<nat>)
    requires quote < |s|
    ensures r.Some? ==> quote < r.value <= |s|
  {
    var at := Find(s, ['"'] + Hashes(hashes), quote + 1);
    if at.Some? then Some(at.value + 1 + hashes) else None
  }

  /** Past the first quote that no backslash escapes. */
  function StringEnd(s: string, i: nat, escaped: bool): (r: Option<nat>)
    requires i <= |s|
    ensures r.Some? ==> i < r.value <= |s|
    decreases |s| - i
  {
    if i == |s| then None
    else if s[i] == '"' && !escaped then Some(i + 1)
    else StringEnd(s, i + 1, s[i] == '\\' && !escaped)
  }

  function CharStop(s: string, i: nat): (r: nat)
    ensures i <= r
    ensures r < |s| ==> s[r] == '\'' || LineBreak(s[r])
    decreases |s| - i
  {
    if i < |s| && s[i] != '\'' && !LineBreak(s[i]) then CharStop(s, i + 1) else i
  }

  /** Past a character literal whose opening quote is at `open`; a lifetime is none. */
  function CharEnd(s: string, open: nat): (r: Option<nat>)
    ensures r.Some? ==> open < r.value <= |s|
  {
    if open < |s| && s[open] == '\'' then
      var close := if open + 1 < |s| && s[open + 1] == '\\' then CharStop(s, open + 3) else open + 2;
      if close < |s| && s[close] == '\'' then Some(close + 1) else None
    else None
  }

  function Ending(end: Option<nat>): Token { if end.Some? then Blank(end.value) else Raise }

  function TokenAt(s: string, i: nat): (t: Token)
    requires i < |s|
    ensures t.Blank? ==> i < t.end <= |s|
  {
    if Pair(s, i, '/', '/') then Blank(LineEnd(s, i + 2))
    else if Pair(s, i, '/', '*') then Ending(CommentEnd(s, i + 2, 1))
    else
      var quote := RawQuote(s, i);
      if quote.Some? then Ending(RawEnd(s, quote.value, quote.value - i - RawPrefix(s, i)))
      else if s[i] == '"' then Ending(StringEnd(s, i + 1, false))
      else if Pair(s, i, 'b', '"') || Pair(s, i, 'c', '"') then Ending(StringEnd(s, i + 2, false))
      else
        var end := CharEnd(s, if Pair(s, i, 'b', '\'') then i + 1 else i);
        if end.Some? then Blank(end.value) else Keep
  }

  // ----- the whole text -----------------------------------------------------------

  function BlankedText(s: string): (r: string)
    ensures |r| == |s| && forall i :: 0 <= i < |s| ==> r[i] == Blanked(s[i])
  {
    seq(|s|, i requires 0 <= i < |s| => Blanked(s[i]))
  }

  function Prepend(front: string, rest: Option<string>): Option<string> {
    if rest.Some? then Some(front + rest.value) else None
  }

  /** The cleaned text from `i` on, or nothing when a token there has no end. */
  function CleanFrom(s: string, i: nat): (r: Option<string>)
    requires i <= |s|
    ensures r.Some? ==> |r.value| == |s| - i
    decreases |s| - i
  {
    if i == |s| then Some("")
    else match TokenAt(s, i)
      case Raise => None
      case Keep => Prepend([s[i]], CleanFrom(s, i + 1))
      case Blank(end) => Prepend(BlankedText(s[i..end]), CleanFrom(s, end))
  }

  function Clean(s: string): Option<string> { CleanFrom(s, 0) }

  // ----- what cleaning keeps --------------------------------------------------------

  /** Position `k` of the text cleaned from `i`. */
  predicate Explained(s: string, i: nat, o: string, k: nat)
    requires i <= k < |s| && |o| == |s| - i
  {
    || o[k - i] == Blanked(s[k])
    || (&& o[k - i] == s[k] && TokenAt(s, k) == Keep
        && (k + 1 < |s| && TokenAt(s, k + 1) == Keep ==> o[k + 1 - i] == s[k + 1]))
  }

  lemma {:induction false} ExplainedLater(s: string, i: nat, j: nat, front: string, rest: string, k: nat)
    requires i <= j <= k < |s| && |front| == j - i && |rest| == |s| - j && Explained(s, j, rest, k)
    ensures Explained(s, i, front + rest, k)
  {
  }

  lemma {:induction false} ExplainedHere(s: string, k: nat)
    requires k < |s| && CleanFrom(s, k).Some? && TokenAt(s, k) == Keep
    ensures Explained(s, k, CleanFrom(s, k).value, k)
  {
  }

  lemma {:induction false} ExplainedInside(s: string, i: nat, end: nat, rest: string, k: nat)
    requires i <= k < end <= |s| && |rest| == |s| - end
    ensures Explained(s, i, BlankedText(s[i..end]) + rest, k)
  {
  }

  /** Every output character is a blanked one, or code the scanner visited. */
  lemma {:induction false} EveryPositionExplained(s: string, i: nat, k: nat)
    requires i <= k < |s| && CleanFrom(s, i).Some?
    ensures Explained(s, i, CleanFrom(s, i).value, k)
    decreases |s| - i
  {
    match TokenAt(s, i)
    case Keep =>
      if k == i {
        ExplainedHere(s, k);
      } else {
        EveryPositionExplained(s, i + 1, k);
        ExplainedLater(s, i, i + 1, [s[i]], CleanFrom(s, i + 1).value, k);
      }
    case Blank(end) =>
      var rest := CleanFrom(s, end).value;
      if k < end {
        ExplainedInside(s, i, end, rest, k);
      } else {
        EveryPositionExplained(s, end, k);
        ExplainedLater(s, i, end, BlankedText(s[i..end]), rest, k);
      }
  }

  /** Length and line breaks stay, and a character changes only into a space. */
  lemma {:induction false} CleaningOnlyBlanks(s: string)
    requires Clean(s).Some?
    ensures |Clean(s).value| == |s|
    ensures forall k :: 0 <= k < |s| ==> Clean(s).value[k] == s[k] || Clean(s).value[k] == ' '
    ensures forall k :: 0 <= k < |s| && LineBreak(s[k]) ==> Clean(s).value[k] == s[k]
    ensures forall k :: 0 <= k < |s| && LineBreak(Clean(s).value[k]) ==> Clean(s).value[k] == s[k]
  {
    var o := Clean(s).value;
    forall k | 0 <= k < |s|
      ensures o[k] == s[k] || o[k] == ' '
      ensures LineBreak(s[k]) || LineBreak(o[k]) ==> o[k] == s[k]
    {
      EveryPositionExplained(s, 0, k);
    }
  }

  // ----- cleaning again finds nothing -------------------------------------------------

  /** A visible character of the output is visited code with the same text. */
  predicate Visible(c: char) { c != ' ' && !LineBreak(c) }

  lemma {:induction false} VisibleIsKept(s: string, o: string, k: nat)
    requires Clean(s) == Some(o) && k < |s| && Visible(o[k])
    ensures o[k] == s[k] && TokenAt(s, k) == Keep
    ensures k + 1 < |s| && TokenAt(s, k + 1) == Keep ==> o[k + 1] == s[k + 1]
  {
    EveryPositionExplained(s, 0, k);
  }

  lemma {:induction false} QuoteIsNotKept(s: string, k: nat)
    requires k < |s| && s[k] == '"'
    ensures TokenAt(s, k) != Keep
  {
  }

  lemma {:induction false} BackslashIsKept(s: string, k: nat)
    requires k < |s| && s[k] == '\\'
    ensures TokenAt(s, k) == Keep
  {
  }

  /** No double quote and no comment opener survives. */
  lemma {:induction false} NoOpenersSurvive(s: string, o: string, k: nat)
    requires Clean(s) == Some(o) && k < |o|
    ensures o[k] != '"' && !Pair(o, k, '/', '/') && !Pair(o, k, '/', '*')
  {
    if o[k] == '"' {
      VisibleIsKept(s, o, k);
      QuoteIsNotKept(s, k);
    } else if Pair(o, k, '/', '/') || Pair(o, k, '/', '*') {
      VisibleIsKept(s, o, k);
      VisibleIsKept(s, o, k + 1);
    }
  }

  /** Both scans of an escaped character literal stop together. */
  lemma {:induction false} StopsTogether(s: string, o: string, i: nat)
    requires Clean(s) == Some(o)
    ensures CharStop(o, i) < |o| && o[CharStop(o, i)] == '\'' ==>
              CharStop(s, i) < |s| && s[CharStop(s, i)] == '\''
    decreases |o| - i
  {
    CleaningOnlyBlanks(s);
    if i < |o| && s[i] != '\'' {
      if o[i] != '\'' && !LineBreak(o[i]) { StopsTogether(s, o, i + 1); }
    }
  }

  lemma {:induction false} NoCharLiteralSurvives(s: string, o: string, open: nat)
    requires Clean(s) == Some(o)
    ensures CharEnd(o, open).None?
  {
    if open < |o| && o[open] == '\'' {
      VisibleIsKept(s, o, open);
      assert CharEnd(s, open).None?;
      if open + 1 < |o| && s[open + 1] == '\\' {
        BackslashIsKept(s, open + 1);
        StopsTogether(s, o, open + 3);
      } else if open + 1 < |o| && o[open + 1] == '\\' {
        VisibleIsKept(s, o, open + 1);
      } else if open + 2 < |o| && o[open + 2] == '\'' {
        VisibleIsKept(s, o, open + 2);
      }
    }
  }

  lemma {:induction false} NothingLeft(s: string, o: string, k: nat)
    requires Clean(s) == Some(o) && k < |o|
    ensures TokenAt(o, k) == Keep
  {
    NoOpenersSurvive(s, o, k);
    if k + 1 < |o| { NoOpenersSurvive(s, o, k + 1); }
    var quote := RawQuote(o, k);
    if quote.Some? { NoOpenersSurvive(s, o, quote.value); }
    NoCharLiteralSurvives(s, o, if Pair(o, k, 'b', '\'') then k + 1 else k);
  }

  lemma {:induction false} NothingToBlank(o: string, i: nat)
    requires i <= |o| && forall k :: 0 <= k < |o| ==> TokenAt(o, k) == Keep
    ensures CleanFrom(o, i) == Some(o[i..])
    decreases |o| - i
  {
    if i < |o| {
      NothingToBlank(o, i + 1);
      assert o[i..] == [o[i]] + o[i + 1..];
    }
  }

  /** Cleaning the cleaned text succeeds and changes nothing. */
  lemma {:induction false} CleaningIsIdempotent(s: string)
    requires Clean(s).Some?
    ensures Clean(Clean(s).value) == Clean(s)
  {
    var o := Clean(s).value;
    forall k | 0 <= k < |o| ensures TokenAt(o, k) == Keep { NothingLeft(s, o, k); }
    NothingToBlank(o, 0);
    assert o[0..] == o;
  }

  // ----- token ends against independent definitions ---------------------------------

  /** Recursive descent over nested comments: past the close that matches the
      opener just before `i`. */
  function MatchingClose(s: string, i: nat): (r: Option<nat>)
    requires i <= |s|
    ensures r.Some? ==> i < r.value <= |s|
    decreases |s| - i
  {
    if i == |s| then None
    else if Pair(s, i, '*', '/') then Some(i + 2)
    else if Pair(s, i, '/', '*') then
      var inner := MatchingClose(s, i + 2);
      if inner.Some? then MatchingClose(s, inner.value) else None
    else MatchingClose(s, i + 1)
  }

  /** Counting depth closes one level exactly where recursive descent does. */
  lemma {:induction false} DepthCountsNesting(s: string, i: nat, depth: nat)
    requires i <= |s|
    ensures CommentEnd(s, i, depth + 1) ==
            match MatchingClose(s, i) case None => None case Some(k) => CommentEnd(s, k, depth)
    decreases |s| - i
  {
    if i == |s| {
    } else if Pair(s, i, '/', '*') {
      DepthCountsNesting(s, i + 2, depth + 1);
      var inner := MatchingClose(s, i + 2);
      if inner.Some? { DepthCountsNesting(s, inner.value, depth); }
    } else if !Pair(s, i, '*', '/') {
      DepthCountsNesting(s, i + 1, depth);
    }
  }

  /** A block comment is blanked to its matching close, or has none. */
  lemma {:induction false} BlockCommentsNest(s: string, i: nat)
    requires Pair(s, i, '/', '*')
    ensures TokenAt(s, i) == Ending(MatchingClose(s, i + 2))
  {
    DepthCountsNesting(s, i + 2, 0);
  }

  /** How many backslashes stand directly before `k`, back to `low`. */
  function Backslashes(s: string, low: nat, k: nat): nat
    requires low <= k <= |s|
  {
    if low < k && s[k - 1] == '\\' then 1 + Backslashes(s, low, k - 1) else 0
  }

  predicate Closes(s: string, low: nat, k: nat)
    requires low <= k < |s|
  {
    s[k] == '"' && Backslashes(s, low, k) % 2 == 0
  }

  /** A string ends at its first quote after an even number of backslashes. */
  lemma {:induction false} StringEndsAtFirstClose(s: string, low: nat, i: nat)
    requires low <= i <= |s|
    ensures match StringEnd(s, i, Backslashes(s, low, i) % 2 == 1)
            case Some(e) => Closes(s, low, e - 1) && forall k :: i <= k < e - 1 ==> !Closes(s, low, k)
            case None => forall k :: i <= k < |s| ==> !Closes(s, low, k)
    decreases |s| - i
  {
    if i < |s| && !Closes(s, low, i) { StringEndsAtFirstClose(s, low, i + 1); }
  }

  predicate Occurs(s: string, pattern: string, k: nat) {
    k + |pattern| <= |s| && s[k..k + |pattern|] == pattern
  }

  lemma {:induction false} FindIsFirst(s: string, pattern: string, i: nat)
    ensures match Find(s, pattern, i)
            case Some(at) => i <= at && Occurs(s, pattern, at) && forall k :: i <= k < at ==> !Occurs(s, pattern, k)
            case None => forall k :: i <= k <= |s| ==> !Occurs(s, pattern, k)
    decreases |s| - i
  {
    if i + |pattern| <= |s| && !Occurs(s, pattern, i) { FindIsFirst(s, pattern, i + 1); }
  }

  /** No quote and no line break from `from` up to `to`. */
  predicate Uninterrupted(s: string, from: nat, to: nat)
    requires to <= |s|
  {
    forall k :: from <= k < to ==> s[k] != '\'' && !LineBreak(s[k])
  }

  lemma {:induction false} StopIsFirst(s: string, i: nat)
    ensures var r := CharStop(s, i); Uninterrupted(s, i, if r <= |s| then r else |s|)
    decreases |s| - i
  {
    if i < |s| && s[i] != '\'' && !LineBreak(s[i]) { StopIsFirst(s, i + 1); }
  }

  /** A quote opens a literal of one plain character. */
  predicate PlainLiteral(s: string, open: nat, end: nat) {
    && end == open + 3 <= |s| && s[open] == '\'' && s[open + 1] != '\\' && s[open + 2] == '\''
  }

  /** A quote opens an escape: the character after the backslash never closes it, and
      it ends at the first quote after that, on the same line. */
  predicate EscapedLiteral(s: string, open: nat, end: nat) {
    && open + 4 <= end <= |s| && s[open] == '\'' && s[open + 1] == '\\' && s[end - 1] == '\''
    && Uninterrupted(s, open + 3, end - 1)
  }

  /** Exactly these quotes open a character literal, with exactly these ends; any
      other quote is a lifetime and stays. */
  lemma {:induction false} CharLiteralsEndAtFirstClose(s: string, open: nat, end: nat)
    ensures CharEnd(s, open) == Some(end) <==> PlainLiteral(s, open, end) || EscapedLiteral(s, open, end)
  {
    StopIsFirst(s, open + 3);
    if EscapedLiteral(s, open, end) { StopReaches(s, open + 3, end - 1); }
  }

  lemma {:induction false} StopReaches(s: string, i: nat, to: nat)
    requires i <= to < |s| && Uninterrupted(s, i, to) && s[to] == '\''
    ensures CharStop(s, i) == to
    decreases |s| - i
  {
    if i < to { StopReaches(s, i + 1, to); }
  }

  // ----- the scanner, in place ----------------------------------------------------------

  function BlankedBetween(t: string, start: nat, end: nat): string
    requires start <= end <= |t|
  {
    t[..start] + BlankedText(t[start..end]) + t[end..]
  }

  /** Blanks one range of the cleaned text. */
  method BlankRange(cleaned: array<char>, start: nat, end: nat)
    requires start <= end <= cleaned.Length
    modifies cleaned
    ensures cleaned[..] == BlankedBetween(old(cleaned[..]), start, end)
  {
    for position := start to end
      invariant forall k :: start <= k < position ==> cleaned[k] == Blanked(old(cleaned[k]))
      invariant forall k :: 0 <= k < start || position <= k < cleaned.Length ==> cleaned[k] == old(cleaned[k])
    {
      if !LineBreak(cleaned[position]) { cleaned[position] := ' '; }
    }
  }

  method SkipBlockComment(s: string, start: nat) returns (r: Option<nat>)
    requires start <= |s|
    ensures r == CommentEnd(s, start, 1)
  {
    var depth: nat, end := 1, start;
    while end < |s| && depth != 0
      invariant end <= |s| && CommentEnd(s, end, depth) == CommentEnd(s, start, 1)
      decreases |s| - end
    {
      if Pair(s, end, '/', '*') {
        depth, end := depth + 1, end + 2;
      } else if Pair(s, end, '*', '/') {
        depth, end := depth - 1, end + 2;
      } else {
        end := end + 1;
      }
    }
    return if depth != 0 then None else Some(end);
  }

  method FindRawQuote(s: string, index: nat) returns (r: Option<nat>)
    requires index < |s|
    ensures r == RawQuote(s, index)
  {
    var p := RawPrefix(s, index);
    if p == 0 { return None; }
    var cursor := index + p;
    while cursor < |s| && s[cursor] == '#'
      invariant cursor <= |s| && SkipHashes(s, cursor) == SkipHashes(s, index + p)
    {
      cursor := cursor + 1;
    }
    return if cursor < |s| && s[cursor] == '"' then Some(cursor) else None;
  }

  method SkipString(s: string, start: nat) returns (r: Option<nat>)
    requires start <= |s|
    ensures r == StringEnd(s, start, false)
  {
    var end, escaped := start, false;
    while end < |s|
      invariant end <= |s| && StringEnd(s, end, escaped) == StringEnd(s, start, false)
    {
      if s[end] == '"' && !escaped { return Some(end + 1); }
      escaped := s[end] == '\\' && !escaped;
      end := end + 1;
    }
    return None;
  }

  method SkipChar(s: string, open: nat) returns (r: Option<nat>)
    ensures r == CharEnd(s, open)
  {
    if open >= |s| || s[open] != '\'' { return None; }
    var cursor := open + 1;
    if cursor < |s| && s[cursor] == '\\' {
      cursor := cursor + 2;
      while cursor < |s| && s[cursor] != '\'' && !LineBreak(s[cursor])
        invariant CharStop(s, cursor) == CharStop(s, open + 3)
      {
        cursor := cursor + 1;
      }
    } else {
      cursor := cursor + 1;
    }
    return if cursor < |s| && s[cursor] == '\'' then Some(cursor + 1) else None;
  }

  /** The token at one position, found by the scanning loops. */
  method ScanToken(s: string, index: nat) returns (t: Token)
    requires index < |s|
    ensures t == TokenAt(s, index)
  {
    if Pair(s, index, '/', '/') { return Blank(LineEnd(s, index + 2)); }
    if Pair(s, index, '/', '*') {
      var end := SkipBlockComment(s, index + 2);
      return Ending(end);
    }
    var quote := FindRawQuote(s, index);
    if quote.Some? {
      return Ending(RawEnd(s, quote.value, quote.value - index - RawPrefix(s, index)));
    }
    if s[index] == '"' || Pair(s, index, 'b', '"') || Pair(s, index, 'c', '"') {
      var end := SkipString(s, if s[index] == '"' then index + 1 else index + 2);
      return Ending(end);
    }
    var end := SkipChar(s, if Pair(s, index, 'b', '\'') then index + 1 else index);
    return if end.Some? then Blank(end.value) else Keep;
  }

  lemma {:induction false} Regroup(front: string, piece: string, rest: Option<string>)
    ensures Prepend(front, Prepend(piece, rest)) == Prepend(front + piece, rest)
  {
    if rest.Some? { assert front + (piece + rest.value) == front + piece + rest.value; }
  }

  /** `text` is cleaned up to `index` and still the source from there. */
  ghost predicate Cleaning(source: string, index: nat, text: string) {
    && index <= |source| == |text| && text[index..] == source[index..]
    && Clean(source) == Prepend(text[..index], CleanFrom(source, index))
  }

  lemma {:induction false} CleaningBegins(source: string)
    ensures Cleaning(source, 0, source)
  {
    if Clean(source).Some? { assert source[..0] + Clean(source).value == Clean(source).value; }
  }

  lemma {:induction false} CleaningBlanks(source: string, index: nat, text: string, end: nat)
    requires Cleaning(source, index, text) && index < |source| && TokenAt(source, index) == Blank(end)
    ensures Cleaning(source, end, BlankedBetween(text, index, end))
  {
    var piece := BlankedText(source[index..end]);
    var next := BlankedBetween(text, index, end);
    assert text[index..end] == text[index..][..end - index] == source[index..end];
    assert text[end..] == text[index..][end - index..] == source[end..];
    assert next[..end] == text[..index] + piece && next[end..] == text[end..];
    Regroup(text[..index], piece, CleanFrom(source, end));
  }

  lemma {:induction false} CleaningKeeps(source: string, index: nat, text: string)
    requires Cleaning(source, index, text) && index < |source| && TokenAt(source, index) == Keep
    ensures Cleaning(source, index + 1, text)
  {
    assert text[index] == text[index..][0] == source[index];
    assert text[..index + 1] == text[..index] + [source[index]];
    assert text[index + 1..] == text[index..][1..] == source[index + 1..];
    Regroup(text[..index], [source[index]], CleanFrom(source, index + 1));
  }

  lemma {:induction false} CleaningEnds(source: string, text: string)
    requires Cleaning(source, |source|, text)
    ensures Clean(source) == Some(text)
  {
    assert text[..|source|] + "" == text;
  }

  method Characters(source: string) returns (a: array<char>)
    ensures fresh(a) && a[..] == source
  {
    a := new char[|source|](i requires 0 <= i < |source| => source[i]);
  }

  /** `_rust_code_without_comments_or_literals` on decoded text. */
  method CleanInPlace(source: string) returns (ok: bool, cleaned: array<char>)
    ensures fresh(cleaned)
    ensures ok == Clean(source).Some?
    ensures ok ==> cleaned[..] == Clean(source).value
  {
    cleaned := Characters(source);
    var index := 0;
    CleaningBegins(source);
    while index < |source|
      invariant Cleaning(source, index, cleaned[..])
    {
      var token := ScanToken(source, index);
      if token.Raise? { return false, cleaned; }
      if token.Keep? {
        CleaningKeeps(source, index, cleaned[..]);
        index := index + 1;
      } else {
        CleaningBlanks(source, index, cleaned[..], token.end);
        BlankRange(cleaned, index, token.end);
        index := token.end;
      }
    }
    CleaningEnds(source, cleaned[..]);
    return true, cleaned;
  }
}
