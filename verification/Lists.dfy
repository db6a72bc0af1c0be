/** Mapping and joining lists, and how both treat permutations. */
module Lists {

  function Mapped<T, U>(f: T -> U, s: seq<T>): (r: seq<U>)
    ensures |r| == |s| && forall i :: 0 <= i < |s| ==> r[i] == f(s[i])
  {
    seq(|s|, i requires 0 <= i < |s| => f(s[i]))
  }

  function Flatten<T>(parts: seq<seq<T>>): seq<T> {
    if parts == [] then [] else parts[0] + Flatten(parts[1..])
  }

  lemma {:induction false} MappedAppend<T, U>(f: T -> U, a: seq<T>, b: seq<T>)
    ensures Mapped(f, a + b) == Mapped(f, a) + Mapped(f, b)
  {
  }

  function Without<T>(s: seq<T>, j: nat): seq<T>
    requires j < |s|
  {
    s[..j] + s[j + 1..]
  }

  lemma {:induction false} WithoutCounts<T>(s: seq<T>, j: nat)
    requires j < |s|
    ensures multiset(s) == multiset(Without(s, j)) + multiset{s[j]}
  {
    assert s == s[..j] + [s[j]] + s[j + 1..];
  }

  lemma {:induction false} MappedWithout<T, U>(f: T -> U, s: seq<T>, j: nat)
    requires j < |s|
    ensures Mapped(f, Without(s, j)) == Without(Mapped(f, s), j)
  {
  }

  lemma {:induction false} OneLess<T>(a: seq<T>, i: nat, b: seq<T>, j: nat)
    requires i < |a| && j < |b| && a[i] == b[j]
    ensures multiset(a) == multiset(b) <==> multiset(Without(a, i)) == multiset(Without(b, j))
  {
    WithoutCounts(a, i);
    WithoutCounts(b, j);
    assert multiset(Without(a, i)) == multiset(a) - multiset{a[i]};
    assert multiset(Without(b, j)) == multiset(b) - multiset{b[j]};
  }

  /** Mapping keeps permutations. */
  lemma {:induction false} MappedCounts<T, U>(f: T -> U, a: seq<T>, b: seq<T>)
    requires multiset(a) == multiset(b)
    ensures multiset(Mapped(f, a)) == multiset(Mapped(f, b))
    decreases |a|
  {
    assert |a| == |multiset(a)| == |multiset(b)| == |b|;
    if a == [] {
      assert Mapped(f, a) == Mapped(f, b);
    } else {
      assert a[0] in multiset(b);
      var j :| 0 <= j < |b| && b[j] == a[0];
      OneLess(a, 0, b, j);
      MappedCounts(f, Without(a, 0), Without(b, j));
      MappedWithout(f, a, 0);
      MappedWithout(f, b, j);
      OneLess(Mapped(f, a), 0, Mapped(f, b), j);
    }
  }

  /** The numbers below `n` in order. */
  function Range(n: nat): (r: seq<int>)
    ensures |r| == n && forall i :: 0 <= i < n ==> r[i] == i
  {
    seq(n, i => i)
  }

  // ----- cutting at stops ------------------------------------------------------------

  /** Position of the first element that stops a piece, or the length. */
  function First<T>(stop: T -> bool, s: seq<T>): (k: nat)
    ensures k <= |s|
    ensures forall i :: 0 <= i < k ==> !stop(s[i])
    ensures k < |s| ==> stop(s[k])
  {
    FirstFrom(stop, s, 0)
  }

  function FirstFrom<T>(stop: T -> bool, s: seq<T>, from: nat): (k: nat)
    requires from <= |s|
    ensures from <= k <= |s|
    ensures forall i :: from <= i < k ==> !stop(s[i])
    ensures k < |s| ==> stop(s[k])
    decreases |s| - from
  {
    if from == |s| || stop(s[from]) then from else FirstFrom(stop, s, from + 1)
  }

  /** Pieces that end at stops; a non-empty rest is the last piece. */
  function Pieces<T>(stop: T -> bool, s: seq<T>): seq<seq<T>>
    decreases |s|
  {
    if s == [] then []
    else
      var k := First(stop, s);
      if k == |s| then [s] else [s[..k]] + Pieces(stop, s[k + 1..])
  }

  /** One piece cut off the front, when its stop is known. */
  lemma {:induction false} PieceCut<T>(stop: T -> bool, piece: seq<T>, end: T, rest: seq<T>)
    requires (forall x :: x in piece ==> !stop(x)) && stop(end)
    ensures Pieces(stop, piece + [end] + rest) == [piece] + Pieces(stop, rest)
  {
    var all := piece + [end] + rest;
    var k := First(stop, all);
    assert all[|piece|] == end;
    assert k == |piece|;
    assert all[..k] == piece && all[k + 1..] == rest;
  }

  lemma {:induction false} LastPiece<T>(stop: T -> bool, piece: seq<T>)
    requires piece != [] && forall x :: x in piece ==> !stop(x)
    ensures Pieces(stop, piece) == [piece]
  {
    assert First(stop, piece) == |piece|;
  }

  /** A stretch of `s` between two stops or ends. */
  predicate Between<T(==)>(stop: T -> bool, s: seq<T>, piece: seq<T>, from: nat) {
    && from + |piece| <= |s| && (forall j :: 0 <= j < |piece| ==> piece[j] == s[from + j])
    && (from == 0 || stop(s[from - 1]))
    && (from + |piece| == |s| || stop(s[from + |piece|]))
  }

  /** The pieces without stops that are not empty are the stretches between stops. */
  lemma {:induction false} PieceIff<T>(stop: T -> bool, s: seq<T>, piece: seq<T>)
    requires piece != [] && forall x :: x in piece ==> !stop(x)
    ensures piece in Pieces(stop, s) <==> exists from: nat :: Between(stop, s, piece, from)
  {
    if i :| 0 <= i < |Pieces(stop, s)| && Pieces(stop, s)[i] == piece { PieceAt(stop, s, Pieces(stop, s), i); }
    if from: nat :| Between(stop, s, piece, from) { BetweenIsPiece(stop, s, piece, from); }
  }

  lemma {:induction false} PiecesSplit<T>(stop: T -> bool, s: seq<T>, k: nat)
    requires k == First(stop, s) && k < |s|
    ensures Pieces(stop, s) == [s[..k]] + Pieces(stop, s[k + 1..])
  {
  }

  lemma {:induction false} FrontIsBetween<T>(stop: T -> bool, s: seq<T>, k: nat)
    requires k == First(stop, s)
    ensures Between(stop, s, s[..k], 0)
  {
  }

  lemma {:induction false} PieceAt<T>(stop: T -> bool, s: seq<T>, pieces: seq<seq<T>>, i: nat)
    requires i < |pieces| && pieces == Pieces(stop, s)
    ensures exists from: nat :: Between(stop, s, pieces[i], from)
    decreases |s|
  {
    var k := First(stop, s);
    FrontIsBetween(stop, s, k);
    if k == |s| {
      assert s[..k] == s && pieces == [s];
      assert Between(stop, s, pieces[i], 0);
    } else {
      PiecesSplit(stop, s, k);
      if i == 0 {
        assert Between(stop, s, pieces[i], 0);
      } else {
        PieceAt(stop, s[k + 1..], pieces[1..], i - 1);
        var from: nat :| Between(stop, s[k + 1..], pieces[i], from);
        BetweenLater(stop, s, pieces[i], k, from);
      }
    }
  }

  lemma {:induction false} BetweenIsPiece<T>(stop: T -> bool, s: seq<T>, piece: seq<T>, from: nat)
    requires Between(stop, s, piece, from) && piece != [] && forall x :: x in piece ==> !stop(x)
    ensures piece in Pieces(stop, s)
    decreases |s|
  {
    var k := First(stop, s);
    BetweenSplits(stop, s, piece, k, from);
    if k < |s| {
      PiecesSplit(stop, s, k);
      if piece != s[..k] { BetweenIsPiece(stop, s[k + 1..], piece, from - k - 1); }
    } else {
      assert s[..k] == s;
    }
  }

  lemma {:induction false} BetweenLater<T>(stop: T -> bool, s: seq<T>, piece: seq<T>, k: nat, from: nat)
    requires k < |s| && stop(s[k]) && Between(stop, s[k + 1..], piece, from)
    ensures Between(stop, s, piece, k + 1 + from)
  {
    var rest := s[k + 1..];
    assert forall j :: 0 <= j < |rest| ==> rest[j] == s[k + 1 + j];
  }

  lemma {:induction false} BetweenSplits<T>(stop: T -> bool, s: seq<T>, piece: seq<T>, k: nat, from: nat)
    requires k == First(stop, s) && Between(stop, s, piece, from)
    requires piece != [] && forall x :: x in piece ==> !stop(x)
    ensures piece == s[..k] || (k < from && k < |s| && Between(stop, s[k + 1..], piece, from - k - 1))
  {
    if from == 0 {
      forall i | 0 <= i < |piece| ensures !stop(s[i]) && s[i] == piece[i] {
        assert piece[i] == s[0 + i] && piece[i] in piece;
      }
      assert |piece| <= k;
    } else {
      assert k < from;
      var rest := s[k + 1..];
      assert forall j :: 0 <= j < |rest| ==> rest[j] == s[k + 1 + j];
    }
  }
}
