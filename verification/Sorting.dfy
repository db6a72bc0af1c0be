/** Stable sorting by a comparison, as the checkers' `sorted` does it. */
module Sorting {
  import opened Lists

  /** Total and transitive; elements that compare equal may still differ. */
  ghost predicate Comparison<T(!new)>(le: (T, T) -> bool) {
    && (forall x, y :: le(x, y) || le(y, x))
    && (forall x, y, z :: le(x, y) && le(y, z) ==> le(x, z))
  }

  predicate Sorted<T>(le: (T, T) -> bool, s: seq<T>) {
    forall i, j :: 0 <= i < j < |s| ==> le(s[i], s[j])
  }

  function Insert<T>(le: (T, T) -> bool, x: T, s: seq<T>): (r: seq<T>)
    ensures |r| == |s| + 1
  {
    if s == [] || le(x, s[0]) then [x] + s else [s[0]] + Insert(le, x, s[1..])
  }

  function Sort<T>(le: (T, T) -> bool, s: seq<T>): (r: seq<T>)
    ensures |r| == |s|
  {
    if s == [] then [] else Insert(le, s[0], Sort(le, s[1..]))
  }

  lemma {:induction false} InsertAdds<T>(le: (T, T) -> bool, x: T, s: seq<T>)
    ensures multiset(Insert(le, x, s)) == multiset(s) + multiset{x}
  {
    if s != [] && !le(x, s[0]) {
      InsertAdds(le, x, s[1..]);
      assert s == [s[0]] + s[1..];
    }
  }

  lemma {:induction false} InsertSorts<T(!new)>(le: (T, T) -> bool, x: T, s: seq<T>)
    requires Comparison(le) && Sorted(le, s)
    ensures Sorted(le, Insert(le, x, s))
  {
    if s != [] && !le(x, s[0]) {
      var rest := Insert(le, x, s[1..]);
      InsertSorts(le, x, s[1..]);
      InsertAdds(le, x, s[1..]);
      forall i | 0 <= i < |rest| ensures le(s[0], rest[i]) {
        assert rest[i] in multiset(rest);
        assert rest[i] == x || rest[i] in s[1..];
      }
    }
  }

  lemma {:induction false} SortPermutes<T>(le: (T, T) -> bool, s: seq<T>)
    ensures multiset(Sort(le, s)) == multiset(s)
  {
    if s != [] {
      SortPermutes(le, s[1..]);
      InsertAdds(le, s[0], Sort(le, s[1..]));
      assert s == [s[0]] + s[1..];
    }
  }

  /** The result is sorted and has the same elements. */
  lemma {:induction false} SortSorts<T(!new)>(le: (T, T) -> bool, s: seq<T>)
    requires Comparison(le)
    ensures Sorted(le, Sort(le, s)) && multiset(Sort(le, s)) == multiset(s)
  {
    if s != [] {
      SortSorts(le, s[1..]);
      InsertSorts(le, s[0], Sort(le, s[1..]));
    }
    SortPermutes(le, s);
  }

  lemma {:induction false} SortHolds<T>(le: (T, T) -> bool, s: seq<T>, x: T)
    ensures x in Sort(le, s) <==> x in s
  {
    SortPermutes(le, s);
    assert x in Sort(le, s) <==> x in multiset(Sort(le, s));
  }

  lemma {:induction false} FirstIsLeast<T(!new)>(le: (T, T) -> bool, s: seq<T>, t: seq<T>)
    requires s != [] && t != [] && Sorted(le, s) && multiset(s) == multiset(t)
    ensures s[0] == t[0] || le(s[0], t[0])
  {
    assert t[0] in multiset(s);
    var i :| 0 <= i < |s| && s[i] == t[0];
  }

  lemma {:induction false} SameRest<T>(s: seq<T>, t: seq<T>)
    requires s != [] && t != [] && s[0] == t[0] && multiset(s) == multiset(t)
    ensures multiset(s[1..]) == multiset(t[1..])
  {
    assert s == [s[0]] + s[1..] && t == [t[0]] + t[1..];
    assert multiset(s[1..]) == multiset(s) - multiset{s[0]};
    assert multiset(t[1..]) == multiset(t) - multiset{t[0]};
  }

  /** Elements of `s` that compare equal are the same. */
  ghost predicate Separates<T>(le: (T, T) -> bool, s: seq<T>) {
    forall i, j :: 0 <= i < |s| && 0 <= j < |s| && le(s[i], s[j]) && le(s[j], s[i]) ==> s[i] == s[j]
  }

  /** Then a sorted arrangement is the only one. */
  lemma {:induction false} SortedUnique<T(!new)>(le: (T, T) -> bool, s: seq<T>, t: seq<T>)
    requires Sorted(le, s) && Sorted(le, t) && multiset(s) == multiset(t) && Separates(le, s)
    ensures s == t
  {
    assert |s| == |multiset(s)| == |multiset(t)| == |t|;
    if s != [] {
      FirstIsLeast(le, s, t);
      FirstIsLeast(le, t, s);
      assert t[0] in multiset(s);
      var i :| 0 <= i < |s| && s[i] == t[0];
      SameRest(s, t);
      SortedUnique(le, s[1..], t[1..]);
      assert s == [s[0]] + s[1..] && t == [t[0]] + t[1..];
    }
  }

  lemma {:induction false} SeparatesPermuted<T(!new)>(le: (T, T) -> bool, s: seq<T>, t: seq<T>)
    requires Separates(le, s) && multiset(s) == multiset(t)
    ensures Separates(le, t)
  {
    forall i, j | 0 <= i < |t| && 0 <= j < |t| && le(t[i], t[j]) && le(t[j], t[i]) ensures t[i] == t[j] {
      assert t[i] in multiset(s) && t[j] in multiset(s);
      var k :| 0 <= k < |s| && s[k] == t[i];
      var m :| 0 <= m < |s| && s[m] == t[j];
    }
  }

  /** Sorting forgets the order of its input. */
  lemma {:induction false} SortIgnoresOrder<T(!new)>(le: (T, T) -> bool, s: seq<T>, t: seq<T>)
    requires Comparison(le) && multiset(s) == multiset(t) && Separates(le, s)
    ensures Sort(le, s) == Sort(le, t)
  {
    SortSorts(le, s);
    SortSorts(le, t);
    SeparatesPermuted(le, s, Sort(le, s));
    SortedUnique(le, Sort(le, s), Sort(le, t));
  }

  /** The order of whole numbers. */
  predicate Ascending(a: int, b: int) { a <= b }

  // ----- sorting by a key ------------------------------------------------------------

  lemma {:induction false} InsertMapped<T, U>(le: (T, T) -> bool, lf: (U, U) -> bool, f: T -> U, x: T, s: seq<T>)
    requires forall i :: 0 <= i < |s| ==> (lf(f(x), f(s[i])) <==> le(x, s[i]))
    ensures Insert(lf, f(x), Mapped(f, s)) == Mapped(f, Insert(le, x, s))
  {
    if s != [] {
      assert Mapped(f, s)[1..] == Mapped(f, s[1..]);
      if !le(x, s[0]) { InsertMapped(le, lf, f, x, s[1..]); }
    }
  }

  /** Sorting commutes with a map that keeps the comparison. */
  lemma {:induction false} SortMapped<T(!new), U>(le: (T, T) -> bool, lf: (U, U) -> bool, f: T -> U, s: seq<T>)
    requires forall x, y :: x in s && y in s ==> (lf(f(x), f(y)) <==> le(x, y))
    ensures Sort(lf, Mapped(f, s)) == Mapped(f, Sort(le, s))
  {
    if s != [] {
      var rest := Sort(le, s[1..]);
      assert Mapped(f, s)[1..] == Mapped(f, s[1..]);
      SortMapped(le, lf, f, s[1..]);
      forall i | 0 <= i < |rest| ensures lf(f(s[0]), f(rest[i])) <==> le(s[0], rest[i]) {
        SortHolds(le, s[1..], rest[i]);
      }
      InsertMapped(le, lf, f, s[0], rest);
    }
  }

  /** A comparison of distinct keys tells all elements apart. */
  lemma {:induction false} KeysSeparate<T(!new)>(le: (T, T) -> bool, key: T -> int, s: seq<T>)
    requires forall x, y :: le(x, y) <==> key(x) <= key(y)
    requires forall i, j :: 0 <= i < j < |s| ==> key(s[i]) != key(s[j])
    ensures Separates(le, s)
  {
  }
}
