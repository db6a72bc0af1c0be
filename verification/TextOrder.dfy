/** The lexicographic order of texts over an ordered alphabet. */
module TextOrder {

  /** `less` is a strict total order. */
  ghost predicate StrictTotal<T(!new)>(less: (T, T) -> bool) {
    && (forall x, y :: less(x, y) || less(y, x) || x == y)
    && (forall x, y :: less(x, y) ==> !less(y, x) && x != y)
    && (forall x, y, z :: less(x, y) && less(y, z) ==> less(x, z))
  }

  predicate Before<T(==)>(less: (T, T) -> bool, a: seq<T>, b: seq<T>) {
    b != [] && (a == [] || less(a[0], b[0]) || (a[0] == b[0] && Before(less, a[1..], b[1..])))
  }

  lemma {:induction false} BeforeTotal<T(!new)>(less: (T, T) -> bool, a: seq<T>, b: seq<T>)
    requires StrictTotal(less)
    ensures Before(less, a, b) || Before(less, b, a) || a == b
    ensures Before(less, a, b) ==> !Before(less, b, a) && a != b
  {
    if a != [] && b != [] {
      BeforeTotal(less, a[1..], b[1..]);
      assert a == [a[0]] + a[1..] && b == [b[0]] + b[1..];
    }
  }

  lemma {:induction false} BeforeTransitive<T(!new)>(less: (T, T) -> bool, a: seq<T>, b: seq<T>, c: seq<T>)
    requires StrictTotal(less) && Before(less, a, b) && Before(less, b, c)
    ensures Before(less, a, c)
  {
    if a != [] && a[0] == b[0] && b[0] == c[0] { BeforeTransitive(less, a[1..], b[1..], c[1..]); }
  }

  /** One text comes first: it ends where they first differ, or has the smaller
      letter there. */
  lemma {:induction false} BeforeIff<T(!new)>(less: (T, T) -> bool, a: seq<T>, b: seq<T>)
    requires StrictTotal(less)
    ensures Before(less, a, b) <==>
            exists k :: 0 <= k < |b| && k <= |a| && a[..k] == b[..k] && (k == |a| || less(a[k], b[k]))
  {
    if Before(less, a, b) {
      var k := DifferenceAt(less, a, b);
    }
    if k :| 0 <= k < |b| && k <= |a| && a[..k] == b[..k] && (k == |a| || less(a[k], b[k])) {
      BeforeAt(less, a, b, k);
    }
  }

  lemma {:induction false} DifferenceAt<T(!new)>(less: (T, T) -> bool, a: seq<T>, b: seq<T>) returns (k: nat)
    requires StrictTotal(less) && Before(less, a, b)
    ensures k < |b| && k <= |a| && a[..k] == b[..k] && (k == |a| || less(a[k], b[k]))
  {
    if a == [] || less(a[0], b[0]) {
      k := 0;
    } else {
      var i := DifferenceAt(less, a[1..], b[1..]);
      k := i + 1;
      assert a[..k] == [a[0]] + a[1..][..i] && b[..k] == [b[0]] + b[1..][..i];
    }
  }

  lemma {:induction false} BeforeAt<T(!new)>(less: (T, T) -> bool, a: seq<T>, b: seq<T>, k: nat)
    requires k < |b| && k <= |a| && a[..k] == b[..k] && (k == |a| || less(a[k], b[k]))
    ensures Before(less, a, b)
  {
    if k > 0 {
      assert a[0] == a[..k][0] && b[0] == b[..k][0];
      assert a[1..][..k - 1] == a[..k][1..] && b[1..][..k - 1] == b[..k][1..];
      BeforeAt(less, a[1..], b[1..], k - 1);
    }
  }
}
