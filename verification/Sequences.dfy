/** Small sequence vocabulary shared by the models. Folds recurse on the last
    element, the direction in which the streaming checkers consume their input. */
module Sequences {

  datatype Option<+T> = None | Some(value: T)

  function Last<T>(s: seq<T>): T
    requires s != []
  {
    s[|s| - 1]
  }

  function DropLast<T>(s: seq<T>): seq<T>
    requires s != []
  {
    s[..|s| - 1]
  }

  /** The results of `pick` on the elements of `s` that it selects, in order. */
  function Collect<T, U>(pick: T -> Option<U>, s: seq<T>): (r: seq<U>)
    ensures |r| <= |s|
  {
    if s == [] then []
    else Collect(pick, DropLast(s)) + match pick(Last(s)) case Some(u) => [u] case None => []
  }

  lemma {:induction false} CollectSnoc<T, U>(pick: T -> Option<U>, s: seq<T>, x: T)
    ensures Collect(pick, s + [x]) ==
            Collect(pick, s) + match pick(x) case Some(u) => [u] case None => []
  {
  }

  function SumReal(s: seq<real>): real {
    if s == [] then 0.0 else SumReal(DropLast(s)) + Last(s)
  }

  lemma {:induction false} SumRealSnoc(s: seq<real>, x: real)
    ensures SumReal(s + [x]) == SumReal(s) + x
  {
  }

  function MaxInt(a: int, b: int): int { if a >= b then a else b }

  function MinInt(a: int, b: int): int { if a <= b then a else b }

  function MaxReal(a: real, b: real): real { if a >= b then a else b }

  function Maximum(s: seq<int>): (r: int)
    requires s != []
    ensures r in s && forall x :: x in s ==> x <= r
  {
    assert |s| > 1 ==> s == DropLast(s) + [Last(s)];
    if |s| == 1 then s[0] else MaxInt(Maximum(DropLast(s)), Last(s))
  }

  function Minimum(s: seq<int>): (r: int)
    requires s != []
    ensures r in s && forall x :: x in s ==> r <= x
  {
    assert |s| > 1 ==> s == DropLast(s) + [Last(s)];
    if |s| == 1 then s[0] else MinInt(Minimum(DropLast(s)), Last(s))
  }
}
