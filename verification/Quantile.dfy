/** The type-7 quantile (Hyndman and Fan, definition 7) of the profile comparison,
    over the reals. */
module Quantile {
  import opened Sequences
  import opened Sorting

  // ----- order statistics -------------------------------------------------------------------

  predicate AtMost(a: real, b: real) { a <= b }

  /** Where each element of an insertion comes from. */
  function InsertedAt(x: real, s: seq<real>, k: nat): real
    requires k <= |s|
  {
    if k < |s| && s[k] < x then s[k] else if k == 0 || s[k - 1] < x then x else s[k - 1]
  }

  lemma {:induction false} InsertAt(x: real, s: seq<real>, k: nat)
    requires Sorted(AtMost, s) && k <= |s|
    ensures Insert(AtMost, x, s)[k] == InsertedAt(x, s, k)
  {
    if s != [] && !(x <= s[0]) {
      if k > 0 { InsertAt(x, s[1..], k - 1); }
    } else if k > 0 {
      assert s[0] <= s[k - 1];
    }
  }

  predicate Below(s: seq<real>, t: seq<real>) {
    |s| == |t| && forall i :: 0 <= i < |s| ==> s[i] <= t[i]
  }

  lemma {:induction false} InsertBelow(x: real, y: real, s: seq<real>, t: seq<real>)
    requires x <= y && Sorted(AtMost, s) && Sorted(AtMost, t) && Below(s, t)
    ensures Below(Insert(AtMost, x, s), Insert(AtMost, y, t))
  {
    forall k | 0 <= k < |s| + 1 ensures Insert(AtMost, x, s)[k] <= Insert(AtMost, y, t)[k] {
      InsertAt(x, s, k);
      InsertAt(y, t, k);
    }
  }

  /** Raising observations raises every order statistic. */
  lemma {:induction false} SortBelow(s: seq<real>, t: seq<real>)
    requires Below(s, t)
    ensures Below(Sort(AtMost, s), Sort(AtMost, t))
  {
    if s != [] {
      SortBelow(s[1..], t[1..]);
      SortSorts(AtMost, s[1..]);
      SortSorts(AtMost, t[1..]);
      InsertBelow(s[0], t[0], Sort(AtMost, s[1..]), Sort(AtMost, t[1..]));
    }
  }

  // ----- interpolation ---------------------------------------------------------------

  /** A fraction of a distance. */
  function Part(f: real, d: real): (r: real)
    requires 0.0 <= f <= 1.0 && 0.0 <= d
    ensures 0.0 <= r <= d
  {
    NotNegative(f, d);
    NotNegative(1.0 - f, d);
    f * d
  }

  lemma {:induction false} NotNegative(x: real, y: real)
    requires 0.0 <= x && 0.0 <= y
    ensures 0.0 <= x * y
  {
  }

  lemma {:induction false} PartMonotone(f: real, g: real, d: real)
    requires 0.0 <= f <= g <= 1.0 && 0.0 <= d
    ensures Part(f, d) <= Part(g, d)
  {
  }

  function Lerp(a: real, b: real, f: real): (r: real)
    requires a <= b && 0.0 <= f <= 1.0
    ensures a <= r <= b
  {
    a + Part(f, b - a)
  }

  lemma {:induction false} LerpBelow(a: real, b: real, c: real, d: real, f: real)
    requires a <= b && c <= d && a <= c && b <= d && 0.0 <= f <= 1.0
    ensures Lerp(a, b, f) <= Lerp(c, d, f)
  {
    NotNegative(1.0 - f, c - a);
    NotNegative(f, d - b);
    assert (c + f * (d - c)) - (a + f * (b - a)) == (1.0 - f) * (c - a) + f * (d - b);
  }

  lemma {:induction false} LerpMonotone(a: real, b: real, c: real, d: real, f: real, g: real)
    requires a <= b && c <= d && a <= c && b <= d && 0.0 <= f <= g <= 1.0
    ensures Lerp(a, b, f) <= Lerp(c, d, g)
  {
    LerpBelow(a, b, c, d, f);
    PartMonotone(f, g, d - c);
  }

  /** The value at rank `h` of a sorted list. */
  function AtRank(s: seq<real>, h: real): real
    requires s != [] && Sorted(AtMost, s) && 0.0 <= h <= (|s| - 1) as real
  {
    var lower := h.Floor;
    var fraction := h - lower as real;
    if fraction == 0.0 then s[lower] else Lerp(s[lower], s[lower + 1], fraction)
  }

  /** The rank `(n - 1) p`. */
  function RankFor(n: nat, p: real): (h: real)
    requires n > 0 && 0.0 <= p <= 1.0
    ensures 0.0 <= h <= (n - 1) as real
  {
    Part(p, (n - 1) as real)
  }

  /** `r7`: none for no observation or a probability outside the unit interval. */
  function R7(values: seq<real>, p: real): Option<real> {
    SortSorts(AtMost, values);
    var s := Sort(AtMost, values);
    if s == [] || !(0.0 <= p <= 1.0) then None
    else if |s| == 1 then Some(s[0])
    else Some(AtRank(s, RankFor(|s|, p)))
  }

  lemma {:induction false} RankBounds(s: seq<real>, h: real)
    requires s != [] && Sorted(AtMost, s) && 0.0 <= h <= (|s| - 1) as real
    ensures s[h.Floor] <= AtRank(s, h)
    ensures h.Floor + 1 < |s| ==> AtRank(s, h) <= s[h.Floor + 1]
    ensures s[0] <= AtRank(s, h) <= Last(s)
  {
  }

  /** Later ranks of a larger list hold larger values. */
  lemma {:induction false} RankMonotone(s: seq<real>, t: seq<real>, g: real, h: real)
    requires s != [] && Sorted(AtMost, s) && Sorted(AtMost, t) && Below(s, t)
    requires 0.0 <= g <= h <= (|s| - 1) as real
    ensures AtRank(s, g) <= AtRank(t, h)
  {
    if g.Floor == h.Floor {
      var k := g.Floor;
      if k + 1 < |s| {
        LerpMonotone(s[k], s[k + 1], t[k], t[k + 1], g - k as real, h - k as real);
        WholeRank(s, g);
        WholeRank(t, h);
      }
    } else {
      RankBounds(s, g);
      RankBounds(t, h);
    }
  }

  /** At whole ranks the interpolation formula agrees with the direct answer. */
  lemma {:induction false} WholeRank(s: seq<real>, h: real)
    requires s != [] && Sorted(AtMost, s) && 0.0 <= h < (|s| - 1) as real
    ensures h.Floor + 1 < |s| && AtRank(s, h) == Lerp(s[h.Floor], s[h.Floor + 1], h - h.Floor as real)
  {
  }

  lemma {:induction false} R7IsRank(values: seq<real>, p: real)
    requires values != [] && 0.0 <= p <= 1.0
    ensures var s := Sort(AtMost, values); Sorted(AtMost, s) && R7(values, p) == Some(AtRank(s, RankFor(|s|, p)))
  {
    SortSorts(AtMost, values);
  }

  // ----- what the report relies on ---------------------------------------------------

  /** The order of the observations does not matter. */
  lemma {:induction false} R7IgnoresOrder(a: seq<real>, b: seq<real>, p: real)
    requires multiset(a) == multiset(b)
    ensures R7(a, p) == R7(b, p)
  {
    SortIgnoresOrder(AtMost, a, b);
  }

  predicate Bounds(lo: real, hi: real, values: seq<real>) {
    forall i :: 0 <= i < |values| ==> lo <= values[i] <= hi
  }

  lemma {:induction false} EndsAreExtremes(values: seq<real>)
    requires values != []
    ensures var s := Sort(AtMost, values); s[0] in values && Last(s) in values && Bounds(s[0], Last(s), values)
  {
    var s := Sort(AtMost, values);
    SortSorts(AtMost, values);
    SortHolds(AtMost, values, s[0]);
    SortHolds(AtMost, values, Last(s));
    forall i | 0 <= i < |values| ensures s[0] <= values[i] <= Last(s) {
      SortHolds(AtMost, values, values[i]);
      var k :| 0 <= k < |s| && s[k] == values[i];
    }
  }

  /** Refused without observations or outside the unit interval, and otherwise never
      outside the observations, whatever bounds them. */
  lemma {:induction false} R7WithinRange(values: seq<real>, p: real, lo: real, hi: real)
    requires Bounds(lo, hi, values)
    ensures if values != [] && 0.0 <= p <= 1.0 then R7(values, p).Some? && lo <= R7(values, p).value <= hi
            else R7(values, p).None?
  {
    if values != [] && 0.0 <= p <= 1.0 {
      R7IsRank(values, p);
      EndsAreExtremes(values);
      RankBounds(Sort(AtMost, values), RankFor(|values|, p));
    }
  }

  /** Probabilities 0 and 1 give the least and the greatest observation. */
  lemma {:induction false} R7AtEnds(values: seq<real>)
    requires values != []
    ensures var least, greatest := R7(values, 0.0), R7(values, 1.0);
            && least.Some? && greatest.Some? && least.value in values && greatest.value in values
            && Bounds(least.value, greatest.value, values)
  {
    R7IsRank(values, 0.0);
    R7IsRank(values, 1.0);
    EndsAreExtremes(values);
  }

  /** Raising the probability or any observation never lowers the quantile. */
  lemma {:induction false} R7Monotone(a: seq<real>, b: seq<real>, p: real, q: real)
    requires a != [] && Below(a, b) && 0.0 <= p <= q <= 1.0
    ensures R7(a, p).Some? && R7(b, q).Some? && R7(a, p).value <= R7(b, q).value
  {
    R7IsRank(a, p);
    R7IsRank(b, q);
    SortBelow(a, b);
    PartMonotone(p, q, (|a| - 1) as real);
    RankMonotone(Sort(AtMost, a), Sort(AtMost, b), RankFor(|a|, p), RankFor(|a|, q));
  }

  // ----- the definition ----------------------------------------------------------------

  lemma {:induction false} WholePart(h: real, k: nat, f: real, n: nat)
    requires h == k as real + f && 0.0 <= f < 1.0 && h <= n as real
    ensures h.Floor == k && k <= n && (f != 0.0 ==> k < n)
  {
  }

  lemma {:induction false} AtRankIs(s: seq<real>, h: real, k: nat, f: real)
    requires s != [] && Sorted(AtMost, s) && 0.0 <= h <= (|s| - 1) as real
    requires h == k as real + f && 0.0 <= f < 1.0
    ensures k < |s| && (f != 0.0 ==> k + 1 < |s|) && AtRank(s, h) == TypeSeven(s, k, f)
  {
    WholePart(h, k, f, |s| - 1);
    if f != 0.0 { WeightedMean(s[k], s[k + 1], f); }
  }

  /** The observation `k` steps up, or the mean of it and the next with weights
      `1 - f` and `f`. */
  function TypeSeven(s: seq<real>, k: nat, f: real): real
    requires k < |s| && (f != 0.0 ==> k + 1 < |s|)
  {
    if f == 0.0 then s[k] else (1.0 - f) * s[k] + f * s[k + 1]
  }

  /** Definition 7: sort, go `k + f` steps up from the least observation, and take the
      weighted mean of the two neighbours. */
  lemma {:induction false} R7IsTypeSeven(values: seq<real>, p: real, s: seq<real>, k: nat, f: real)
    requires 0.0 <= p <= 1.0 && 0 < |s| && multiset(s) == multiset(values)
    requires forall i, j :: 0 <= i < j < |s| ==> s[i] <= s[j]
    requires RankFor(|s|, p) == k as real + f && 0.0 <= f < 1.0
    ensures k < |s| && (f != 0.0 ==> k + 1 < |s|) && R7(values, p) == Some(TypeSeven(s, k, f))
  {
    OnlySorted(values, s);
    SortedQuantile(values, s, p, k as real + f);
    AtRankIs(s, k as real + f, k, f);
  }

  /** The steps are `(n - 1) p`. */
  lemma {:induction false} RankIs(n: nat, p: real)
    requires 0 < n && 0.0 <= p <= 1.0
    ensures RankFor(n, p) == (n - 1) as real * p
  {
  }

  lemma {:induction false} SortedQuantile(values: seq<real>, s: seq<real>, p: real, h: real)
    requires values != [] && Sort(AtMost, values) == s && 0.0 <= p <= 1.0 && RankFor(|s|, p) == h
    ensures Sorted(AtMost, s) && 0.0 <= h <= (|s| - 1) as real && R7(values, p) == Some(AtRank(s, h))
  {
    R7IsRank(values, p);
  }

  lemma {:induction false} OnlySorted(values: seq<real>, s: seq<real>)
    requires 0 < |s| && multiset(s) == multiset(values) && forall i, j :: 0 <= i < j < |s| ==> s[i] <= s[j]
    ensures values != [] && Sort(AtMost, values) == s
  {
    assert s[0] in multiset(values);
    SortSorts(AtMost, values);
    SortedUnique(AtMost, s, Sort(AtMost, values));
  }

  lemma {:induction false} WeightedMean(a: real, b: real, f: real)
    requires a <= b && 0.0 <= f <= 1.0
    ensures Lerp(a, b, f) == (1.0 - f) * a + f * b
  {
  }
}
