/** The rank by which the routing fuzz reducer may only shrink a failing case. */
module ReducerRank {
  import opened Lists
  import opened Sequences
  import opened Sorting

  // ----- inversions ------------------------------------------------------------------

  /** How many elements are below `x`. */
  function CountBelow(s: seq<int>, x: int): (n: nat)
    ensures n <= |s|
  {
    if s == [] then 0 else (if s[0] < x then 1 else 0) + CountBelow(s[1..], x)
  }

  /** Pairs of positions whose values are out of order. */
  function Inversions(order: seq<int>): nat {
    if order == [] then 0 else CountBelow(order[1..], order[0]) + Inversions(order[1..])
  }

  /** `_validate_slot_order`. */
  predicate SlotOrder(s: seq<int>, n: nat) {
    |s| == n && Sort(Ascending, s) == Range(n)
  }

  /** Every slot exactly once, in any order. */
  lemma {:induction false} SlotOrderIsPermutation(s: seq<int>, n: nat)
    ensures SlotOrder(s, n) <==> multiset(s) == multiset(Range(n))
  {
    SortSorts(Ascending, s);
    if multiset(s) == multiset(Range(n)) {
      assert |s| == |multiset(s)| == |multiset(Range(n))| == n;
      SortedUnique(Ascending, Sort(Ascending, s), Range(n));
    }
  }

  lemma {:induction false} NoneBelow(s: seq<int>, x: int)
    ensures CountBelow(s, x) == 0 <==> forall i :: 0 <= i < |s| ==> x <= s[i]
  {
    if s != [] {
      NoneBelow(s[1..], x);
      assert (forall i :: 0 <= i < |s| ==> x <= s[i]) <==> x <= s[0] && forall i :: 0 <= i < |s[1..]| ==> x <= s[1..][i] by {
        if x <= s[0] && forall i :: 0 <= i < |s[1..]| ==> x <= s[1..][i] {
          forall i | 0 <= i < |s| ensures x <= s[i] { assert i > 0 ==> x <= s[1..][i - 1]; }
        }
      }
    }
  }

  /** No inversions exactly in sorted lists. */
  lemma {:induction false} ZeroIffSorted(s: seq<int>)
    ensures Inversions(s) == 0 <==> Sorted(Ascending, s)
  {
    if s != [] {
      NoneBelow(s[1..], s[0]);
      ZeroIffSorted(s[1..]);
      if Sorted(Ascending, s[1..]) && forall i :: 0 <= i < |s[1..]| ==> s[0] <= s[1..][i] {
        forall i, j | 0 <= i < j < |s| ensures s[i] <= s[j] {
          if i > 0 { assert s[1..][i - 1] <= s[1..][j - 1]; } else { assert s[0] <= s[1..][j - 1]; }
        }
      }
    }
  }

  /** Among slot orders only the identity has no inversions. */
  lemma {:induction false} ZeroIffIdentity(s: seq<int>, n: nat)
    requires SlotOrder(s, n)
    ensures Inversions(s) == 0 <==> s == Range(n)
  {
    ZeroIffSorted(s);
    SlotOrderIsPermutation(s, n);
    if Sorted(Ascending, s) { SortedUnique(Ascending, s, Range(n)); }
  }

  // ----- adjacent swaps ----------------------------------------------------------------

  function Swap(s: seq<int>, i: nat): seq<int>
    requires i + 1 < |s|
  {
    s[i := s[i + 1]][i + 1 := s[i]]
  }

  lemma {:induction false} SwapInRest(s: seq<int>, i: nat)
    requires 0 < i && i + 1 < |s|
    ensures Swap(s, i)[0] == s[0] && Swap(s, i)[1..] == Swap(s[1..], i - 1)
  {
  }

  lemma {:induction false} CountTwo(a: int, b: int, t: seq<int>, x: int)
    ensures CountBelow([a, b] + t, x) == (if a < x then 1 else 0) + (if b < x then 1 else 0) + CountBelow(t, x)
  {
  }

  lemma {:induction false} SwapCounts(s: seq<int>, i: nat, x: int)
    requires i + 1 < |s|
    ensures CountBelow(Swap(s, i), x) == CountBelow(s, x)
  {
    if i == 0 {
      assert s == [s[0], s[1]] + s[2..] && Swap(s, 0) == [s[1], s[0]] + s[2..];
      CountTwo(s[0], s[1], s[2..], x);
      CountTwo(s[1], s[0], s[2..], x);
    } else {
      SwapInRest(s, i);
      SwapCounts(s[1..], i - 1, x);
    }
  }

  lemma {:induction false} InversionsTwo(a: int, b: int, t: seq<int>)
    ensures Inversions([a, b] + t) ==
            (if b < a then 1 else 0) + CountBelow(t, a) + CountBelow(t, b) + Inversions(t)
  {
  }

  /** Swapping an adjacent inverted pair removes exactly one inversion. */
  lemma {:induction false} SwapRemovesOne(s: seq<int>, i: nat)
    requires i + 1 < |s| && s[i] > s[i + 1]
    ensures Inversions(Swap(s, i)) == Inversions(s) - 1
  {
    if i == 0 {
      assert s == [s[0], s[1]] + s[2..] && Swap(s, 0) == [s[1], s[0]] + s[2..];
      InversionsTwo(s[0], s[1], s[2..]);
      InversionsTwo(s[1], s[0], s[2..]);
    } else {
      SwapInRest(s, i);
      SwapRemovesOne(s[1..], i - 1);
      SwapCounts(s[1..], i - 1, s[0]);
    }
  }

  lemma {:induction false} SwapIsPermutation(s: seq<int>, i: nat)
    requires i + 1 < |s|
    ensures multiset(Swap(s, i)) == multiset(s)
  {
  }

  /** A list that is not sorted has an adjacent inverted pair. */
  lemma {:induction false} InvertedPairExists(s: seq<int>) returns (i: nat)
    requires Inversions(s) > 0
    ensures i + 1 < |s| && s[i] > s[i + 1]
  {
    if Inversions(s[1..]) > 0 {
      i := InvertedPairExists(s[1..]);
      i := i + 1;
    } else {
      ZeroIffSorted(s[1..]);
      NoneBelow(s[1..], s[0]);
      i := 0;
      var k :| 0 <= k < |s[1..]| && s[1..][k] < s[0];
      assert k > 0 ==> Ascending(s[1..][0], s[1..][k]);
    }
  }

  predicate SwapsPair(s: seq<int>, t: seq<int>, i: int) {
    0 <= i < |s| - 1 && s[i] > s[i + 1] && t == Swap(s, i)
  }

  ghost predicate OneSwap(s: seq<int>, t: seq<int>) { exists i :: SwapsPair(s, t, i) }

  /** Each list comes from the one before by swapping an adjacent inverted pair. */
  ghost predicate SwapChain(chain: seq<seq<int>>) {
    forall k :: 0 < k < |chain| ==> OneSwap(chain[k - 1], chain[k])
  }

  lemma {:induction false} ChainCons(s: seq<int>, i: nat, rest: seq<seq<int>>)
    requires rest != [] && SwapsPair(s, rest[0], i) && SwapChain(rest)
    ensures SwapChain([s] + rest)
  {
  }

  /** The inversion count is the number of adjacent swaps to the identity. */
  lemma {:induction false} SwapsReachIdentity(s: seq<int>, n: nat) returns (chain: seq<seq<int>>)
    requires SlotOrder(s, n)
    ensures |chain| == Inversions(s) + 1 && chain[0] == s && Last(chain) == Range(n) && SwapChain(chain)
    decreases Inversions(s)
  {
    ZeroIffIdentity(s, n);
    if Inversions(s) == 0 {
      chain := [s];
    } else {
      var i := InvertedPairExists(s);
      SwapRemovesOne(s, i);
      SwapIsPermutation(s, i);
      SlotOrderIsPermutation(s, n);
      SlotOrderIsPermutation(Swap(s, i), n);
      var rest := SwapsReachIdentity(Swap(s, i), n);
      ChainCons(s, i, rest);
      chain := [s] + rest;
    }
  }

  // ----- the rank ------------------------------------------------------------------------

  datatype Descriptor = Descriptor(
    decoders: nat, prefills: nat, cancel: Option<nat>, prime: seq<int>, mixed: seq<int>)

  datatype Rank = Rank(size: nat, cancels: nat, index: nat, inversions: nat)

  /** What the descriptor validation leaves for the rank. */
  predicate DescriptorOk(d: Descriptor) {
    && 1 <= d.decoders <= 3 && 1 <= d.prefills <= 3
    && SlotOrder(d.prime, d.decoders) && SlotOrder(d.mixed, d.decoders + d.prefills)
    && (d.cancel.Some? ==> d.cancel.value < d.decoders)
  }

  function RankOf(d: Descriptor): Rank {
    Rank(d.decoders + d.prefills,
         if d.cancel.Some? then 1 else 0,
         if d.cancel.Some? then d.cancel.value else 0,
         Inversions(d.prime) + Inversions(d.mixed))
  }

  /** Tuple order. */
  predicate Less(a: Rank, b: Rank) {
    || a.size < b.size
    || (a.size == b.size && (
        || a.cancels < b.cancels
        || (a.cancels == b.cancels && (
            || a.index < b.index
            || (a.index == b.index && a.inversions < b.inversions)))))
  }

  /** Every kind of reduction lowers the rank: fewer slots, no cancellation, an
      earlier one, or an adjacent inverted pair swapped in either order. */
  lemma {:induction false} ReductionsLowerRank(d: Descriptor, e: Descriptor, i: nat)
    ensures e.decoders + e.prefills < d.decoders + d.prefills ==> Less(RankOf(e), RankOf(d))
    ensures d.cancel.Some? && e == d.(cancel := None) ==> Less(RankOf(e), RankOf(d))
    ensures d.cancel.Some? && i < d.cancel.value && e == d.(cancel := Some(i)) ==> Less(RankOf(e), RankOf(d))
    ensures i + 1 < |d.prime| && d.prime[i] > d.prime[i + 1] && e == d.(prime := Swap(d.prime, i)) ==>
              Less(RankOf(e), RankOf(d))
    ensures i + 1 < |d.mixed| && d.mixed[i] > d.mixed[i + 1] && e == d.(mixed := Swap(d.mixed, i)) ==>
              Less(RankOf(e), RankOf(d))
  {
    if i + 1 < |d.prime| && d.prime[i] > d.prime[i + 1] { SwapRemovesOne(d.prime, i); }
    if i + 1 < |d.mixed| && d.mixed[i] > d.mixed[i + 1] { SwapRemovesOne(d.mixed, i); }
  }

  /** A rank only falls for one of these reasons, the earlier ones outranking the
      later: slots, having a cancellation, its index, and inversions. */
  lemma {:induction false} RankCompares(d: Descriptor, e: Descriptor)
    requires !Less(RankOf(e), RankOf(d))
    ensures d.decoders + d.prefills <= e.decoders + e.prefills
    ensures d.decoders + d.prefills == e.decoders + e.prefills && d.cancel.Some? ==>
              e.cancel.Some? && d.cancel.value <= e.cancel.value
    ensures d.decoders + d.prefills == e.decoders + e.prefills && d.cancel == e.cancel ==>
              Inversions(d.prime) + Inversions(d.mixed) <= Inversions(e.prime) + Inversions(e.mixed)
  {
  }

  /** No sequence of ranks falls forever. */
  lemma {:induction false} DescentEnds(ranks: nat -> Rank, from: nat) returns (k: nat)
    ensures from <= k && !Less(ranks(k + 1), ranks(k))
    decreases ranks(from).size, ranks(from).cancels, ranks(from).index, ranks(from).inversions
  {
    if Less(ranks(from + 1), ranks(from)) { k := DescentEnds(ranks, from + 1); } else { k := from; }
  }

  lemma {:induction false} InversionsBound(s: seq<int>)
    ensures 2 * Inversions(s) <= |s| * (|s| - 1)
  {
    if s != [] {
      InversionsBound(s[1..]);
      var n := |s| - 1;
      assert n * (n - 1) + 2 * n == (n + 1) * n;
    }
  }

  /** One number for the rank of a valid descriptor. */
  function Height(r: Rank): nat {
    ((2 * r.size + r.cancels) * 3 + r.index) * 19 + r.inversions
  }

  predicate Small(r: Rank) { r.size <= 6 && r.cancels <= 1 && r.index <= 2 && r.inversions <= 18 }

  lemma {:induction false} RankIsSmall(d: Descriptor)
    requires DescriptorOk(d)
    ensures Small(RankOf(d))
  {
    InversionsBound(d.prime);
    InversionsBound(d.mixed);
    SmallSquare(|d.prime|, 3);
    SmallSquare(|d.mixed|, 6);
  }

  lemma {:induction false} SmallSquare(n: nat, m: nat)
    requires n <= m
    ensures n * (n - 1) <= m * (m - 1)
  {
  }

  /** Tuple order on valid descriptors is the order of heights. */
  lemma {:induction false} LessIffLower(a: Rank, b: Rank)
    requires Small(a) && Small(b)
    ensures Less(a, b) <==> Height(a) < Height(b)
  {
  }

  /** Strictly shrinking descriptors form a chain no longer than the first height. */
  lemma {:induction false} ShrinkingChainIsShort(chain: seq<Descriptor>)
    requires chain != [] && forall i :: 0 <= i < |chain| ==> DescriptorOk(chain[i])
    requires forall i :: 0 < i < |chain| ==> Less(RankOf(chain[i]), RankOf(chain[i - 1]))
    ensures Height(RankOf(Last(chain))) + |chain| <= Height(RankOf(chain[0])) + 1
    ensures |chain| <= 798
  {
    RankIsSmall(chain[0]);
    if |chain| > 1 {
      var front := DropLast(chain);
      ShrinkingChainIsShort(front);
      RankIsSmall(Last(front));
      RankIsSmall(Last(chain));
      LessIffLower(RankOf(Last(chain)), RankOf(Last(front)));
    }
  }
}
