/** The safetensors range check: tensor intervals must tile the data section. */
module Safetensors {
  import opened Sequences
  import opened Sorting

  datatype Interval = Interval(start: nat, end: nat)

  /** One header entry: the metadata object, or a tensor with its offsets. */
  datatype Item = Metadata(isObject: bool) | Tensor(fieldsOk: bool, range: Interval)

  predicate AtMost(a: Interval, b: Interval) {
    a.start < b.start || (a.start == b.start && a.end <= b.end)
  }

  lemma {:induction false} AtMostCompares()
    ensures Comparison(AtMost)
  {
  }

  // ----- what the check accepts --------------------------------------------------------

  predicate InRange(x: Interval, size: nat) { x.start < x.end <= size }

  predicate AllInRange(s: seq<Interval>, size: nat) {
    forall i :: 0 <= i < |s| ==> InRange(s[i], size)
  }

  predicate Adjacent(s: seq<Interval>) {
    forall i :: 0 < i < |s| ==> s[i - 1].end == s[i].start
  }

  /** `_validate_safetensors`, past the header. */
  predicate Accepted(s: seq<Interval>, size: nat) {
    var ordered := Sort(AtMost, s);
    && AllInRange(s, size) && s != []
    && ordered[0].start == 0 && Last(ordered).end == size && Adjacent(ordered)
  }

  // ----- partition of the data bytes ---------------------------------------------------

  /** How many intervals of the list hold byte `b`. */
  function Cover(s: seq<Interval>, b: nat): nat {
    if s == [] then 0 else (if s[0].start <= b < s[0].end then 1 else 0) + Cover(s[1..], b)
  }

  /** Every data byte from `low` on lies in exactly one interval. */
  predicate CoversOnce(s: seq<Interval>, low: nat, size: nat) {
    forall b :: low <= b < size ==> Cover(s, b) == 1
  }

  predicate Partition(s: seq<Interval>, size: nat) {
    s != [] && AllInRange(s, size) && CoversOnce(s, 0, size)
  }

  /** Intervals laid end to end from `low`. */
  predicate Tiles(s: seq<Interval>, low: nat, size: nat) {
    if s == [] then low == size else s[0].start == low && Tiles(s[1..], s[0].end, size)
  }

  lemma {:induction false} InsertCovers(x: Interval, s: seq<Interval>, b: nat)
    ensures Cover(Insert(AtMost, x, s), b) == Cover([x] + s, b)
  {
    if s != [] && !AtMost(x, s[0]) { InsertCovers(x, s[1..], b); }
    assert ([x] + s)[1..] == s;
    if s != [] { assert ([x] + s[1..])[1..] == s[1..]; }
  }

  lemma {:induction false} SortCovers(s: seq<Interval>, b: nat)
    ensures Cover(Sort(AtMost, s), b) == Cover(s, b)
  {
    if s != [] {
      SortCovers(s[1..], b);
      InsertCovers(s[0], Sort(AtMost, s[1..]), b);
      assert ([s[0]] + Sort(AtMost, s[1..]))[1..] == Sort(AtMost, s[1..]);
    }
  }

  lemma {:induction false} NoneCovers(s: seq<Interval>, b: nat)
    requires forall i :: 0 <= i < |s| ==> !(s[i].start <= b < s[i].end)
    ensures Cover(s, b) == 0
  {
    if s != [] { NoneCovers(s[1..], b); }
  }

  lemma {:induction false} OneCovers(s: seq<Interval>, b: nat, i: nat)
    requires i < |s| && s[i].start <= b < s[i].end
    ensures Cover(s, b) >= 1
  {
    if i > 0 { OneCovers(s[1..], b, i - 1); }
  }

  /** Laid end to end, each byte has one interval. */
  lemma {:induction false} TilesCover(s: seq<Interval>, low: nat, size: nat)
    requires Tiles(s, low, size) && AllInRange(s, size)
    ensures CoversOnce(s, low, size) && forall i :: 0 <= i < |s| ==> low <= s[i].start
  {
    if s != [] {
      var rest, mid := s[1..], s[0].end;
      TilesCover(rest, mid, size);
      forall b | low <= b < size ensures Cover(s, b) == 1 {
        if b < mid { NoneCovers(rest, b); }
      }
    }
  }

  /** The hard direction: sorted intervals that hold each byte once leave no gap. */
  lemma {:induction false} CoverTiles(s: seq<Interval>, low: nat, size: nat)
    requires Sorted(AtMost, s) && AllInRange(s, size) && low <= size && CoversOnce(s, low, size)
    requires forall i :: 0 <= i < |s| ==> low <= s[i].start
    ensures Tiles(s, low, size)
  {
    if s == [] {
      assert low < size ==> Cover(s, low) == 1;
    } else {
      FirstStartsLow(s, low, size);
      var rest, mid := s[1..], s[0].end;
      forall i | 0 <= i < |rest| ensures mid <= rest[i].start { NoOverlap(s, low, size, i); }
      forall b | mid <= b < size ensures Cover(rest, b) == 1 { assert Cover(s, b) == 1; }
      CoverTiles(rest, mid, size);
    }
  }

  lemma {:induction false} FirstStartsLow(s: seq<Interval>, low: nat, size: nat)
    requires s != [] && Sorted(AtMost, s) && AllInRange(s, size) && CoversOnce(s, low, size)
    requires forall i :: 0 <= i < |s| ==> low <= s[i].start
    ensures s[0].start == low
  {
    assert InRange(s[0], size);
    assert Cover(s, low) == 1;
    if s[0].start > low {
      forall i | 0 <= i < |s| ensures !(s[i].start <= low < s[i].end) { assert i > 0 ==> AtMost(s[0], s[i]); }
      NoneCovers(s, low);
    }
  }

  lemma {:induction false} NoOverlap(s: seq<Interval>, low: nat, size: nat, i: nat)
    requires s != [] && AllInRange(s, size) && CoversOnce(s, low, size) && i < |s[1..]|
    requires s[0].start == low <= s[1..][i].start
    ensures s[0].end <= s[1..][i].start
  {
    var b := s[1..][i].start;
    assert InRange(s[i + 1], size);
    OneCovers(s[1..], b, i);
    assert Cover(s, b) == 1;
  }

  lemma {:induction false} TilesAreAdjacent(s: seq<Interval>, low: nat, size: nat)
    requires s != []
    ensures Tiles(s, low, size) <==> s[0].start == low && Last(s).end == size && Adjacent(s)
  {
    if |s| > 1 {
      var rest := s[1..];
      TilesAreAdjacent(rest, s[0].end, size);
      assert Last(rest) == Last(s);
      if Adjacent(s) {
        forall i | 0 < i < |rest| ensures rest[i - 1].end == rest[i].start { assert s[i].end == s[i + 1].start; }
        assert s[0].end == s[1].start;
      }
      if Adjacent(rest) && s[0].end == rest[0].start {
        forall i | 0 < i < |s| ensures s[i - 1].end == s[i].start {
          if i > 1 { assert rest[i - 2].end == rest[i - 1].start; }
        }
      }
    }
  }

  lemma {:induction false} SortInRange(s: seq<Interval>, size: nat)
    ensures AllInRange(Sort(AtMost, s), size) <==> AllInRange(s, size)
  {
    AtMostCompares();
    forall i | 0 <= i < |s| ensures s[i] in Sort(AtMost, s) { SortHolds(AtMost, s, s[i]); }
    forall i | 0 <= i < |s| ensures Sort(AtMost, s)[i] in s { SortHolds(AtMost, s, Sort(AtMost, s)[i]); }
  }

  /** Accepted exactly when the intervals partition the data bytes, in whatever
      order the header lists them. */
  lemma {:induction false} AcceptedIffPartition(s: seq<Interval>, size: nat)
    ensures Accepted(s, size) <==> Partition(s, size)
  {
    if s != [] && AllInRange(s, size) {
      var ordered := Sort(AtMost, s);
      AtMostCompares();
      SortSorts(AtMost, s);
      SortInRange(s, size);
      TilesAreAdjacent(ordered, 0, size);
      forall b | 0 <= b < size ensures Cover(ordered, b) == Cover(s, b) { SortCovers(s, b); }
      if Tiles(ordered, 0, size) { TilesCover(ordered, 0, size); }
      if CoversOnce(ordered, 0, size) { CoverTiles(ordered, 0, size); }
      assert CoversOnce(ordered, 0, size) <==> CoversOnce(s, 0, size) by {
        if CoversOnce(ordered, 0, size) {
          forall b | 0 <= b < size ensures Cover(s, b) == 1 { assert Cover(ordered, b) == 1; }
        }
      }
    }
  }

  // ----- the header loop ---------------------------------------------------------------

  function Ranges(items: seq<Item>): seq<Interval> {
    if items == [] then []
    else Ranges(DropLast(items)) + match Last(items) case Metadata(_) => [] case Tensor(_, range) => [range]
  }

  predicate ItemOk(item: Item, size: nat) {
    match item
    case Metadata(isObject) => isObject
    case Tensor(fieldsOk, range) => fieldsOk && InRange(range, size)
  }

  predicate ItemsOk(items: seq<Item>, size: nat) {
    forall i :: 0 <= i < |items| ==> ItemOk(items[i], size)
  }

  lemma {:induction false} RangesInRange(items: seq<Item>, size: nat)
    requires ItemsOk(items, size)
    ensures AllInRange(Ranges(items), size)
  {
    if items != [] {
      RangesInRange(DropLast(items), size);
      assert ItemOk(Last(items), size);
    }
  }

  /** The header is accepted exactly when its entries are well formed and the
      tensors partition the data section. */
  method ValidateRanges(items: seq<Item>, size: nat) returns (ok: bool)
    ensures ok <==> ItemsOk(items, size) && Partition(Ranges(items), size)
  {
    var intervals: seq<Interval> := [];
    for k := 0 to |items|
      invariant ItemsOk(items[..k], size) && intervals == Ranges(items[..k])
    {
      var item := items[k];
      assert items[..k + 1] == items[..k] + [item];
      assert DropLast(items[..k + 1]) == items[..k];
      if !ItemOk(item, size) { return false; }
      if item.Tensor? { intervals := intervals + [item.range]; }
    }
    assert items[..|items|] == items;
    RangesInRange(items, size);
    AcceptedIffPartition(intervals, size);
    var ordered := Sort(AtMost, intervals);
    if intervals == [] || ordered[0].start != 0 || Last(ordered).end != size { return false; }
    for k := 1 to |ordered|
      invariant forall i :: 0 < i < k ==> ordered[i - 1].end == ordered[i].start
    {
      if ordered[k - 1].end != ordered[k].start { return false; }
    }
    return true;
  }
}
