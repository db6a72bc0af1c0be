/** The two tail passes of the held-descriptor soak checker. Each replays the log
    in order and keeps sufficient statistics of the final plateau fraction of
    every scenario: extrema and means first, covariances second. */
module SoakTail {
  import opened Sequences
  import opened SoakEvents
  import opened SoakBatch
  import opened SoakReducer

  datatype Series = Series(min: Option<int>, max: Option<int>, sum: real, numerator: real, denominator: real)

  datatype TailState = TailState(
    startIndex: int, count: nat, firstNs: Option<int>, xSum: real, rss: Series, vram: Series)

  function FreshTail(startIndex: int): TailState {
    var none := Series(None, None, 0.0, 0.0, 0.0);
    TailState(startIndex, 0, None, 0.0, none, none)
  }

  function SeriesOf(st: TailState, q: Quantity): Series {
    if q == Rss then st.rss else st.vram
  }

  // ----- the two per-sample updates -----------------------------------------

  function Widen(s: Series, y: int): Series {
    s.(min := Some(if s.min.None? then y else MinInt(s.min.value, y)),
       max := Some(if s.max.None? then y else MaxInt(s.max.value, y)),
       sum := s.sum + y as real)
  }

  function FirstPass(st: TailState, s: Reading): TailState {
    var first := if st.firstNs.None? then s.ns else st.firstNs.value;
    st.(count := st.count + 1, firstNs := Some(first), xSum := st.xSum + Seconds(s.ns - first),
        rss := Widen(st.rss, s.body.rss), vram := Widen(st.vram, s.body.vram))
  }

  function Accumulate(term: Term, s: Series, dx: real, dy: real): Series {
    s.(denominator := s.denominator + term(dx, dx), numerator := s.numerator + term(dx, dy))
  }

  function SecondPass(st: TailState, s: Reading): TailState {
    if st.count < 2 || st.firstNs.None? then st
    else
      var n := st.count as real;
      var dx := Seconds(s.ns - st.firstNs.value) - st.xSum / n;
      st.(rss := Accumulate(Times, st.rss, dx, s.body.rss as real - st.rss.sum / n),
          vram := Accumulate(Times, st.vram, dx, s.body.vram as real - st.vram.sum / n))
  }

  type Callback = (TailState, Reading) -> TailState

  function Visit(callback: Callback, st: TailState, points: seq<Reading>): TailState {
    if points == [] then st else callback(Visit(callback, st, DropLast(points)), Last(points))
  }

  // ----- which samples a pass visits ----------------------------------------

  /** The samples at 1-based positions `start` and later. */
  function Window(samples: seq<Reading>, start: int): seq<Reading> {
    if start <= 1 then samples
    else if |samples| < start then []
    else samples[start - 1..]
  }

  lemma {:induction false} WindowSnoc(samples: seq<Reading>, s: Reading, start: int)
    ensures Window(samples + [s], start) ==
            if start <= |samples| + 1 then Window(samples, start) + [s] else Window(samples, start)
  {
  }

  /** Selecting by position is slicing off the last `count` samples, also when
      there are fewer samples than that. */
  lemma {:induction false} WindowIsTail(samples: seq<Reading>, count: int)
    requires 0 < count
    ensures Window(samples, |samples| - count + 1) == Tail(samples, count)
  {
  }

  function TailStart(m: Manifest, count: nat): int {
    count - TailCount(count, m.thresholds.plateauTailFraction) + 1
  }

  function Selection(m: Manifest, states: map<ScenarioId, ScenarioState>): map<ScenarioId, TailState> {
    map id | id in states :: FreshTail(TailStart(m, states[id].samples.count))
  }

  function SamplesOf(rows: seq<Event>, id: ScenarioId): seq<Reading> {
    Readings(WithTag(rows, Some(id)))
  }

  lemma {:induction false} SamplesOfSnoc(rows: seq<Event>, e: Event, id: ScenarioId)
    ensures SamplesOf(rows + [e], id) ==
            if e.tag == Some(id) && e.body.Sample?
            then SamplesOf(rows, id) + [Reading(e.ns, e.body.sample)] else SamplesOf(rows, id)
  {
    WithTagSnoc(rows, e, Some(id));
    if e.tag == Some(id) { SelectionsSnoc(WithTag(rows, Some(id)), e); }
  }

  /** One scenario's replay counter and statistics after some of its samples. */
  predicate ReplayedTo(callback: Callback, initial: TailState, samples: seq<Reading>, position: nat, st: TailState) {
    position == |samples| && st == Visit(callback, initial, Window(samples, initial.startIndex))
  }

  lemma {:induction false} ReplayOne(
      callback: Callback, initial: TailState, samples: seq<Reading>, position: nat, st: TailState, s: Reading)
    requires ReplayedTo(callback, initial, samples, position, st)
    ensures ReplayedTo(callback, initial, samples + [s], position + 1,
                       if initial.startIndex <= position + 1 then callback(st, s) else st)
  {
    WindowSnoc(samples, s, initial.startIndex);
    var w := Window(samples, initial.startIndex);
    assert DropLast(w + [s]) == w;
  }

  /** The replay's counters and statistics; `known` fails once a sample names a
      scenario outside the selection. */
  datatype Replay = Replay(known: bool, positions: map<ScenarioId, nat>, tails: map<ScenarioId, TailState>)

  /** The effect of one event of the log on the replay. The window starts come
      from the selection, which no callback alters. */
  function ReplayEvent(callback: Callback, selected: map<ScenarioId, TailState>, r: Replay, e: Event): (n: Replay)
    requires r.positions.Keys == r.tails.Keys == selected.Keys
    ensures n.positions.Keys == n.tails.Keys == selected.Keys
  {
    if !e.body.Sample? || e.tag.None? then r
    else
      var id := e.tag.value;
      if id !in selected then r.(known := false)
      else
        var at := r.positions[id] + 1;
        Replay(r.known, r.positions[id := at],
               if selected[id].startIndex <= at
               then r.tails[id := callback(r.tails[id], Reading(e.ns, e.body.sample))] else r.tails)
  }

  function Unstarted(selected: map<ScenarioId, TailState>): (r: Replay)
    ensures r.positions.Keys == r.tails.Keys == selected.Keys
  {
    Replay(true, map id | id in selected :: 0, selected)
  }

  function ReplayRows(callback: Callback, selected: map<ScenarioId, TailState>, rows: seq<Event>): (r: Replay)
    ensures r.positions.Keys == r.tails.Keys == selected.Keys
  {
    if rows == [] then Unstarted(selected)
    else ReplayEvent(callback, selected, ReplayRows(callback, selected, DropLast(rows)), Last(rows))
  }

  lemma {:induction false} ReplayRowsSnoc(
      callback: Callback, selected: map<ScenarioId, TailState>, rows: seq<Event>, e: Event)
    ensures ReplayRows(callback, selected, rows + [e]) ==
            ReplayEvent(callback, selected, ReplayRows(callback, selected, rows), e)
  {
  }

  lemma {:induction false} ReplayEventAt(
    callback: Callback, selected: map<ScenarioId, TailState>, r: Replay, rows: seq<Event>, e: Event, id: ScenarioId)
    requires r.positions.Keys == r.tails.Keys == selected.Keys && id in selected
    requires ReplayedTo(callback, selected[id], SamplesOf(rows, id), r.positions[id], r.tails[id])
    ensures var n := ReplayEvent(callback, selected, r, e);
            ReplayedTo(callback, selected[id], SamplesOf(rows + [e], id), n.positions[id], n.tails[id])
  {
    SamplesOfSnoc(rows, e, id);
    if e.body.Sample? && e.tag == Some(id) {
      var s := Reading(e.ns, e.body.sample);
      ReplayOne(callback, selected[id], SamplesOf(rows, id), r.positions[id], r.tails[id], s);
    }
  }

  /** For each scenario, the replay visits exactly its window, in order. */
  lemma {:induction false} ReplayedScenario(
    callback: Callback, selected: map<ScenarioId, TailState>, rows: seq<Event>, id: ScenarioId)
    requires id in selected
    ensures var r := ReplayRows(callback, selected, rows);
            ReplayedTo(callback, selected[id], SamplesOf(rows, id), r.positions[id], r.tails[id])
  {
    if rows != [] {
      ReplayedScenario(callback, selected, DropLast(rows), id);
      ReplayEventAt(callback, selected, ReplayRows(callback, selected, DropLast(rows)), DropLast(rows), Last(rows), id);
    }
  }

  predicate SameCounts(states: map<ScenarioId, ScenarioState>, positions: map<ScenarioId, nat>)
    requires states.Keys == positions.Keys
  {
    forall id :: id in states ==> positions[id] == states[id].samples.count
  }

  function PassResult(states: map<ScenarioId, ScenarioState>, r: Replay): Option<map<ScenarioId, TailState>>
    requires states.Keys == r.positions.Keys
  {
    if r.known && SameCounts(states, r.positions) then Some(r.tails) else None
  }

  /** One replay of the log: every selected tail sample updates its scenario's
      statistics, in log order. It fails on an unknown scenario or when the
      sample counts differ from the first pass. */
  method ForEachTailSample(
    rows: seq<Event>, states: map<ScenarioId, ScenarioState>, selected: map<ScenarioId, TailState>, callback: Callback)
    returns (r: Option<map<ScenarioId, TailState>>)
    requires selected.Keys == states.Keys
    ensures r == PassResult(states, ReplayRows(callback, selected, rows))
  {
    var replay := Unstarted(selected);
    ghost var done := [];
    for i := 0 to |rows|
      invariant done == rows[..i]
      invariant replay == ReplayRows(callback, selected, done)
    {
      ReplayRowsSnoc(callback, selected, done, rows[i]);
      replay := ReplayEvent(callback, selected, replay, rows[i]);
      done := done + [rows[i]];
    }
    assert done == rows;
    r := PassResult(states, replay);
  }

  /** What both passes leave, or nothing when either fails. */
  function TailResult(m: Manifest, states: map<ScenarioId, ScenarioState>, rows: seq<Event>): Option<map<ScenarioId, TailState>> {
    var first := PassResult(states, ReplayRows(FirstPass, Selection(m, states), rows));
    if first.None? then None else PassResult(states, ReplayRows(SecondPass, first.value, rows))
  }

  method CollectTails(m: Manifest, states: map<ScenarioId, ScenarioState>, rows: seq<Event>)
    returns (r: Option<map<ScenarioId, TailState>>)
    ensures r == TailResult(m, states, rows)
  {
    var first := ForEachTailSample(rows, states, Selection(m, states), FirstPass);
    if first.None? { return None; }
    r := ForEachTailSample(rows, states, first.value, SecondPass);
  }

  // ----- what the statistics are --------------------------------------------

  /** The window means and extrema held after the first pass. */
  predicate HoldsMeans(st: TailState, points: seq<Reading>) {
    && st.count == |points|
    && st.firstNs == (if points == [] then None else Some(points[0].ns))
    && st.xSum == SumReal(Elapsed(points))
    && HoldsSeries(st.rss, points, Rss) && HoldsSeries(st.vram, points, Vram)
  }

  predicate HoldsSeries(s: Series, points: seq<Reading>, q: Quantity) {
    && s.sum == SumReal(Values(points, q))
    && s.min == (if points == [] then None else Some(Minimum(Measures(points, q))))
    && s.max == (if points == [] then None else Some(Maximum(Measures(points, q))))
    && s.numerator == 0.0 && s.denominator == 0.0
  }

  lemma {:induction false} ValuesSnoc(points: seq<Reading>, p: Reading, q: Quantity)
    ensures Values(points + [p], q) == Values(points, q) + [Measure(p, q) as real]
    ensures SumReal(Values(points + [p], q)) == SumReal(Values(points, q)) + Measure(p, q) as real
  {
  }

  lemma {:induction false} ExtremaSnoc(points: seq<Reading>, p: Reading, q: Quantity)
    ensures var y, ys := Measure(p, q), Measures(points + [p], q);
            && Minimum(ys) == (if points == [] then y else MinInt(Minimum(Measures(points, q)), y))
            && Maximum(ys) == (if points == [] then y else MaxInt(Maximum(Measures(points, q)), y))
  {
    var y, ys := Measure(p, q), Measures(points, q);
    assert Measures(points + [p], q) == ys + [y];
    assert DropLast(ys + [y]) == ys;
  }

  lemma {:induction false} WidenStep(s: Series, points: seq<Reading>, p: Reading, q: Quantity)
    requires HoldsSeries(s, points, q)
    ensures HoldsSeries(Widen(s, Measure(p, q)), points + [p], q)
  {
    ValuesSnoc(points, p, q);
    ExtremaSnoc(points, p, q);
  }

  lemma {:induction false} ElapsedSnoc(points: seq<Reading>, p: Reading)
    ensures Elapsed(points + [p]) ==
            Elapsed(points) + [Seconds(p.ns - if points == [] then p.ns else points[0].ns)]
  {
  }

  lemma {:induction false} FirstPassStep(st: TailState, points: seq<Reading>, p: Reading)
    requires HoldsMeans(st, points)
    ensures HoldsMeans(FirstPass(st, p), points + [p])
  {
    WidenStep(st.rss, points, p, Rss);
    WidenStep(st.vram, points, p, Vram);
    ElapsedSnoc(points, p);
    SumRealSnoc(Elapsed(points), Seconds(p.ns - if points == [] then p.ns else points[0].ns));
  }

  lemma {:induction false} MeansAfterFirstPass(start: int, points: seq<Reading>)
    ensures HoldsMeans(Visit(FirstPass, FreshTail(start), points), points)
  {
    if points != [] {
      assert points == DropLast(points) + [Last(points)];
      MeansAfterFirstPass(start, DropLast(points));
      FirstPassStep(Visit(FirstPass, FreshTail(start), DropLast(points)), DropLast(points), Last(points));
    }
  }

  lemma {:induction false} TermsSnoc(term: Term, a: seq<real>, ma: real, b: seq<real>, mb: real, x: real, y: real)
    requires |a| == |b|
    ensures SumOfTerms(term, a + [x], ma, b + [y], mb) == SumOfTerms(term, a, ma, b, mb) + term(x - ma, y - mb)
  {
  }

  /** Sums accumulated over part of the window, about fixed means. */
  predicate HoldsTerms(term: Term, s: Series, part: seq<Reading>, mx: real, my: real, q: Quantity) {
    && s.denominator == SumOfTerms(term, Elapsed(part), mx, Elapsed(part), mx)
    && s.numerator == SumOfTerms(term, Elapsed(part), mx, Values(part, q), my)
  }

  lemma {:induction false} AccumulateStep(
      term: Term, s: Series, part: seq<Reading>, p: Reading, mx: real, my: real, q: Quantity)
    requires HoldsTerms(term, s, part, mx, my, q)
    ensures var x := Seconds(p.ns - if part == [] then p.ns else part[0].ns);
            HoldsTerms(term, Accumulate(term, s, x - mx, Measure(p, q) as real - my), part + [p], mx, my, q)
  {
    var x := Seconds(p.ns - if part == [] then p.ns else part[0].ns);
    var y := Measure(p, q) as real;
    ElapsedSnoc(part, p);
    ValuesSnoc(part, p, q);
    TermsSnoc(term, Elapsed(part), mx, Elapsed(part), mx, x, x);
    TermsSnoc(term, Elapsed(part), mx, Values(part, q), my, x, y);
  }

  /** What the second pass keeps fixed while it accumulates. */
  predicate SameMeans(r: TailState, st: TailState) {
    && r.count == st.count && r.firstNs == st.firstNs && r.xSum == st.xSum
    && r.rss == st.rss.(numerator := r.rss.numerator, denominator := r.rss.denominator)
    && r.vram == st.vram.(numerator := r.vram.numerator, denominator := r.vram.denominator)
  }

  lemma {:induction false} ProductsAfterSecondPass(
    st: TailState, part: seq<Reading>, mx: real, myRss: real, myVram: real)
    requires 2 <= st.count && st.firstNs.Some?
    requires part != [] ==> part[0].ns == st.firstNs.value
    requires st.rss.numerator == st.rss.denominator == st.vram.numerator == st.vram.denominator == 0.0
    requires var n := st.count as real;
             mx == st.xSum / n && myRss == st.rss.sum / n && myVram == st.vram.sum / n
    ensures var r := Visit(SecondPass, st, part);
            SameMeans(r, st) && HoldsTerms(Times, r.rss, part, mx, myRss, Rss) && HoldsTerms(Times, r.vram, part, mx, myVram, Vram)
  {
    if part != [] {
      var init, p := DropLast(part), Last(part);
      assert part == init + [p];
      ProductsAfterSecondPass(st, init, mx, myRss, myVram);
      var r := Visit(SecondPass, st, init);
      AccumulateStep(Times, r.rss, init, p, mx, myRss, Rss);
      AccumulateStep(Times, r.vram, init, p, mx, myVram, Vram);
    }
  }

  // ----- the reported figures -----------------------------------------------

  function BoundSlope(st: TailState, q: Quantity): Option<Slope> {
    var s := SeriesOf(st, q);
    if st.count < 2 then None
    else if s.denominator == 0.0 then Some(Infinite)
    else Some(Finite(s.numerator / s.denominator * 3600.0))
  }

  function BoundGrowth(st: TailState, q: Quantity): int {
    var s := SeriesOf(st, q);
    if 2 <= st.count && s.max.Some? && s.min.Some? then s.max.value - s.min.value else 0
  }

  function BothPasses(start: int, points: seq<Reading>): TailState {
    Visit(SecondPass, Visit(FirstPass, FreshTail(start), points), points)
  }

  lemma {:induction false} SecondPassIdle(st: TailState, points: seq<Reading>)
    requires st.count < 2
    ensures Visit(SecondPass, st, points) == st
  {
    if points != [] { SecondPassIdle(st, DropLast(points)); }
  }

  /** The statistics after both passes, in the terms of the list formula. */
  lemma {:induction false} BothPassesHold(start: int, points: seq<Reading>)
    requires 2 <= |points|
    ensures var r := BothPasses(start, points);
            && r.count == |points|
            && HoldsTerms(Times, r.rss, points, Mean(Elapsed(points)), Mean(Values(points, Rss)), Rss)
            && HoldsTerms(Times, r.vram, points, Mean(Elapsed(points)), Mean(Values(points, Vram)), Vram)
            && r.rss.min == Some(Minimum(Measures(points, Rss))) && r.rss.max == Some(Maximum(Measures(points, Rss)))
            && r.vram.min == Some(Minimum(Measures(points, Vram))) && r.vram.max == Some(Maximum(Measures(points, Vram)))
  {
    var first := Visit(FirstPass, FreshTail(start), points);
    MeansAfterFirstPass(start, points);
    ProductsAfterSecondPass(
      first, points, Mean(Elapsed(points)), Mean(Values(points, Rss)), Mean(Values(points, Vram)));
  }

  lemma {:induction false} FewPoints(start: int, points: seq<Reading>)
    requires |points| < 2
    ensures BothPasses(start, points).count == |points|
  {
    MeansAfterFirstPass(start, points);
    SecondPassIdle(Visit(FirstPass, FreshTail(start), points), points);
  }

  lemma {:induction false} SlopeFromSeries(r: TailState, points: seq<Reading>, q: Quantity)
    requires 2 <= |points| == r.count
    requires HoldsTerms(Times, SeriesOf(r, q), points, Mean(Elapsed(points)), Mean(Values(points, q)), q)
    ensures BoundSlope(r, q) == TailSlope(points, q)
  {
  }

  /** The two passes over a window report the growth and the least-squares slope
      that the list formula gives on that window. */
  lemma {:induction false} PassesComputeTail(start: int, points: seq<Reading>, q: Quantity)
    ensures BoundGrowth(BothPasses(start, points), q) == Growth(points, q)
    ensures BoundSlope(BothPasses(start, points), q) == TailSlope(points, q)
    ensures BothPasses(start, points).count == |points|
  {
    if |points| < 2 {
      FewPoints(start, points);
    } else {
      BothPassesHold(start, points);
      SlopeFromSeries(BothPasses(start, points), points, q);
    }
  }

  // ----- the infinite slope is unreachable ----------------------------------

  ghost predicate PositiveOffZero(term: Term) {
    forall d: real :: 0.0 <= term(d, d) && (d != 0.0 ==> 0.0 < term(d, d))
  }

  lemma {:induction false} TermsVanishOnlyAtMean(term: Term, x: seq<real>, mx: real, i: nat)
    requires PositiveOffZero(term) && i < |x|
    ensures 0.0 <= SumOfTerms(term, x, mx, x, mx)
    ensures x[i] != mx ==> 0.0 < SumOfTerms(term, x, mx, x, mx)
  {
    if 1 < |x| {
      TermsVanishOnlyAtMean(term, DropLast(x), mx, if i < |x| - 1 then i else 0);
    }
  }

  /** Strictly increasing sample times give a regression denominator above zero,
      so the slope of two or more samples is always a number. */
  lemma {:induction false} IncreasingTimesGiveFiniteSlope(points: seq<Reading>, q: Quantity)
    requires 2 <= |points|
    requires forall i, j :: 0 <= i < j < |points| ==> points[i].ns < points[j].ns
    ensures SlopePerHour(points, q).Finite?
  {
    var x := Elapsed(points);
    var mx := Mean(x);
    assert x[0] < x[1];
    assert PositiveOffZero(Times);
    TermsVanishOnlyAtMean(Times, x, mx, if x[0] == mx then 1 else 0);
  }
}
