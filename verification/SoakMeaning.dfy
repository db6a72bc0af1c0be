/** What a passing soak report says of the events, check by check, without the
    checker's own measures. */
module SoakMeaning {
  import opened Sequences
  import opened SoakEvents
  import opened SoakBatch
  import opened SoakRegression
  import opened SoakGuarantees
  import opened SoakAgreement

  // ----- the selections ---------------------------------------------------------------

  /** `out` lists the picks of `es` at the ascending positions `at`, and no pick is
      left out. */
  ghost predicate Lists<T(!new), U(!new)>(pick: T -> Option<U>, es: seq<T>, out: seq<U>, at: seq<int>) {
    && |at| == |out|
    && (forall j :: 0 <= j < |at| ==> 0 <= at[j] < |es| && pick(es[at[j]]) == Some(out[j]))
    && (forall j, k :: 0 <= j < k < |at| ==> at[j] < at[k])
    && (forall i :: 0 <= i < |es| && pick(es[i]).Some? ==> i in at)
  }

  lemma {:induction false} CollectLists<T(!new), U(!new)>(pick: T -> Option<U>, es: seq<T>) returns (at: seq<int>)
    ensures Lists(pick, es, Collect(pick, es), at)
  {
    at := [];
    if es != [] {
      var front, e := DropLast(es), Last(es);
      at := CollectLists(pick, front);
      if pick(e).Some? {
        at := Listed(pick, front, Collect(pick, front), at, e);
      } else {
        NotListed(pick, front, Collect(pick, front), at, e);
      }
      assert es == front + [e];
    }
  }

  lemma {:induction false} Listed<T(!new), U(!new)>(
      pick: T -> Option<U>, front: seq<T>, out: seq<U>, before: seq<int>, e: T) returns (at: seq<int>)
    requires Lists(pick, front, out, before) && pick(e).Some?
    ensures Lists(pick, front + [e], out + [pick(e).value], at)
  {
    var es := front + [e];
    at := before + [|front|];
    forall i | 0 <= i < |es| && pick(es[i]).Some? ensures i in at {
      if i < |front| { assert i in before; } else { assert at[|before|] == i; }
    }
  }

  lemma {:induction false} NotListed<T(!new), U(!new)>(
      pick: T -> Option<U>, front: seq<T>, out: seq<U>, at: seq<int>, e: T)
    requires Lists(pick, front, out, at) && pick(e).None?
    ensures Lists(pick, front + [e], out, at)
  {
  }

  function Tagged(tag: Option<ScenarioId>): Event -> Option<Event> {
    (e: Event) => if e.tag == tag then Some(e) else None
  }

  /** The events of a scenario are the rows with its tag, in order. */
  lemma {:induction false} WithTagLists(rows: seq<Event>, tag: Option<ScenarioId>) returns (at: seq<int>)
    ensures Lists(Tagged(tag), rows, WithTag(rows, tag), at)
  {
    WithTagCollects(rows, tag);
    at := CollectLists(Tagged(tag), rows);
  }

  lemma {:induction false} WithTagCollects(rows: seq<Event>, tag: Option<ScenarioId>)
    ensures WithTag(rows, tag) == Collect(Tagged(tag), rows)
  {
    if rows != [] { WithTagCollects(DropLast(rows), tag); }
  }

  lemma {:induction false} NoneListed<T(!new), U(!new)>(pick: T -> Option<U>, es: seq<T>)
    ensures Collect(pick, es) == [] <==> forall i :: 0 <= i < |es| ==> pick(es[i]).None?
  {
    var at := CollectLists(pick, es);
    if Collect(pick, es) != [] {
      assert pick(es[at[0]]).Some?;
    } else {
      forall i | 0 <= i < |es| ensures pick(es[i]).None? { assert i !in at; }
    }
  }

  lemma {:induction false} KindsCount(es: seq<Event>)
    ensures Kinds(es)[KScenarioStart] == |Openings(es)| && Kinds(es)[KScenarioEnd] == |ClosingTimes(es)|
  {
    if es != [] {
      KindsCount(DropLast(es));
      KindOfLast(DropLast(es), Last(es));
      assert es == DropLast(es) + [Last(es)];
    }
  }

  lemma {:induction false} KindOfLast(front: seq<Event>, e: Event)
    ensures Kinds(front + [e])[KScenarioStart] == Kinds(front)[KScenarioStart] + if e.body.ScenarioStart? then 1 else 0
    ensures Kinds(front + [e])[KScenarioEnd] == Kinds(front)[KScenarioEnd] + if e.body.ScenarioEnd? then 1 else 0
    ensures |Openings(front + [e])| == |Openings(front)| + if e.body.ScenarioStart? then 1 else 0
    ensures |ClosingTimes(front + [e])| == |ClosingTimes(front)| + if e.body.ScenarioEnd? then 1 else 0
  {
    assert Kinds(front + [e]) == Kinds(front) + multiset{KindOf(e)};
    CollectSnoc(AsOpening, front, e);
    CollectSnoc(AsClosingNs, front, e);
  }

  // ----- the tail ---------------------------------------------------------------------

  /** The least whole number that is at least two and at least the fraction of `n`. */
  predicate RoundedUp(n: nat, fraction: real, count: int) {
    2 <= count && n as real * fraction <= count as real && (count == 2 || (count - 1) as real < n as real * fraction)
  }

  lemma {:induction false} TailCountIs(n: nat, fraction: real, c: int)
    ensures TailCount(n, fraction) == c <==> RoundedUp(n, fraction, c)
  {
    CeilIs(n as real * fraction, c);
  }

  lemma {:induction false} CeilIs(x: real, c: int)
    ensures MaxInt(2, CeilReal(x)) == c <==> 2 <= c && x <= c as real && (c == 2 || (c - 1) as real < x)
  {
  }

  /** `b` is the slope of the only line that fits the readings best. */
  ghost predicate FitsBest(points: seq<Reading>, q: Quantity, x: seq<real>, y: seq<real>, a: real, b: real) {
    && AreCoordinates(points, q, x, y)
    && forall a2, b2 {:trigger SumOfSquares(x, y, a2, b2)} ::
         && SumOfSquares(x, y, a, b) <= SumOfSquares(x, y, a2, b2)
         && (b2 != b ==> SumOfSquares(x, y, a, b) < SumOfSquares(x, y, a2, b2))
  }

  /** There is such a line and it rises by at most `limit` an hour. */
  ghost predicate RisesAtMost(points: seq<Reading>, q: Quantity, limit: real) {
    exists x, y, a, b :: FitsBest(points, q, x, y, a, b) && b * 3600.0 <= limit
  }

  lemma {:induction false} FlatSquares(x: seq<real>, y: seq<real>, a: real, b: real, c: real)
    requires |x| == |y| && forall i :: 0 <= i < |x| ==> x[i] == 0.0
    ensures SumOfSquares(x, y, a, b) == SumOfSquares(x, y, a, c)
  {
    if x != [] { FlatSquares(DropLast(x), DropLast(y), a, b, c); }
  }

  lemma {:induction false} BestFitIsSlope(points: seq<Reading>, q: Quantity, x: seq<real>, y: seq<real>, a: real, b: real)
    requires 2 <= |points| && FitsBest(points, q, x, y, a, b)
    ensures SlopePerHour(points, q).Finite? && SlopePerHour(points, q).perHour == b * 3600.0
  {
    SlopeIsAbsentIff(points, q);
    if SlopePerHour(points, q) == Infinite {
      FlatSquares(x, y, a, b, b + 1.0);
    } else {
      var a2 := SlopeIsLeastSquares(points, q, x, y);
      var b2 := SlopePerHour(points, q).perHour / 3600.0;
      assert SumOfSquares(x, y, a2, b2) <= SumOfSquares(x, y, a, b) <= SumOfSquares(x, y, a2, b2);
      assert b2 == b;
    }
  }

  lemma {:induction false} SlopeWithinIff(tail: seq<Reading>, q: Quantity, limit: real)
    ensures SlopeWithin(TailSlope(tail, q), limit) <==> 2 <= |tail| && RisesAtMost(tail, q, limit)
  {
    if SlopeWithin(TailSlope(tail, q), limit) {
      var x, y := Elapsed(tail), Values(tail, q);
      var b := SlopePerHour(tail, q).perHour / 3600.0;
      var a := SlopeIsLeastSquares(tail, q, x, y);
      assert FitsBest(tail, q, x, y, a, b) && b * 3600.0 <= limit;
    }
    if 2 <= |tail| && RisesAtMost(tail, q, limit) {
      var x, y, a, b :| FitsBest(tail, q, x, y, a, b) && b * 3600.0 <= limit;
      BestFitIsSlope(tail, q, x, y, a, b);
    }
  }

  lemma {:induction false} GrowthIsSpread(tail: seq<Reading>, q: Quantity, limit: real)
    requires 2 <= |tail|
    ensures Growth(tail, q) as real <= limit <==>
            forall i, j :: 0 <= i < |tail| && 0 <= j < |tail| ==> (Amount(tail[i], q) - Amount(tail[j], q)) as real <= limit
  {
    var s := Measures(tail, q);
    assert forall i :: 0 <= i < |tail| ==> s[i] == Amount(tail[i], q) && s[i] in s;
    var high :| 0 <= high < |s| && s[high] == Maximum(s);
    var low :| 0 <= low < |s| && s[low] == Minimum(s);
    forall i, j | 0 <= i < |tail| && 0 <= j < |tail|
      ensures (Amount(tail[i], q) - Amount(tail[j], q)) <= Growth(tail, q)
    {
      assert s[i] in s && s[j] in s;
    }
    assert Amount(tail[high], q) - Amount(tail[low], q) == Growth(tail, q);
  }

  /** Resident memory or device memory. */
  function Amount(r: Reading, q: Quantity): int {
    match q case Rss => r.body.rss case Vram => r.body.vram
  }

  // ----- one scenario --------------------------------------------------------------------

  /** One start, with the mode of the manifest, and one end, which reports success. */
  predicate RunsOnce(sc: Scenario, es: seq<Event>) {
    && |Openings(es)| == 1 && |ClosingTimes(es)| == 1 && es != [] && es[0].body.ScenarioStart?
    && (es[|es| - 1].body == ScenarioEnd(Succeeded) || es[|es| - 1].body == RunEnd(Succeeded))
    && Openings(es)[0].mode == sc.mode
  }

  /** Counters of one process never fall. */
  predicate CountersNeverFall(samples: seq<Reading>) {
    forall i :: 1 <= i < |samples| && samples[i - 1].body.pid == samples[i].body.pid ==>
      && samples[i - 1].body.counters.cancellations <= samples[i].body.counters.cancellations
      && samples[i - 1].body.counters.disconnects <= samples[i].body.counters.disconnects
      && samples[i - 1].body.counters.overloads <= samples[i].body.counters.overloads
      && samples[i - 1].body.counters.dropped <= samples[i].body.counters.dropped
  }

  /** The readings begin and end within the tolerance of the required duration. */
  predicate Covered(th: Thresholds, durationSeconds: int, samples: seq<Reading>) {
    var span := if |samples| < 2 then 0 else samples[|samples| - 1].ns - samples[0].ns;
    && 0 <= span
    && ((durationSeconds * 1000 - th.maximumSampleGapMs) * 1000000 <= span
        || (durationSeconds * 1000 - 2 * th.sampleIntervalMs) * 1000000 <= span)
  }

  /** Neighbouring readings are close, unless a restart lies between them. */
  predicate NoLongGap(th: Thresholds, samples: seq<Reading>, restarts: seq<int>) {
    0 <= th.maximumSampleGapMs && forall i :: 1 <= i < |samples| ==> CloseAt(samples, restarts, th.maximumSampleGapMs, i)
  }

  /** A restart lies between the reading and the one before. */
  predicate Explained(samples: seq<Reading>, restarts: seq<int>, i: nat)
    requires 1 <= i < |samples|
  {
    exists k :: 0 <= k < |restarts| && samples[i - 1].ns < restarts[k] < samples[i].ns
  }

  predicate CloseAt(samples: seq<Reading>, restarts: seq<int>, gapMs: int, i: nat)
    requires 1 <= i < |samples|
  {
    Explained(samples, restarts, i) || samples[i].ns - samples[i - 1].ns <= gapMs * 1000000
  }

  /** Over the last readings neither quantity spreads or rises too far. */
  ghost predicate Level(th: Thresholds, tail: seq<Reading>) {
    && 2 <= |tail|
    && (forall i, j :: 0 <= i < |tail| && 0 <= j < |tail| ==> tail[i].body.rss - tail[j].body.rss <= th.maximumRssGrowth)
    && (forall i, j :: 0 <= i < |tail| && 0 <= j < |tail| ==>
          (tail[i].body.vram - tail[j].body.vram) as real <= th.maximumVramGrowth)
    && RisesAtMost(tail, Rss, th.maximumRssSlope) && RisesAtMost(tail, Vram, th.maximumVramSlope)
  }

  /** The last `count` readings, where `count` is at least two and the fraction rounded up. */
  ghost predicate LevelAtEnd(th: Thresholds, samples: seq<Reading>) {
    exists count :: RoundedUp(|samples|, th.plateauTailFraction, count) && Level(th, LastOnes(samples, count))
  }

  function LastOnes(samples: seq<Reading>, count: int): seq<Reading> {
    if |samples| <= count || count < 0 then samples else samples[|samples| - count..]
  }

  predicate OutcomeExpected(kind: ScenarioKind, o: Outcome) {
    || (kind == InvalidInput && o == Invalid)
    || (kind == OverloadBurst && (o == Success || o == Overload))
    || (kind == CancellationDisconnect && (o == Success || o == Cancelled || o == Disconnected))
    || (kind != InvalidInput && kind != OverloadBurst && kind != CancellationDisconnect && o == Success)
  }

  /** Some request succeeded, and every one that did generated the golden text. */
  predicate OnlyGolden(m: Manifest, requests: seq<RequestBody>) {
    && (exists r :: r in requests && r.outcome == Success)
    && forall r :: r in requests && r.outcome == Success ==> r.generated == Some(m.goldenSha256)
  }

  ghost predicate ScenarioPasses(m: Manifest, sc: Scenario, es: seq<Event>) {
    var th, samples, requests := m.thresholds, Readings(es), Requests(es);
    && RunsOnce(sc, es) && CountersNeverFall(samples)
    && th.minimumSamples <= |samples| && requests != []
    && sc.durationSeconds * 1000000000 <= ClosingTimes(es)[0] - Openings(es)[0].ns
    && Covered(th, sc.durationSeconds, samples) && NoLongGap(th, samples, RestartTimes(es))
    && LevelAtEnd(th, samples)
    && (forall r :: r in requests ==> OutcomeExpected(sc.kind, r.outcome))
    && (sc.profile == m.goldenProfile && (sc.secondaryProfile == None || sc.secondaryProfile == Some(m.goldenProfile)) ==>
          OnlyGolden(m, requests))
  }

  lemma {:induction false} ShapeIff(m: Manifest, sc: Scenario, es: seq<Event>)
    ensures AllPassed(ShapeChecks(m, sc, es)) <==>
            && RunsOnce(sc, es) && CountersNeverFall(Readings(es))
            && m.thresholds.minimumSamples <= |Readings(es)| && Requests(es) != []
  {
    KindsCount(es);
    MonotoneIff(Readings(es));
    var c := ShapeChecks(m, sc, es);
    assert AllPassed(c) <==> c[0].passed && c[1].passed && c[2].passed && c[3].passed && c[4].passed;
  }

  lemma {:induction false} MonotoneIff(samples: seq<Reading>)
    ensures CountersMonotonic(samples) <==> CountersNeverFall(samples)
  {
    if CountersNeverFall(samples) {
      forall i | 1 <= i < |samples| && samples[i].body.pid == samples[i - 1].body.pid
        ensures CountersRose(samples[i - 1].body.counters, samples[i].body.counters)
      {
      }
    }
    if CountersMonotonic(samples) {
      assert forall i :: 1 <= i < |samples| && samples[i].body.pid == samples[i - 1].body.pid ==>
               CountersRose(samples[i - 1].body.counters, samples[i].body.counters);
    }
  }

  lemma {:induction false} LargestWithin(values: seq<real>, limit: real)
    ensures Largest(values) <= limit <==> 0.0 <= limit && forall i :: 0 <= i < |values| ==> values[i] <= limit
  {
    if values != [] { LargestWithin(DropLast(values), limit); }
  }

  lemma {:induction false} GapsWithin(samples: seq<Reading>, restarts: seq<int>, gapMs: int)
    ensures (forall i :: 0 <= i < |Gaps(samples, restarts)| ==> Gaps(samples, restarts)[i] <= gapMs as real) <==>
            forall i :: 1 <= i < |samples| ==> CloseAt(samples, restarts, gapMs, i)
  {
    if 2 <= |samples| {
      var front, n := DropLast(samples), |samples|;
      GapsWithin(front, restarts, gapMs);
      LastGap(Gaps(front, restarts), Gaps(samples, restarts), gapMs as real);
      LastPair(samples, restarts, gapMs);
      CloseIff(samples, restarts, gapMs);
    }
  }

  lemma {:induction false} CrossedIff(samples: seq<Reading>, restarts: seq<int>)
    requires 2 <= |samples|
    ensures Crossed(samples[|samples| - 2].ns, samples[|samples| - 1].ns, restarts) <==>
            Explained(samples, restarts, |samples| - 1)
  {
    var left, right := samples[|samples| - 2].ns, samples[|samples| - 1].ns;
    if t :| t in restarts && left < t < right {
      var k :| 0 <= k < |restarts| && restarts[k] == t;
    }
    if k :| 0 <= k < |restarts| && left < restarts[k] < right { assert restarts[k] in restarts; }
  }

  lemma {:induction false} CloseIff(samples: seq<Reading>, restarts: seq<int>, gapMs: int)
    requires 2 <= |samples|
    ensures var left, right := samples[|samples| - 2].ns, samples[|samples| - 1].ns;
            CloseAt(samples, restarts, gapMs, |samples| - 1) <==>
            Crossed(left, right, restarts) || Milliseconds(right - left) <= gapMs as real
  {
    CrossedIff(samples, restarts);
  }

  lemma {:induction false} LastGap(before: seq<real>, all: seq<real>, limit: real)
    requires before <= all && |all| <= |before| + 1
    ensures (forall i :: 0 <= i < |all| ==> all[i] <= limit) <==>
            (forall i :: 0 <= i < |before| ==> before[i] <= limit) && (|before| < |all| ==> all[|before|] <= limit)
  {
    assert before == all[..|before|];
    assert forall i :: 0 <= i < |before| ==> before[i] == all[i];
  }

  lemma {:induction false} LastPair(samples: seq<Reading>, restarts: seq<int>, gapMs: int)
    requires 2 <= |samples|
    ensures (forall i :: 1 <= i < |samples| ==> CloseAt(samples, restarts, gapMs, i)) <==>
            && (forall i :: 1 <= i < |samples| - 1 ==> CloseAt(DropLast(samples), restarts, gapMs, i))
            && CloseAt(samples, restarts, gapMs, |samples| - 1)
  {
    var front := DropLast(samples);
    forall i | 1 <= i < |front| ensures CloseAt(front, restarts, gapMs, i) <==> CloseAt(samples, restarts, gapMs, i) {
      assert front[i] == samples[i] && front[i - 1] == samples[i - 1];
    }
  }

  // ----- the checks of a scenario ---------------------------------------------------------

  lemma {:induction false} SecondsAtLeast(durationSeconds: int, ns: int)
    ensures durationSeconds as real <= Seconds(ns) <==> durationSeconds * 1000000000 <= ns
  {
  }

  lemma {:induction false} CoveredIff(th: Thresholds, durationSeconds: int, samples: seq<Reading>)
    ensures RequiredSpanSeconds(th, durationSeconds) <= SampleSpan(samples) <==> Covered(th, durationSeconds, samples)
  {
  }

  lemma {:induction false} GapIff(th: Thresholds, samples: seq<Reading>, restarts: seq<int>)
    ensures Largest(Gaps(samples, restarts)) <= th.maximumSampleGapMs as real <==> NoLongGap(th, samples, restarts)
  {
    LargestWithin(Gaps(samples, restarts), th.maximumSampleGapMs as real);
    GapsWithin(samples, restarts, th.maximumSampleGapMs);
  }

  lemma {:induction false} ThreeChecks(c: seq<Check>)
    requires |c| == 3
    ensures AllPassed(c) <==> c[0].passed && c[1].passed && c[2].passed
  {
  }

  lemma {:induction false} TimingIff(m: Manifest, sc: Scenario, es: seq<Event>)
    requires |Openings(es)| == 1 && |ClosingTimes(es)| == 1
    ensures AllPassed(TimingChecks(m, sc, es)) <==>
            && sc.durationSeconds * 1000000000 <= ClosingTimes(es)[0] - Openings(es)[0].ns
            && Covered(m.thresholds, sc.durationSeconds, Readings(es))
            && NoLongGap(m.thresholds, Readings(es), RestartTimes(es))
  {
    SecondsAtLeast(sc.durationSeconds, ClosingTimes(es)[0] - Openings(es)[0].ns);
    CoveredIff(m.thresholds, sc.durationSeconds, Readings(es));
    GapIff(m.thresholds, Readings(es), RestartTimes(es));
    ThreeChecks(TimingChecks(m, sc, es));
  }

  lemma {:induction false} WholeGrowth(tail: seq<Reading>, q: Quantity, limit: int)
    requires 2 <= |tail|
    ensures Growth(tail, q) <= limit <==>
            forall i, j :: 0 <= i < |tail| && 0 <= j < |tail| ==> Amount(tail[i], q) - Amount(tail[j], q) <= limit
  {
    GrowthIsSpread(tail, q, limit as real);
    assert Growth(tail, q) <= limit <==> Growth(tail, q) as real <= limit as real;
    assert forall i, j :: 0 <= i < |tail| && 0 <= j < |tail| ==>
             (Amount(tail[i], q) - Amount(tail[j], q) <= limit <==> (Amount(tail[i], q) - Amount(tail[j], q)) as real <= limit as real);
  }

  lemma {:induction false} LevelIff(th: Thresholds, id: ScenarioId, tail: seq<Reading>)
    ensures AllPassed(PlateauChecks(th, id, PlateauOf(tail))) <==> Level(th, tail)
  {
    var c := PlateauChecks(th, id, PlateauOf(tail));
    assert AllPassed(c) <==> c[0].passed && c[1].passed && c[2].passed && c[3].passed;
    SlopeWithinIff(tail, Rss, th.maximumRssSlope);
    SlopeWithinIff(tail, Vram, th.maximumVramSlope);
    if 2 <= |tail| {
      WholeGrowth(tail, Rss, th.maximumRssGrowth);
      GrowthIsSpread(tail, Vram, th.maximumVramGrowth);
    }
  }

  lemma {:induction false} PlateauIff(m: Manifest, sc: Scenario, es: seq<Event>)
    ensures AllPassed(PlateauChecks(m.thresholds, sc.id, PlateauOf(PlateauTail(m, es)))) <==>
            LevelAtEnd(m.thresholds, Readings(es))
  {
    var th, samples := m.thresholds, Readings(es);
    var n := TailCount(|samples|, th.plateauTailFraction);
    LevelIff(th, sc.id, PlateauTail(m, es));
    forall count ensures RoundedUp(|samples|, th.plateauTailFraction, count) <==> count == n {
      TailCountIs(|samples|, th.plateauTailFraction, count);
    }
    assert PlateauTail(m, es) == LastOnes(samples, n);
  }

  lemma {:induction false} AllowedIff(kind: ScenarioKind, o: Outcome)
    ensures o in AllowedOutcomes(kind) <==> OutcomeExpected(kind, o)
  {
  }

  lemma {:induction false} NoneUnexpected(requests: seq<RequestBody>, kind: ScenarioKind)
    ensures Outcomes(UnexpectedRequests(requests, AllowedOutcomes(kind))) == multiset{} <==>
            forall r :: r in requests ==> OutcomeExpected(kind, r.outcome)
  {
    if requests != [] {
      var front, r := DropLast(requests), Last(requests);
      NoneUnexpected(front, kind);
      AllowedIff(kind, r.outcome);
      OneMoreUnexpected(UnexpectedRequests(front, AllowedOutcomes(kind)), r);
      AllOfFrontAndLast(requests, kind);
    }
  }

  lemma {:induction false} AllOfFrontAndLast(requests: seq<RequestBody>, kind: ScenarioKind)
    requires requests != []
    ensures (forall r :: r in requests ==> OutcomeExpected(kind, r.outcome)) <==>
            && (forall r :: r in DropLast(requests) ==> OutcomeExpected(kind, r.outcome))
            && OutcomeExpected(kind, Last(requests).outcome)
  {
    assert requests == DropLast(requests) + [Last(requests)];
  }

  lemma {:induction false} OneMoreUnexpected(before: seq<RequestBody>, r: RequestBody)
    ensures Outcomes(before + [r]) != multiset{} && before + [] == before
  {
    assert r.outcome in Outcomes(before + [r]);
  }

  lemma {:induction false} GoldenIff(m: Manifest, requests: seq<RequestBody>)
    ensures SuccessHashes(requests) == {Some(m.goldenSha256)} <==> OnlyGolden(m, requests)
  {
    var hashes := SuccessHashes(requests);
    if hashes == {Some(m.goldenSha256)} {
      assert Some(m.goldenSha256) in hashes;
      forall r | r in requests && r.outcome == Success ensures r.generated == Some(m.goldenSha256) { assert r.generated in hashes; }
    }
    if OnlyGolden(m, requests) {
      var r :| r in requests && r.outcome == Success;
      assert r.generated in hashes;
    }
  }

  lemma {:induction false} OutcomeIff(m: Manifest, sc: Scenario, requests: seq<RequestBody>)
    ensures AllPassed(OutcomeChecks(m, sc, requests)) <==>
            && (forall r :: r in requests ==> OutcomeExpected(sc.kind, r.outcome))
            && (sc.profile == m.goldenProfile && (sc.secondaryProfile == None || sc.secondaryProfile == Some(m.goldenProfile)) ==>
                  OnlyGolden(m, requests))
  {
    NoneUnexpected(requests, sc.kind);
    GoldenIff(m, requests);
    var c := OutcomeChecks(m, sc, requests);
    assert AllPassed(c) <==> c[0].passed && (|c| == 2 ==> c[1].passed);
  }

  /** All checks of a scenario, written out. */
  lemma {:induction false} ScenarioPassesIff(m: Manifest, sc: Scenario, es: seq<Event>)
    ensures AllPassed(ScenarioChecks(m, sc, es, PlateauOf(PlateauTail(m, es)))) <==> ScenarioPasses(m, sc, es)
  {
    var p := PlateauOf(PlateauTail(m, es));
    var a, b, c, d := ShapeChecks(m, sc, es), TimingChecks(m, sc, es), PlateauChecks(m.thresholds, sc.id, p),
      OutcomeChecks(m, sc, Requests(es));
    AllPassedAppend(a + b + c, d);
    AllPassedAppend(a + b, c);
    AllPassedAppend(a, b);
    ShapeIff(m, sc, es);
    if RunsOnce(sc, es) { TimingIff(m, sc, es); }
    PlateauIff(m, sc, es);
    OutcomeIff(m, sc, Requests(es));
  }

  // ----- the checks of the whole run ---------------------------------------------------------

  /** One row satisfies `p`, and no other does. */
  ghost predicate OnlyRow(rows: seq<Event>, p: Event -> bool) {
    exists i :: 0 <= i < |rows| && p(rows[i]) && forall j :: 0 <= j < |rows| && p(rows[j]) ==> j == i
  }

  function Count(rows: seq<Event>, p: Event -> bool): nat {
    if rows == [] then 0 else Count(DropLast(rows), p) + if p(Last(rows)) then 1 else 0
  }

  lemma {:induction false} NoneCounted(rows: seq<Event>, p: Event -> bool)
    ensures Count(rows, p) == 0 <==> forall i :: 0 <= i < |rows| ==> !p(rows[i])
  {
    if rows != [] { NoneCounted(DropLast(rows), p); }
  }

  lemma {:induction false} OneCounted(rows: seq<Event>, p: Event -> bool)
    ensures Count(rows, p) == 1 <==> OnlyRow(rows, p)
  {
    if rows != [] {
      NoneCounted(DropLast(rows), p);
      OneCounted(DropLast(rows), p);
      if p(Last(rows)) { OnlyTheLast(rows, p); } else { OnlyBefore(rows, p); }
    }
  }

  lemma {:induction false} OnlyTheLast(rows: seq<Event>, p: Event -> bool)
    requires rows != [] && p(Last(rows))
    ensures OnlyRow(rows, p) <==> forall i :: 0 <= i < |rows| - 1 ==> !p(rows[i])
  {
    var n := |rows| - 1;
    if forall i :: 0 <= i < n ==> !p(rows[i]) {
      assert p(rows[n]) && forall j :: 0 <= j < |rows| && p(rows[j]) ==> j == n;
    }
  }

  lemma {:induction false} OnlyBefore(rows: seq<Event>, p: Event -> bool)
    requires rows != [] && !p(Last(rows))
    ensures OnlyRow(rows, p) <==> OnlyRow(DropLast(rows), p)
  {
    var front := DropLast(rows);
    if i :| 0 <= i < |front| && p(front[i]) && forall j :: 0 <= j < |front| && p(front[j]) ==> j == i {
      assert p(rows[i]) && forall j :: 0 <= j < |rows| && p(rows[j]) ==> j == i;
    }
    if i :| 0 <= i < |rows| && p(rows[i]) && forall j :: 0 <= j < |rows| && p(rows[j]) ==> j == i {
      assert p(front[i]) && forall j :: 0 <= j < |front| && p(front[j]) ==> j == i;
    }
  }

  lemma {:induction false} KindCounted(rows: seq<Event>, k: Kind, p: Event -> bool)
    requires forall e :: p(e) <==> KindOf(e) == k
    ensures Kinds(rows)[k] == Count(rows, p)
  {
    if rows != [] { KindCounted(DropLast(rows), k, p); }
  }

  lemma {:induction false} CollectCounted<U(!new)>(pick: Event -> Option<U>, rows: seq<Event>, p: Event -> bool)
    requires forall e :: p(e) <==> pick(e).Some?
    ensures |Collect(pick, rows)| == Count(rows, p)
  {
    if rows != [] { CollectCounted(pick, DropLast(rows), p); }
  }

  function IsStart(): Event -> bool { (e: Event) => e.body.RunStart? }
  function IsEnd(): Event -> bool { (e: Event) => e.body.RunEnd? }
  function IsFinal(): Event -> bool { (e: Event) => e.tag.None? && e.body.Sample? }
  function IsRestart(): Event -> bool { (e: Event) => e.body.Restart? }

  /** The run begins once, and ends once with success. */
  ghost predicate RunsThrough(rows: seq<Event>)
    requires rows != []
  {
    && OnlyRow(rows, IsStart()) && OnlyRow(rows, IsEnd())
    && (rows[|rows| - 1].body == RunEnd(Succeeded) || rows[|rows| - 1].body == ScenarioEnd(Succeeded))
  }

  lemma {:induction false} RunsThroughIff(rows: seq<Event>)
    requires rows != []
    ensures BoundaryCheck(rows).passed <==> RunsThrough(rows)
  {
    KindCounted(rows, KRunStart, IsStart());
    KindCounted(rows, KRunEnd, IsEnd());
    OneCounted(rows, IsStart());
    OneCounted(rows, IsEnd());
  }

  /** Nothing is left: no process, memory, descriptor, request, block or allocation. */
  predicate Empty(s: SampleBody) {
    && s.pid == 0 && s.rss == 0 && s.hwm == 0 && s.fds == 0 && s.threads == 0 && s.children == [] && s.vram == 0
    && s.active == 0 && s.waiting == 0 && s.kvBlocks == 0
    && s.allocation.deviceCount == 0 && s.allocation.deviceBytes == 0
    && s.allocation.pinnedCount == 0 && s.allocation.pinnedBytes == 0
  }

  /** The only sample outside the scenarios is the last row but one, and finds nothing left. */
  ghost predicate EndsEmpty(rows: seq<Event>) {
    && OnlyRow(rows, IsFinal()) && 2 <= |rows|
    && rows[|rows| - 2].tag.None? && rows[|rows| - 2].body.Sample? && Empty(rows[|rows| - 2].body.sample)
  }

  /** The first sample inside a scenario is of the process that the run names. */
  ghost predicate BeginsWith(rows: seq<Event>, pid: int) {
    exists i :: && 0 <= i < |rows| && rows[i].tag.Some? && rows[i].body.Sample? && rows[i].body.sample.pid == pid
                && forall j :: 0 <= j < i ==> !(rows[j].tag.Some? && rows[j].body.Sample?)
  }

  lemma {:induction false} GlobalsAre(rows: seq<Event>)
    ensures |Readings(WithTag(rows, None))| == Count(rows, IsFinal())
  {
    if rows != [] {
      GlobalsAre(DropLast(rows));
      GlobalsSnoc(DropLast(rows), Last(rows));
      WithLast(rows);
    }
  }

  lemma {:induction false} LastGlobal(rows: seq<Event>) returns (i: nat)
    requires Readings(WithTag(rows, None)) != []
    ensures i < |rows| && IsFinal()(rows[i]) && Last(Readings(WithTag(rows, None))).body == rows[i].body.sample
  {
    var front, e := DropLast(rows), Last(rows);
    GlobalsSnoc(front, e);
    WithLast(rows);
    if IsFinal()(e) {
      i := |front|;
    } else {
      i := LastGlobal(front);
      assert rows[i] == front[i];
    }
  }

  lemma {:induction false} GlobalsSnoc(front: seq<Event>, e: Event)
    ensures Readings(WithTag(front + [e], None)) ==
            Readings(WithTag(front, None)) + if IsFinal()(e) then [Reading(e.ns, e.body.sample)] else []
  {
    assert DropLast(front + [e]) == front;
    if e.tag.None? {
      CollectSnoc(AsReading, WithTag(front, None), e);
    } else {
      assert WithTag(front, None) + [] == WithTag(front, None);
    }
  }

  lemma {:induction false} EndsEmptyIff(run: RunInfo, rows: seq<Event>)
    ensures FinalChecks(run, rows)[0].passed && FinalChecks(run, rows)[2].passed <==> EndsEmpty(rows)
  {
    var globals := Readings(WithTag(rows, None));
    GlobalsAre(rows);
    OneCounted(rows, IsFinal());
    if globals != [] { var i := LastGlobal(rows); }
  }

  lemma {:induction false} FirstTagged(rows: seq<Event>, pid: int)
    ensures TaggedReadings(rows) != [] && TaggedReadings(rows)[0].body.pid == pid <==> BeginsWith(rows, pid)
  {
    if rows != [] {
      var front, e, n := DropLast(rows), Last(rows), |rows| - 1;
      FirstTagged(front, pid);
      NoneListed(AsTaggedReading, front);
      if TaggedReadings(front) == [] {
        assert forall j :: 0 <= j < n ==> AsTaggedReading(front[j]).None? && front[j] == rows[j];
      } else {
        var i := FirstTaggedRow(front);
        assert rows[i] == front[i];
        assert forall j :: 0 <= j < |front| ==> front[j] == rows[j];
      }
    }
  }

  lemma {:induction false} FirstTaggedRow(rows: seq<Event>) returns (i: nat)
    requires TaggedReadings(rows) != []
    ensures i < |rows| && rows[i].tag.Some? && rows[i].body.Sample?
  {
    NoneListed(AsTaggedReading, rows);
    i :| 0 <= i < |rows| && AsTaggedReading(rows[i]).Some?;
  }

  /** No sample sees an interpreter or was dropped, and no row reports a failure. */
  predicate Clean(rows: seq<Event>) {
    && (forall i :: 0 <= i < |rows| && rows[i].body.Sample? ==>
          !rows[i].body.sample.dropped && forall c :: c in rows[i].body.sample.children ==> !c.python)
    && forall i :: 0 <= i < |rows| ==> !rows[i].body.FailureNote?
  }

  lemma {:induction false} NoPython(children: seq<Child>)
    ensures PythonChildrenOf(children) == [] <==> forall c :: c in children ==> !c.python
  {
    if children != [] {
      NoPython(DropLast(children));
      assert children == DropLast(children) + [Last(children)];
    }
  }

  predicate CleanSample(r: Reading) { !r.body.dropped && forall c :: c in r.body.children ==> !c.python }

  lemma {:induction false} NoPythonSampled(samples: seq<Reading>)
    ensures PythonChildren(samples) == [] <==>
            forall r :: r in samples ==> forall c :: c in r.body.children ==> !c.python
  {
    if samples != [] {
      var front, r := DropLast(samples), Last(samples);
      NoPythonSampled(front);
      NoPython(r.body.children);
      assert samples == front + [r];
      assert PythonChildren(samples) == [] <==> PythonChildren(front) == [] && PythonChildrenOf(r.body.children) == [];
    }
  }

  lemma {:induction false} SamplesClean(rows: seq<Event>)
    ensures (forall r :: r in Readings(rows) ==> CleanSample(r)) <==>
            forall i :: 0 <= i < |rows| && rows[i].body.Sample? ==> CleanSample(Reading(rows[i].ns, rows[i].body.sample))
  {
    var at := CollectLists(AsReading, rows);
    var out := Readings(rows);
    if forall r :: r in out ==> CleanSample(r) {
      forall i | 0 <= i < |rows| && rows[i].body.Sample? ensures CleanSample(Reading(rows[i].ns, rows[i].body.sample)) {
        assert AsReading(rows[i]).Some? && i in at;
        var j :| 0 <= j < |at| && at[j] == i;
        assert out[j] in out;
      }
    }
    if forall i :: 0 <= i < |rows| && rows[i].body.Sample? ==> CleanSample(Reading(rows[i].ns, rows[i].body.sample)) {
      forall r | r in out ensures CleanSample(r) {
        var j :| 0 <= j < |out| && out[j] == r;
        assert AsReading(rows[at[j]]) == Some(r);
      }
    }
  }

  lemma {:induction false} CleanIff(rows: seq<Event>)
    ensures AllPassed(HygieneChecks(rows)) <==> Clean(rows)
  {
    ThreeChecks(HygieneChecks(rows));
    NoPythonSampled(Readings(rows));
    CleanSamples(Readings(rows));
    SamplesClean(rows);
    NoFailure(rows);
  }

  lemma {:induction false} CleanSamples(samples: seq<Reading>)
    ensures (forall r :: r in samples ==> CleanSample(r)) <==>
            && !(exists r :: r in samples && r.body.dropped)
            && (forall r :: r in samples ==> forall c :: c in r.body.children ==> !c.python)
  {
  }

  lemma {:induction false} NoFailure(rows: seq<Event>)
    ensures Failures(rows) == [] <==> forall i :: 0 <= i < |rows| ==> !rows[i].body.FailureNote?
  {
    NoneListed(AsFailure, rows);
    assert forall i :: 0 <= i < |rows| ==> (AsFailure(rows[i]).None? <==> !rows[i].body.FailureNote?);
  }

  // ----- counters, restart and rollback --------------------------------------------------

  function Reports(o: Outcome): Event -> bool {
    (e: Event) => e.body.Request? && e.body.request.outcome == o
  }

  lemma {:induction false} OutcomesCounted(rows: seq<Event>, o: Outcome)
    ensures Outcomes(Requests(rows))[o] == Count(rows, Reports(o))
  {
    if rows != [] {
      OutcomesCounted(DropLast(rows), o);
      OneMoreOutcome(DropLast(rows), Last(rows), o);
      WithLast(rows);
    }
  }

  lemma {:induction false} WithLast(rows: seq<Event>)
    requires rows != []
    ensures rows == DropLast(rows) + [Last(rows)]
  {
  }

  lemma {:induction false} OneMoreOutcome(front: seq<Event>, e: Event, o: Outcome)
    ensures Outcomes(Requests(front + [e]))[o] == Outcomes(Requests(front))[o] + if Reports(o)(e) then 1 else 0
  {
    CollectSnoc(AsRequest, front, e);
    if e.body.Request? {
      OutcomesSnoc(Requests(front), e.body.request);
    } else {
      assert Requests(front) + [] == Requests(front);
    }
  }

  datatype Service = Cancels | Disconnects | Overloads

  function Counter(c: Counters, which: Service): int {
    match which case Cancels => c.cancellations case Disconnects => c.disconnects case Overloads => c.overloads
  }

  /** Some sample inside a scenario shows the counter at `least` or above. */
  ghost predicate Reached(rows: seq<Event>, which: Service, least: int) {
    least <= 0 || exists i :: 0 <= i < |rows| && rows[i].tag.Some? && rows[i].body.Sample?
                              && least <= Counter(rows[i].body.sample.counters, which)
  }

  lemma {:induction false} MaximaReach(samples: seq<Reading>, which: Service, least: int)
    ensures least <= Counter(ObservedCounter(MaximaOver(None, samples)), which) <==>
            least <= 0 || exists r :: r in samples && least <= Counter(r.body.counters, which)
  {
    if samples != [] {
      var front, r := DropLast(samples), Last(samples);
      MaximaReach(front, which, least);
      assert samples == front + [r];
      assert Counter(ObservedCounter(MaximaOver(None, samples)), which) ==
             MaxInt(Counter(ObservedCounter(MaximaOver(None, front)), which), Counter(r.body.counters, which));
    }
  }

  lemma {:induction false} SampledReach(rows: seq<Event>, which: Service, least: int)
    ensures Reached(rows, which, least) <==>
            least <= 0 || exists r :: r in TaggedReadings(rows) && least <= Counter(r.body.counters, which)
  {
    var at := CollectLists(AsTaggedReading, rows);
    var out := TaggedReadings(rows);
    if r :| r in out && least <= Counter(r.body.counters, which) {
      var j :| 0 <= j < |out| && out[j] == r;
      assert AsTaggedReading(rows[at[j]]) == Some(r);
    }
    if i :| 0 <= i < |rows| && rows[i].tag.Some? && rows[i].body.Sample?
            && least <= Counter(rows[i].body.sample.counters, which) {
      assert AsTaggedReading(rows[i]).Some? && i in at;
      var j :| 0 <= j < |at| && at[j] == i;
      assert out[j] in out;
    }
  }

  lemma {:induction false} ReachedIff(rows: seq<Event>, which: Service, least: int)
    ensures least <= Counter(ObservedCounter(MaximaOver(None, TaggedReadings(rows))), which) <==> Reached(rows, which, least)
  {
    MaximaReach(TaggedReadings(rows), which, least);
    SampledReach(rows, which, least);
  }

  ghost predicate Exercised(th: Thresholds, rows: seq<Event>) {
    && th.minimumCancellations <= Count(rows, Reports(Cancelled))
    && th.minimumDisconnects <= Count(rows, Reports(Disconnected))
    && th.minimumOverloads <= Count(rows, Reports(Overload))
    && Reached(rows, Cancels, th.minimumCancellations) && Reached(rows, Disconnects, th.minimumDisconnects)
    && Reached(rows, Overloads, th.minimumOverloads)
  }

  lemma {:induction false} SixChecks(c: seq<Check>)
    requires |c| == 6
    ensures AllPassed(c) <==> c[0].passed && c[1].passed && c[2].passed && c[3].passed && c[4].passed && c[5].passed
  {
  }

  lemma {:induction false} ExercisedIff(m: Manifest, rows: seq<Event>)
    requires ValidManifest(m) && forall e :: e in rows ==> TagOk(m, e)
    ensures AllPassed(CounterChecks(m.thresholds, OutcomesUpTo(m, rows, |m.scenarios|), MaximaUpTo(m, rows, |m.scenarios|)))
            <==> Exercised(m.thresholds, rows)
  {
    var th := m.thresholds;
    OutcomesOfAllScenarios(m, rows);
    MaximaOfAllScenarios(m, rows);
    OutcomesCounted(rows, Cancelled);
    OutcomesCounted(rows, Disconnected);
    OutcomesCounted(rows, Overload);
    ReachedIff(rows, Cancels, th.minimumCancellations);
    ReachedIff(rows, Disconnects, th.minimumDisconnects);
    ReachedIff(rows, Overloads, th.minimumOverloads);
    SixChecks(CounterChecks(th, OutcomesUpTo(m, rows, |m.scenarios|), MaximaUpTo(m, rows, |m.scenarios|)));
  }

  /** One restart, graceful, in time, and with the golden text before and after. */
  ghost predicate RestartsOnce(m: Manifest, rows: seq<Event>) {
    exists i :: 0 <= i < |rows| && rows[i].body.Restart? && GoodRestart(m, rows[i].body.restart)
                && forall j :: 0 <= j < |rows| && rows[j].body.Restart? ==> j == i
  }

  predicate GoodRestart(m: Manifest, r: RestartBody) {
    && r.graceful && r.exitCode == 0 && r.elapsedMs <= m.thresholds.shutdownDeadlineMs as real
    && r.before == m.goldenSha256 && r.after == m.goldenSha256
  }

  lemma {:induction false} RestartsOnceIff(m: Manifest, rows: seq<Event>)
    ensures |Restarts(rows)| == 1 && RestartParity(m, Restarts(rows)[0]) <==> RestartsOnce(m, rows)
  {
    var at := CollectLists(AsRestart, rows);
    CollectCounted(AsRestart, rows, IsRestart());
    OneCounted(rows, IsRestart());
    if |Restarts(rows)| == 1 {
      var i :| 0 <= i < |rows| && IsRestart()(rows[i]) && forall j :: 0 <= j < |rows| && IsRestart()(rows[j]) ==> j == i;
      assert AsRestart(rows[at[0]]) == Some(Restarts(rows)[0]);
      assert at[0] == i;
      assert forall j :: 0 <= j < |rows| && rows[j].body.Restart? ==> IsRestart()(rows[j]);
    }
    if i :| 0 <= i < |rows| && rows[i].body.Restart? && GoodRestart(m, rows[i].body.restart)
            && forall j :: 0 <= j < |rows| && rows[j].body.Restart? ==> j == i {
      assert IsRestart()(rows[i]);
      assert forall j :: 0 <= j < |rows| && IsRestart()(rows[j]) ==> j == i;
    }
  }

  /** The last rollback scenario with this mode generated only the golden text. */
  ghost predicate RollsBack(m: Manifest, rows: seq<Event>, mode: Mode, n: nat)
    requires n <= |m.scenarios|
  {
    exists k :: && 0 <= k < n && m.scenarios[k].kind == Rollback && m.scenarios[k].mode == mode
                && OnlyGolden(m, Requests(EventsOf(m, rows, k)))
                && forall j :: k < j < n ==> !(m.scenarios[j].kind == Rollback && m.scenarios[j].mode == mode)
  }

  lemma {:induction false} RollsBackIff(m: Manifest, rows: seq<Event>, mode: Mode, n: nat)
    requires n <= |m.scenarios|
    ensures RollbackOf(RollbacksUpTo(m, rows, n), mode) == {Some(m.goldenSha256)} <==> RollsBack(m, rows, mode, n)
  {
    if n != 0 {
      RollsBackIff(m, rows, mode, n - 1);
      var sc := m.scenarios[n - 1];
      GoldenIff(m, Requests(EventsOf(m, rows, n - 1)));
      if sc.kind == Rollback && sc.mode == mode {
        if OnlyGolden(m, Requests(EventsOf(m, rows, n - 1))) { assert RollsBack(m, rows, mode, n); }
      } else {
        assert RollbackOf(RollbacksUpTo(m, rows, n), mode) == RollbackOf(RollbacksUpTo(m, rows, n - 1), mode);
        RollsBackOnward(m, rows, mode, n);
      }
    }
  }

  lemma {:induction false} RollsBackOnward(m: Manifest, rows: seq<Event>, mode: Mode, n: nat)
    requires 0 < n <= |m.scenarios| && !(m.scenarios[n - 1].kind == Rollback && m.scenarios[n - 1].mode == mode)
    ensures RollsBack(m, rows, mode, n) <==> RollsBack(m, rows, mode, n - 1)
  {
  }

  // ----- the verdict ------------------------------------------------------------------------

  ghost predicate RunPasses(m: Manifest, run: RunInfo, rows: seq<Event>)
    requires rows != []
  {
    && RunsThrough(rows)
    && (forall k :: 0 <= k < |m.scenarios| ==> PassesAt(m, rows, k))
    && EndsEmpty(rows) && BeginsWith(rows, run.targetPid) && Clean(rows) && Exercised(m.thresholds, rows)
    && RestartsOnce(m, rows)
    && RollsBack(m, rows, IterationBatch, |m.scenarios|) && RollsBack(m, rows, PerOperation, |m.scenarios|)
  }

  ghost predicate PassesAt(m: Manifest, rows: seq<Event>, k: nat)
    requires k < |m.scenarios|
  {
    ScenarioPasses(m, m.scenarios[k], EventsOf(m, rows, k))
  }

  lemma {:induction false} PassesAtIff(m: Manifest, rows: seq<Event>, ps: seq<Plateau>, k: nat)
    requires k < |m.scenarios| && ps == Plateaus(m, rows)
    ensures AllPassed(ScenarioChecks(m, m.scenarios[k], EventsOf(m, rows, k), ps[k])) <==> PassesAt(m, rows, k)
  {
    ScenarioPassesIff(m, m.scenarios[k], EventsOf(m, rows, k));
  }

  lemma {:induction false} OneMorePassed(m: Manifest, rows: seq<Event>, ps: seq<Plateau>, n: nat)
    requires 0 < n <= |m.scenarios| == |ps|
    ensures AllPassed(ChecksUpTo(m, rows, ps, n)) <==>
            && AllPassed(ChecksUpTo(m, rows, ps, n - 1))
            && AllPassed(ScenarioChecks(m, m.scenarios[n - 1], EventsOf(m, rows, n - 1), ps[n - 1]))
  {
    AllPassedAppend(ChecksUpTo(m, rows, ps, n - 1),
                    ScenarioChecks(m, m.scenarios[n - 1], EventsOf(m, rows, n - 1), ps[n - 1]));
  }

  /** Verdicts after each scenario that start true and fall with the first failure. */
  lemma {:induction false} Accumulates(all: nat -> bool, passes: nat -> bool, n: nat)
    requires all(0) && forall k: nat :: k < n ==> (all(k + 1) <==> all(k) && passes(k))
    ensures all(n) <==> forall k: nat :: k < n ==> passes(k)
  {
    if n != 0 {
      Accumulates(all, passes, n - 1);
      assert all((n - 1) + 1) <==> all(n - 1) && passes(n - 1);
    }
  }

  function PassedUpTo(m: Manifest, rows: seq<Event>, ps: seq<Plateau>): nat -> bool
    requires |ps| == |m.scenarios|
  {
    (k: nat) => k <= |m.scenarios| && AllPassed(ChecksUpTo(m, rows, ps, k))
  }

  lemma {:induction false} OneMoreVerdict(m: Manifest, rows: seq<Event>, ps: seq<Plateau>, n: nat, good: bool)
    requires n < |m.scenarios| == |ps|
    requires good <==> AllPassed(ScenarioChecks(m, m.scenarios[n], EventsOf(m, rows, n), ps[n]))
    ensures PassedUpTo(m, rows, ps)(n + 1) <==> PassedUpTo(m, rows, ps)(n) && good
  {
    OneMorePassed(m, rows, ps, n + 1);
  }

  lemma {:induction false} WrittenVerdict(m: Manifest, rows: seq<Event>, ps: seq<Plateau>, passes: nat -> bool, k: nat)
    requires k < |m.scenarios| && ps == Plateaus(m, rows) && (passes(k) <==> PassesAt(m, rows, k))
    ensures PassedUpTo(m, rows, ps)(k + 1) <==> PassedUpTo(m, rows, ps)(k) && passes(k)
  {
    PassesAtIff(m, rows, ps, k);
    OneMoreVerdict(m, rows, ps, k, passes(k));
  }

  lemma {:induction false} VerdictsAccumulate(
      m: Manifest, rows: seq<Event>, ps: seq<Plateau>, passes: nat -> bool, all: nat -> bool)
    requires ps == Plateaus(m, rows) && all == PassedUpTo(m, rows, ps)
    requires forall k: nat :: k < |m.scenarios| ==> (passes(k) <==> PassesAt(m, rows, k))
    ensures all(|m.scenarios|) <==> forall k: nat :: k < |m.scenarios| ==> passes(k)
  {
    forall k: nat | k < |m.scenarios| ensures all(k + 1) <==> all(k) && passes(k) {
      WrittenVerdict(m, rows, ps, passes, k);
    }
    Accumulates(all, passes, |m.scenarios|);
  }

  lemma {:induction false} ScenariosPassIff(m: Manifest, rows: seq<Event>, ps: seq<Plateau>)
    requires ps == Plateaus(m, rows)
    ensures AllPassed(ChecksUpTo(m, rows, ps, |m.scenarios|)) <==>
            forall k :: 0 <= k < |m.scenarios| ==> PassesAt(m, rows, k)
  {
    var passes := (k: nat) => k < |m.scenarios| && PassesAt(m, rows, k);
    var all := PassedUpTo(m, rows, ps);
    VerdictsAccumulate(m, rows, ps, passes, all);
    assert all(|m.scenarios|) <==> AllPassed(ChecksUpTo(m, rows, ps, |m.scenarios|));
    assert forall k: nat :: k < |m.scenarios| ==> (passes(k) <==> PassesAt(m, rows, k));
  }

  lemma {:induction false} FinalIff(run: RunInfo, rows: seq<Event>)
    ensures AllPassed(FinalChecks(run, rows)) <==> EndsEmpty(rows) && BeginsWith(rows, run.targetPid)
  {
    ThreeChecks(FinalChecks(run, rows));
    EndsEmptyIff(run, rows);
    FirstTagged(rows, run.targetPid);
  }

  lemma {:induction false} ParityIff(m: Manifest, rows: seq<Event>)
    ensures AllPassed(ParityChecks(m, rows, RollbacksUpTo(m, rows, |m.scenarios|))) <==>
            && RestartsOnce(m, rows)
            && RollsBack(m, rows, IterationBatch, |m.scenarios|) && RollsBack(m, rows, PerOperation, |m.scenarios|)
  {
    RestartsOnceIff(m, rows);
    RollsBackIff(m, rows, IterationBatch, |m.scenarios|);
    RollsBackIff(m, rows, PerOperation, |m.scenarios|);
    var c := ParityChecks(m, rows, RollbacksUpTo(m, rows, |m.scenarios|));
    assert AllPassed(c) <==> c[0].passed && c[1].passed;
  }

  lemma {:induction false} SixParts(a: Check, b: seq<Check>, c: seq<Check>, d: seq<Check>, e: seq<Check>, f: seq<Check>)
    ensures AllPassed([a] + b + c + d + e + f) <==>
            a.passed && AllPassed(b) && AllPassed(c) && AllPassed(d) && AllPassed(e) && AllPassed(f)
  {
    AllPassedAppend([a] + b + c + d + e, f);
    AllPassedAppend([a] + b + c + d, e);
    AllPassedAppend([a] + b + c, d);
    AllPassedAppend([a] + b, c);
    AllPassedAppend([a], b);
    assert [a][0] == a;
  }

  lemma {:induction false} ReportPassesIff(m: Manifest, run: RunInfo, rows: seq<Event>)
    requires ValidManifest(m) && rows != [] && forall e :: e in rows ==> TagOk(m, e)
    ensures BatchReport(m, run, rows).passed <==> RunPasses(m, run, rows)
  {
    var n := |m.scenarios|;
    RunsThroughIff(rows);
    ScenariosPassIff(m, rows, Plateaus(m, rows));
    FinalIff(run, rows);
    CleanIff(rows);
    ExercisedIff(m, rows);
    ParityIff(m, rows);
    SixParts(BoundaryCheck(rows), ChecksUpTo(m, rows, Plateaus(m, rows), n), FinalChecks(run, rows), HygieneChecks(rows),
             CounterChecks(m.thresholds, OutcomesUpTo(m, rows, n), MaximaUpTo(m, rows, n)),
             ParityChecks(m, rows, RollbacksUpTo(m, rows, n)));
  }

  /** An accepted log passes exactly when Docker ran as long as the log spans and the
      events satisfy every requirement as written out here. */
  lemma {:induction false} EvaluationPassesIff(m: Manifest, run: RunInfo, rows: seq<Event>)
    requires ValidManifest(m) && Accepts(m, run.binding, rows)
    ensures Evaluate(m, run, rows).Some? && Evaluate(m, run, rows).value.passed <==>
            rows[|rows| - 1].ns - rows[0].ns <= run.elapsedNs && RunPasses(m, run, rows)
  {
    AllTagged(m, run.binding, rows);
    ReportPassesIff(m, run, rows);
    EvaluateIs(m, run, rows, BatchReport(m, run, rows));
  }

  lemma {:induction false} EvaluateIs(m: Manifest, run: RunInfo, rows: seq<Event>, report: Report)
    requires Accepts(m, run.binding, rows) && report == BatchReport(m, run, rows)
    ensures Evaluate(m, run, rows) == if rows[|rows| - 1].ns - rows[0].ns <= run.elapsedNs then Some(report) else None
  {
  }

  /** A passing run has no scenario in which memory grows steadily beyond the limit. */
  lemma {:induction false} SteadyLeakFails(
      m: Manifest, run: RunInfo, rows: seq<Event>, k: nat, x: seq<real>, y: seq<real>, c: real, perSecond: real)
    requires ValidManifest(m) && Accepts(m, run.binding, rows) && k < |m.scenarios|
    requires AreCoordinates(PlateauTail(m, EventsOf(m, rows, k)), Rss, x, y)
    requires forall i :: 0 <= i < |x| ==> y[i] == c + perSecond * x[i]
    requires m.thresholds.maximumRssSlope < 3600.0 * perSecond
    ensures Evaluate(m, run, rows).Some? ==> !Evaluate(m, run, rows).value.passed
  {
    if Evaluate(m, run, rows).Some? && Evaluate(m, run, rows).value.passed {
      PassedSlope(m, run, rows, k);
      TailRises(m, run.binding, rows, k);
      SteadyGrowthHasItsSlope(PlateauTail(m, EventsOf(m, rows, k)), Rss, x, y, c, perSecond);
    }
  }

  lemma {:induction false} PassedSlope(m: Manifest, run: RunInfo, rows: seq<Event>, k: nat)
    requires Accepts(m, run.binding, rows) && k < |m.scenarios|
    requires Evaluate(m, run, rows).Some? && Evaluate(m, run, rows).value.passed
    ensures SlopeWithin(TailSlope(PlateauTail(m, EventsOf(m, rows, k)), Rss), m.thresholds.maximumRssSlope)
  {
    var ps := Plateaus(m, rows);
    ScenarioChecksPassed(m, run, rows, ps);
    ScenarioPassed(m, rows, ps, |m.scenarios|, k);
    RssSlopePassed(m, m.scenarios[k], EventsOf(m, rows, k), ps[k]);
  }

  lemma {:induction false} TailRises(m: Manifest, binding: string, rows: seq<Event>, k: nat)
    requires Accepts(m, binding, rows) && k < |m.scenarios|
    requires TailSlope(PlateauTail(m, EventsOf(m, rows, k)), Rss).Some?
    ensures var tail := PlateauTail(m, EventsOf(m, rows, k)); 2 <= |tail| && tail[0].ns < Last(tail).ns
  {
    var es := EventsOf(m, rows, k);
    ReadingsIncrease(m, binding, rows, Some(m.scenarios[k].id));
    TailIncreases(Readings(es), TailCount(|Readings(es)|, m.thresholds.plateauTailFraction));
  }

  lemma {:induction false} RssSlopePassed(m: Manifest, sc: Scenario, es: seq<Event>, p: Plateau)
    requires AllPassed(ScenarioChecks(m, sc, es, p))
    ensures SlopeWithin(p.rssSlope, m.thresholds.maximumRssSlope)
  {
    var a, b, c, d := ShapeChecks(m, sc, es), TimingChecks(m, sc, es),
      PlateauChecks(m.thresholds, sc.id, p), OutcomeChecks(m, sc, Requests(es));
    AllPassedAppend(a + b + c, d);
    AllPassedAppend(a + b, c);
    AllPassedAppend(a, b);
    assert c[1].passed;
  }

  // ----- what the report says ---------------------------------------------------------------

  function IsSample(): Event -> bool { (e: Event) => e.body.Sample? }
  function IsRequest(): Event -> bool { (e: Event) => e.body.Request? }

  /** The greatest distance of neighbouring readings that no restart explains. */
  ghost predicate IsLargestGap(gapMs: real, samples: seq<Reading>, restarts: seq<int>) {
    LargestBefore(gapMs, samples, restarts, |samples|)
  }

  ghost predicate LargestBefore(gapMs: real, samples: seq<Reading>, restarts: seq<int>, n: nat)
    requires n <= |samples|
  {
    && 0.0 <= gapMs && (gapMs == 0.0 || exists i :: 1 <= i < n && GapAt(gapMs, samples, restarts, i))
    && GapsBelow(gapMs, samples, restarts, n)
  }

  predicate GapAt(gapMs: real, samples: seq<Reading>, restarts: seq<int>, i: nat)
    requires 1 <= i < |samples|
  {
    !Explained(samples, restarts, i) && gapMs * 1000000.0 == (samples[i].ns - samples[i - 1].ns) as real
  }

  lemma {:induction false} SameBefore(samples: seq<Reading>, restarts: seq<int>, i: nat)
    requires 1 <= i < |samples| - 1
    ensures Explained(DropLast(samples), restarts, i) <==> Explained(samples, restarts, i)
    ensures DropLast(samples)[i] == samples[i] && DropLast(samples)[i - 1] == samples[i - 1]
  {
  }

  lemma {:induction false} LargestOfFront(gapMs: real, samples: seq<Reading>, restarts: seq<int>)
    requires samples != [] && IsLargestGap(gapMs, DropLast(samples), restarts)
    ensures LargestBefore(gapMs, samples, restarts, |samples| - 1)
  {
    var front := DropLast(samples);
    forall i | 1 <= i < |front| && !Explained(samples, restarts, i) ensures DistanceBelow(gapMs, samples, i) {
      SameBefore(samples, restarts, i);
      assert DistanceBelow(gapMs, front, i);
    }
    forall i | 1 <= i < |front| && GapAt(gapMs, front, restarts, i) ensures GapAt(gapMs, samples, restarts, i) {
      SameBefore(samples, restarts, i);
    }
    if i :| 1 <= i < |front| && GapAt(gapMs, front, restarts, i) { assert GapAt(gapMs, samples, restarts, i); }
  }

  lemma {:induction false} ExplainedReading(gapMs: real, samples: seq<Reading>, restarts: seq<int>)
    requires 2 <= |samples| && LargestBefore(gapMs, samples, restarts, |samples| - 1)
    requires Explained(samples, restarts, |samples| - 1)
    ensures IsLargestGap(gapMs, samples, restarts)
  {
  }

  predicate GapsBelow(gapMs: real, samples: seq<Reading>, restarts: seq<int>, n: nat)
    requires n <= |samples|
  {
    forall i :: 1 <= i < n ==> !Explained(samples, restarts, i) ==> DistanceBelow(gapMs, samples, i)
  }

  predicate DistanceBelow(gapMs: real, samples: seq<Reading>, i: nat)
    requires 1 <= i < |samples|
  {
    (samples[i].ns - samples[i - 1].ns) as real <= gapMs * 1000000.0
  }

  lemma {:induction false} HigherBound(gapMs: real, bound: real, samples: seq<Reading>, restarts: seq<int>, n: nat)
    requires n <= |samples| && gapMs <= bound && GapsBelow(gapMs, samples, restarts, n)
    ensures GapsBelow(bound, samples, restarts, n)
  {
    forall i | 1 <= i < n && !Explained(samples, restarts, i) ensures DistanceBelow(bound, samples, i) {
      assert DistanceBelow(gapMs, samples, i);
    }
  }

  lemma {:induction false} OneMoreReading(gapMs: real, samples: seq<Reading>, restarts: seq<int>, gap: real)
    requires 2 <= |samples| && LargestBefore(gapMs, samples, restarts, |samples| - 1)
    requires GapAt(gap, samples, restarts, |samples| - 1)
    ensures IsLargestGap(MaxReal(gapMs, gap), samples, restarts)
  {
    HigherBound(gapMs, MaxReal(gapMs, gap), samples, restarts, |samples| - 1);
    assert DistanceBelow(MaxReal(gapMs, gap), samples, |samples| - 1);
  }

  lemma {:induction false} LargestGapIs(samples: seq<Reading>, restarts: seq<int>)
    ensures IsLargestGap(Largest(Gaps(samples, restarts)), samples, restarts)
  {
    if 2 <= |samples| {
      var before := Gaps(DropLast(samples), restarts);
      var gap := Milliseconds(samples[|samples| - 1].ns - samples[|samples| - 2].ns);
      LargestGapIs(DropLast(samples), restarts);
      LargestOfFront(Largest(before), samples, restarts);
      CrossedIff(samples, restarts);
      LargestSnoc(before, gap);
      if Explained(samples, restarts, |samples| - 1) {
        ExplainedReading(Largest(before), samples, restarts);
      } else {
        OneMoreReading(Largest(before), samples, restarts, gap);
      }
    }
  }

  lemma {:induction false} LargestSnoc(before: seq<real>, x: real)
    ensures Largest(before + [x]) == MaxReal(Largest(before), x) && before + [] == before
  {
    assert DropLast(before + [x]) == before;
  }

  /** The slope in a summary: none for fewer than two readings, else that of the best line. */
  ghost predicate IsSlopeOf(slope: Option<Slope>, tail: seq<Reading>, q: Quantity) {
    if |tail| < 2 then slope == None
    else forall x, y, a, b :: FitsBest(tail, q, x, y, a, b) ==> slope == Some(Finite(b * 3600.0))
  }

  lemma {:induction false} TailSlopeIs(tail: seq<Reading>, q: Quantity)
    ensures IsSlopeOf(TailSlope(tail, q), tail, q)
  {
    if 2 <= |tail| {
      forall x, y, a, b | FitsBest(tail, q, x, y, a, b) ensures TailSlope(tail, q) == Some(Finite(b * 3600.0)) {
        BestFitIsSlope(tail, q, x, y, a, b);
      }
    }
  }

  /** One summary, field by field. */
  ghost predicate Describes(s: Summary, m: Manifest, sc: Scenario, es: seq<Event>) {
    var samples := Readings(es);
    && s.id == sc.id && s.kind == sc.kind
    && s.events == |es| && s.samples == Count(es, IsSample()) && s.requests == Count(es, IsRequest())
    && IsLargestGap(s.maximumGapMs, samples, RestartTimes(es))
    && (|Openings(es)| == 1 && |ClosingTimes(es)| == 1 ==>
          s.durationSeconds * 1000000000.0 == (ClosingTimes(es)[0] - Openings(es)[0].ns) as real)
    && s.spanSeconds * 1000000000.0 == (if |samples| < 2 then 0 else samples[|samples| - 1].ns - samples[0].ns) as real
    && IsSlopeOf(s.rssSlope, PlateauTail(m, es), Rss) && IsSlopeOf(s.vramSlope, PlateauTail(m, es), Vram)
  }

  lemma {:induction false} SummaryIs(m: Manifest, sc: Scenario, es: seq<Event>)
    ensures Describes(ScenarioSummary(sc, es, PlateauOf(PlateauTail(m, es))), m, sc, es)
  {
    CollectCounted(AsReading, es, IsSample());
    CollectCounted(AsRequest, es, IsRequest());
    LargestGapIs(Readings(es), RestartTimes(es));
    TailSlopeIs(PlateauTail(m, es), Rss);
    TailSlopeIs(PlateauTail(m, es), Vram);
  }

  lemma {:induction false} SummaryAt(m: Manifest, rows: seq<Event>, ps: seq<Plateau>, n: nat, k: nat)
    requires k < n <= |m.scenarios| == |ps|
    ensures |SummariesUpTo(m, rows, ps, n)| == n
    ensures SummariesUpTo(m, rows, ps, n)[k] == ScenarioSummary(m.scenarios[k], EventsOf(m, rows, k), ps[k])
  {
    if k < n - 1 {
      SummaryAt(m, rows, ps, n - 1, k);
    } else {
      SummaryCount(m, rows, ps, n - 1);
    }
  }

  lemma {:induction false} SummaryCount(m: Manifest, rows: seq<Event>, ps: seq<Plateau>, n: nat)
    requires n <= |m.scenarios| == |ps|
    ensures |SummariesUpTo(m, rows, ps, n)| == n
  {
    if n != 0 { SummaryCount(m, rows, ps, n - 1); }
  }

  /** The report's summaries, in manifest order, and its outcome counts. */
  lemma {:induction false} ReportStates(m: Manifest, run: RunInfo, rows: seq<Event>, k: nat, o: Outcome)
    requires ValidManifest(m) && Accepts(m, run.binding, rows) && k < |m.scenarios|
    ensures var r := BatchReport(m, run, rows);
            && r.eventCount == |rows| && |r.summaries| == |m.scenarios|
            && Describes(r.summaries[k], m, m.scenarios[k], EventsOf(m, rows, k))
            && r.outcomeCounts[o] == Count(rows, Reports(o))
  {
    var ps := Plateaus(m, rows);
    SummaryAt(m, rows, ps, |m.scenarios|, k);
    SummaryIs(m, m.scenarios[k], EventsOf(m, rows, k));
    AllTagged(m, run.binding, rows);
    OutcomesOfAllScenarios(m, rows);
    OutcomesCounted(rows, o);
  }
}
