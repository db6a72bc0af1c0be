/** What a passing soak report says about the run itself. */
module SoakGuarantees {
  import opened Sequences
  import opened SoakEvents
  import opened SoakBatch
  import opened SoakReducer
  import opened SoakTail
  import opened SoakProtocol

  // ----- passing checks -----------------------------------------------------

  lemma {:induction false} AllPassedAppend(a: seq<Check>, b: seq<Check>)
    ensures AllPassed(a + b) <==> AllPassed(a) && AllPassed(b)
  {
    if AllPassed(a + b) {
      forall i | 0 <= i < |a| ensures a[i].passed { assert (a + b)[i] == a[i]; }
      forall i | 0 <= i < |b| ensures b[i].passed { assert (a + b)[|a| + i] == b[i]; }
    }
  }

  lemma {:induction false} ScenarioPassed(m: Manifest, rows: seq<Event>, ps: seq<Plateau>, n: nat, k: nat)
    requires k < n <= |m.scenarios| == |ps| && AllPassed(ChecksUpTo(m, rows, ps, n))
    ensures AllPassed(ScenarioChecks(m, m.scenarios[k], EventsOf(m, rows, k), ps[k]))
  {
    LastScenarioPassed(m, rows, ps, n);
    if k < n - 1 { ScenarioPassed(m, rows, ps, n - 1, k); }
  }

  lemma {:induction false} LastScenarioPassed(m: Manifest, rows: seq<Event>, ps: seq<Plateau>, n: nat)
    requires 0 < n <= |m.scenarios| == |ps| && AllPassed(ChecksUpTo(m, rows, ps, n))
    ensures AllPassed(ChecksUpTo(m, rows, ps, n - 1))
    ensures AllPassed(ScenarioChecks(m, m.scenarios[n - 1], EventsOf(m, rows, n - 1), ps[n - 1]))
  {
    AllPassedAppend(ChecksUpTo(m, rows, ps, n - 1),
                    ScenarioChecks(m, m.scenarios[n - 1], EventsOf(m, rows, n - 1), ps[n - 1]));
  }

  lemma {:induction false} ScenarioChecksPassed(m: Manifest, run: RunInfo, rows: seq<Event>, ps: seq<Plateau>)
    requires rows != [] && |ps| == |m.scenarios| && BatchReportWith(m, run, rows, ps).passed
    ensures AllPassed(ChecksUpTo(m, rows, ps, |m.scenarios|))
  {
    var n := |m.scenarios|;
    var a, b, c, d, e, f := [BoundaryCheck(rows)], ChecksUpTo(m, rows, ps, n), FinalChecks(run, rows), HygieneChecks(rows),
      CounterChecks(m.thresholds, OutcomesUpTo(m, rows, n), MaximaUpTo(m, rows, n)),
      ParityChecks(m, rows, RollbacksUpTo(m, rows, n));
    AllPassedAppend(a + b + c + d + e, f);
    AllPassedAppend(a + b + c + d, e);
    AllPassedAppend(a + b + c, d);
    AllPassedAppend(a + b, c);
    AllPassedAppend(a, b);
  }

  lemma {:induction false} DurationPassed(m: Manifest, sc: Scenario, es: seq<Event>, p: Plateau)
    requires AllPassed(ScenarioChecks(m, sc, es, p))
    ensures sc.durationSeconds as real <= ObservedDuration(es)
  {
    var a, b, c, d := ShapeChecks(m, sc, es), TimingChecks(m, sc, es),
      PlateauChecks(m.thresholds, sc.id, p), OutcomeChecks(m, sc, Requests(es));
    AllPassedAppend(a + b + c, d);
    AllPassedAppend(a + b, c);
    AllPassedAppend(a, b);
    assert b[0].passed;
  }

  // ----- the boundary rows of a scenario ------------------------------------

  lemma {:induction false} CollectContains<T, U>(pick: T -> Option<U>, s: seq<T>, x: T)
    requires x in s && pick(x).Some?
    ensures pick(x).value in Collect(pick, s)
  {
    assert s == DropLast(s) + [Last(s)];
    if x in DropLast(s) { CollectContains(pick, DropLast(s), x); }
  }

  lemma {:induction false} TaggedContains(rows: seq<Event>, tag: Option<ScenarioId>, i: nat)
    requires i < |rows| && rows[i].tag == tag
    ensures rows[i] in WithTag(rows, tag)
  {
    if i < |rows| - 1 { TaggedContains(DropLast(rows), tag, i); }
  }

  /** A positive observed duration is the distance between the span's rows. */
  lemma {:induction false} DurationIsSpan(m: Manifest, rows: seq<Event>, span: Span, k: nat)
    requires k < |m.scenarios| && IsSpan(m, rows, span, k)
    requires 0.0 < ObservedDuration(EventsOf(m, rows, k))
    ensures ObservedDuration(EventsOf(m, rows, k)) == Seconds(rows[span.end].ns - rows[span.start].ns)
  {
    var es, tag := EventsOf(m, rows, k), Some(m.scenarios[k].id);
    TaggedContains(rows, tag, span.start);
    TaggedContains(rows, tag, span.end);
    CollectContains(AsOpening, es, rows[span.start]);
    CollectContains(AsClosingNs, es, rows[span.end]);
  }

  function RequiredSeconds(m: Manifest, k: nat): int
    requires k <= |m.scenarios|
  {
    if k == 0 then 0 else RequiredSeconds(m, k - 1) + m.scenarios[k - 1].durationSeconds
  }

  lemma {:induction false} SpanLongEnough(m: Manifest, rows: seq<Event>, span: Span, k: nat)
    requires ValidManifest(m) && k < |m.scenarios| && IsSpan(m, rows, span, k)
    requires m.scenarios[k].durationSeconds as real <= ObservedDuration(EventsOf(m, rows, k))
    ensures m.scenarios[k].durationSeconds * 1000000000 <= rows[span.end].ns - rows[span.start].ns
  {
    DurationIsSpan(m, rows, span, k);
  }

  predicate Rising(rows: seq<Event>) {
    forall i, j :: 0 <= i < j < |rows| ==> rows[i].ns < rows[j].ns
  }

  lemma {:induction false} AdmittedRises(m: Manifest, binding: string, rows: seq<Event>)
    requires Admitted(m, binding, rows)
    ensures Rising(rows)
  {
    forall i, j | 0 <= i < j < |rows| ensures rows[i].ns < rows[j].ns {
      TimesIncrease(m, binding, rows, i, j);
    }
  }

  lemma {:induction false} SpansAddUp(m: Manifest, rows: seq<Event>, spans: seq<Span>, k: nat)
    requires Rising(rows) && |spans| == |m.scenarios| && AllSpans(m, rows, spans) && Disjoint(spans) && 0 < k <= |spans|
    requires forall j :: 0 <= j < k ==>
               m.scenarios[j].durationSeconds * 1000000000 <= rows[spans[j].end].ns - rows[spans[j].start].ns
    ensures RequiredSeconds(m, k) * 1000000000 <= rows[spans[k - 1].end].ns - rows[0].ns
  {
    assert IsSpan(m, rows, spans[k - 1], k - 1);
    if 1 < k {
      SpansAddUp(m, rows, spans, k - 1);
      assert IsSpan(m, rows, spans[k - 2], k - 2);
      assert spans[k - 2].end < spans[k - 1].start;
    }
  }

  lemma {:induction false} PassedSpansLongEnough(
      m: Manifest, run: RunInfo, rows: seq<Event>, ps: seq<Plateau>, spans: seq<Span>)
    requires ValidManifest(m) && rows != [] && |ps| == |m.scenarios| && BatchReportWith(m, run, rows, ps).passed
    requires |spans| == |m.scenarios| && AllSpans(m, rows, spans)
    ensures forall k :: 0 <= k < |spans| ==>
              m.scenarios[k].durationSeconds * 1000000000 <= rows[spans[k].end].ns - rows[spans[k].start].ns
  {
    ScenarioChecksPassed(m, run, rows, ps);
    forall k | 0 <= k < |spans|
      ensures m.scenarios[k].durationSeconds * 1000000000 <= rows[spans[k].end].ns - rows[spans[k].start].ns
    {
      ScenarioPassed(m, rows, ps, |m.scenarios|, k);
      DurationPassed(m, m.scenarios[k], EventsOf(m, rows, k), ps[k]);
      assert IsSpan(m, rows, spans[k], k);
      SpanLongEnough(m, rows, spans[k], k);
    }
  }

  lemma {:induction false} LongSpansCoverRun(m: Manifest, rows: seq<Event>, spans: seq<Span>)
    requires m.scenarios != [] && Rising(rows) && |spans| == |m.scenarios| && AllSpans(m, rows, spans) && Disjoint(spans)
    requires forall k :: 0 <= k < |spans| ==>
               m.scenarios[k].durationSeconds * 1000000000 <= rows[spans[k].end].ns - rows[spans[k].start].ns
    ensures rows != [] && RequiredSeconds(m, |m.scenarios|) * 1000000000 <= Last(rows).ns - rows[0].ns
  {
    var n := |m.scenarios|;
    SpansAddUp(m, rows, spans, n);
    assert IsSpan(m, rows, spans[n - 1], n - 1);
  }

  /** A passing report proves that the container ran at least as long as all
      manifest scenarios together require. */
  lemma {:induction false} PassingRunCoversAllDurations(m: Manifest, run: RunInfo, rows: seq<Event>)
    requires ValidManifest(m)
    requires Evaluate(m, run, rows).Some? && Evaluate(m, run, rows).value.passed
    ensures RequiredSeconds(m, |m.scenarios|) * 1000000000 <= run.elapsedNs
  {
    var spans := AcceptedHasLayout(m, run.binding, rows);
    PassedSpansLongEnough(m, run, rows, Plateaus(m, rows), spans);
    AdmittedRises(m, run.binding, rows);
    LongSpansCoverRun(m, rows, spans);
  }

  // ----- slopes are numbers -------------------------------------------------

  predicate Increasing(samples: seq<Reading>) {
    forall i, j :: 0 <= i < j < |samples| ==> samples[i].ns < samples[j].ns
  }

  lemma {:induction false} ReadingsIncrease(m: Manifest, binding: string, rows: seq<Event>, tag: Option<ScenarioId>)
    requires Admitted(m, binding, rows)
    ensures Increasing(Readings(WithTag(rows, tag)))
  {
    if rows != [] {
      var init, e := DropLast(rows), Last(rows);
      assert rows == init + [e];
      ReadingsIncrease(m, binding, init, tag);
      LaterThanSeen(m, binding, init, e);
      TaggedComeFromRows(init, tag);
      SelectedBefore(WithTag(init, tag), e.ns);
      WithTagSnoc(init, e, tag);
      if e.tag == tag {
        SelectionsSnoc(WithTag(init, tag), e);
        if e.body.Sample? { IncreasingSnoc(Readings(WithTag(init, tag)), Reading(e.ns, e.body.sample)); }
      }
    }
  }

  lemma {:induction false} IncreasingSnoc(samples: seq<Reading>, s: Reading)
    requires Increasing(samples) && forall r :: r in samples ==> r.ns < s.ns
    ensures Increasing(samples + [s])
  {
  }

  lemma {:induction false} TailIncreases(samples: seq<Reading>, count: int)
    requires 2 <= count && 2 <= |samples| && Increasing(samples)
    ensures Increasing(Tail(samples, count)) && 2 <= |Tail(samples, count)|
  {
  }

  /** On an accepted log the regression denominator never vanishes: a plateau
      slope is absent only for want of samples, and is otherwise a number. */
  lemma {:induction false} AcceptedSlopesAreFinite(m: Manifest, binding: string, rows: seq<Event>, k: nat, q: Quantity)
    requires Accepts(m, binding, rows) && k < |m.scenarios|
    ensures var tail := PlateauTail(m, EventsOf(m, rows, k));
            if |Readings(EventsOf(m, rows, k))| < 2 then TailSlope(tail, q) == None
            else TailSlope(tail, q).Some? && TailSlope(tail, q).value.Finite?
  {
    var samples, tail := Readings(EventsOf(m, rows, k)), PlateauTail(m, EventsOf(m, rows, k));
    ReadingsIncrease(m, binding, rows, Some(m.scenarios[k].id));
    if 2 <= |samples| {
      TailIncreases(samples, TailCount(|samples|, m.thresholds.plateauTailFraction));
      IncreasingTimesGiveFiniteSlope(tail, q);
    }
  }
}
