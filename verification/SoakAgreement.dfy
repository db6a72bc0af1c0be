/** The replay from retained state reaches the verdict of the list-based checker:
    every named check has the same result, and a passing report is the same
    report. */
module SoakAgreement {
  import opened Sequences
  import opened SoakEvents
  import opened SoakBatch
  import opened SoakReducer
  import opened SoakTail
  import opened SoakReplay

  /** Checks whose diagnostics the replay bounds when they fail. */
  predicate BoundedDiagnostics(name: CheckName) {
    || (name.OfScenario? && name.aspect == GoldenParity)
    || name == NoPythonChildren || name == RestartGoldenParity || name == RollbackGoldenParity
  }

  predicate SameCheck(a: Check, b: Check) {
    && a.name == b.name && a.passed == b.passed
    && (a.passed || !BoundedDiagnostics(a.name) ==> a.observed == b.observed)
  }

  predicate SameChecks(a: seq<Check>, b: seq<Check>) {
    |a| == |b| && forall i :: 0 <= i < |a| ==> SameCheck(a[i], b[i])
  }

  lemma {:induction false} SameChecksAppend(a: seq<Check>, b: seq<Check>, c: seq<Check>, d: seq<Check>)
    requires SameChecks(a, b) && SameChecks(c, d)
    ensures SameChecks(a + c, b + d)
  {
  }

  lemma {:induction false} SameChecksPass(a: seq<Check>, b: seq<Check>)
    requires SameChecks(a, b)
    ensures AllPassed(a) <==> AllPassed(b)
    ensures AllPassed(a) ==> a == b
  {
  }

  // ----- one scenario -------------------------------------------------------

  lemma {:induction false} ShapeAgrees(m: Manifest, sc: Scenario, st: ScenarioState, es: seq<Event>)
    requires Summarizes(m, sc, st, es) && |Openings(es)| <= 1
    ensures BoundShapeChecks(m, sc, st) == ShapeChecks(m, sc, es)
  {
  }

  lemma {:induction false} DurationAgrees(st: ShapeState, es: seq<Event>)
    requires SummarizesSpans(st, Openings(es), ClosingTimes(es))
    ensures BoundDuration(st) == ObservedDuration(es)
  {
  }

  lemma {:induction false} SpanAgrees(st: SampleState, samples: seq<Reading>, restarts: seq<int>)
    requires SummarizesSamples(st, samples, restarts)
    ensures BoundSpan(st) == SampleSpan(samples)
  {
  }

  lemma {:induction false} TimingAgrees(m: Manifest, sc: Scenario, st: ScenarioState, es: seq<Event>)
    requires Summarizes(m, sc, st, es)
    ensures BoundTimingChecks(m, sc, st) == TimingChecks(m, sc, es)
  {
    DurationAgrees(st.shape, es);
    SpanAgrees(st.samples, Readings(es), RestartTimes(es));
  }

  lemma {:induction false} PlateauAgrees(start: int, points: seq<Reading>)
    ensures BoundPlateau(BothPasses(start, points)) == PlateauOf(points)
  {
    PassesComputeTail(start, points, Rss);
    PassesComputeTail(start, points, Vram);
  }

  lemma {:induction false} WithoutCounts(outcomes: multiset<Outcome>, allowed: seq<Outcome>, o: Outcome)
    ensures Without(outcomes, allowed)[o] == if o in allowed then 0 else outcomes[o]
  {
    if allowed != [] {
      assert allowed == DropLast(allowed) + [Last(allowed)];
      WithoutCounts(outcomes[Last(allowed) := 0], DropLast(allowed), o);
    }
  }

  lemma {:induction false} OutcomesSnoc(requests: seq<RequestBody>, r: RequestBody)
    ensures Outcomes(requests + [r]) == Outcomes(requests) + multiset{r.outcome} && requests + [] == requests
  {
    assert DropLast(requests + [r]) == requests;
  }

  lemma {:induction false} UnexpectedCounts(requests: seq<RequestBody>, allowed: seq<Outcome>, o: Outcome)
    ensures Outcomes(UnexpectedRequests(requests, allowed))[o] == if o in allowed then 0 else Outcomes(requests)[o]
  {
    if requests != [] {
      var init, r := DropLast(requests), Last(requests);
      UnexpectedCounts(init, allowed, o);
      OutcomesSnoc(UnexpectedRequests(init, allowed), r);
    }
  }

  lemma {:induction false} UnexpectedAgree(requests: seq<RequestBody>, allowed: seq<Outcome>)
    ensures Without(Outcomes(requests), allowed) == Outcomes(UnexpectedRequests(requests, allowed))
  {
    forall o ensures Without(Outcomes(requests), allowed)[o] == Outcomes(UnexpectedRequests(requests, allowed))[o] {
      WithoutCounts(Outcomes(requests), allowed, o);
      UnexpectedCounts(requests, allowed, o);
    }
  }

  lemma {:induction false} SomeSuccess(requests: seq<RequestBody>)
    ensures 0 < SuccessCount(requests) <==> SuccessHashes(requests) != {}
  {
    if requests != [] {
      SomeSuccess(DropLast(requests));
      HashesSnoc(DropLast(requests), Last(requests));
      assert requests == DropLast(requests) + [Last(requests)];
    }
  }

  /** The bounded observation is the golden singleton exactly when the set of
      successful hashes is. */
  lemma {:induction false} HashesAgree(count: nat, allExpected: bool, golden: string, requests: seq<RequestBody>)
    requires CountsHashes(true, count, allExpected, golden, requests) && IsSha256(golden)
    ensures BoundedHashes(count, allExpected, golden) == {Some(golden)} <==> SuccessHashes(requests) == {Some(golden)}
  {
    SomeSuccess(requests);
    var hashes := SuccessHashes(requests);
    assert Nonmatching.value != golden by { assert |Nonmatching.value| == 32; }
    if 0 < count && allExpected {
      var h :| h in hashes;
      assert hashes == {Some(golden)};
    }
  }

  lemma {:induction false} OutcomesAgree(m: Manifest, sc: Scenario, st: RequestState, requests: seq<RequestBody>)
    requires ValidManifest(m) && SummarizesRequests(m, sc, st, requests)
    ensures SameChecks(BoundOutcomeChecks(m, sc, st), OutcomeChecks(m, sc, requests))
  {
    UnexpectedAgree(requests, AllowedOutcomes(sc.kind));
    if GoldenOnly(m, sc) {
      HashesAgree(st.goldenCount, st.goldenAllExpected, m.goldenSha256, requests);
    }
  }

  lemma {:induction false} ScenarioAgrees(m: Manifest, sc: Scenario, st: ScenarioState, es: seq<Event>, p: Plateau)
    requires ValidManifest(m) && Summarizes(m, sc, st, es) && |Openings(es)| <= 1
    ensures SameChecks(BoundScenarioChecks(m, sc, st, p), ScenarioChecks(m, sc, es, p))
    ensures BoundSummary(sc, st, p) == ScenarioSummary(sc, es, p)
  {
    ShapeAgrees(m, sc, st, es);
    TimingAgrees(m, sc, st, es);
    OutcomesAgree(m, sc, st.requests, Requests(es));
    var same := ShapeChecks(m, sc, es) + TimingChecks(m, sc, es) + PlateauChecks(m.thresholds, sc.id, p);
    SameChecksAppend(same, same, BoundOutcomeChecks(m, sc, st.requests), OutcomeChecks(m, sc, Requests(es)));
    DurationAgrees(st.shape, es);
    SpanAgrees(st.samples, Readings(es), RestartTimes(es));
  }

  // ----- scenario boundaries occur at most once -----------------------------

  /** How often a scenario has been opened and closed after an admitted list. */
  predicate BoundaryCounts(m: Manifest, st: Machine, rows: seq<Event>, k: nat)
    requires k < |m.scenarios|
  {
    && |Openings(EventsOf(m, rows, k))| == (if k < st.completed || st.active == Some(m.scenarios[k].id) then 1 else 0)
    && |ClosingTimes(EventsOf(m, rows, k))| == (if k < st.completed then 1 else 0)
  }

  predicate MachineInBounds(m: Manifest, st: Machine) {
    st.completed <= |m.scenarios|
    && (st.active.Some? ==> st.completed < |m.scenarios| && st.active == Some(m.scenarios[st.completed].id))
  }

  predicate Own(m: Manifest, e: Event, k: nat)
    requires k < |m.scenarios|
  {
    e.tag == Some(m.scenarios[k].id)
  }

  lemma {:induction false} BoundarySelections(m: Manifest, rows: seq<Event>, e: Event, k: nat)
    requires k < |m.scenarios|
    ensures |Openings(EventsOf(m, rows + [e], k))| ==
            |Openings(EventsOf(m, rows, k))| + if Own(m, e, k) && e.body.ScenarioStart? then 1 else 0
    ensures |ClosingTimes(EventsOf(m, rows + [e], k))| ==
            |ClosingTimes(EventsOf(m, rows, k))| + if Own(m, e, k) && e.body.ScenarioEnd? then 1 else 0
  {
    WithTagSnoc(rows, e, Some(m.scenarios[k].id));
    if Own(m, e, k) { SelectionsSnoc(EventsOf(m, rows, k), e); }
  }

  lemma {:induction false} SampleSelections(m: Manifest, rows: seq<Event>, e: Event, k: nat, acc: Option<Counters>)
    requires k < |m.scenarios|
    ensures MaximaOver(acc, Readings(EventsOf(m, rows + [e], k))) ==
            if Own(m, e, k) && e.body.Sample?
            then RaiseMaxima(MaximaOver(acc, Readings(EventsOf(m, rows, k))), e.body.sample.counters)
            else MaximaOver(acc, Readings(EventsOf(m, rows, k)))
  {
    var es := EventsOf(m, rows, k);
    WithTagSnoc(rows, e, Some(m.scenarios[k].id));
    if Own(m, e, k) { SelectionsSnoc(es, e); }
    if e.body.Sample? {
      assert DropLast(Readings(es) + [Reading(e.ns, e.body.sample)]) == Readings(es);
    }
  }

  /** The manifest position of the event's own scenario, or the end for none. */
  function OwnerOf(m: Manifest, e: Event): (at: nat)
    requires ValidManifest(m) && TagOk(m, e)
    ensures at <= |m.scenarios| && (e.tag.Some? <==> at < |m.scenarios|)
    ensures forall k :: 0 <= k < |m.scenarios| ==> (Own(m, e, k) <==> k == at)
  {
    if e.tag.Some? then ScenarioIndex(m, e.tag.value) else |m.scenarios|
  }

  lemma {:induction false} BoundaryStep(m: Manifest, st: Machine, rows: seq<Event>, e: Event, k: nat)
    requires ValidManifest(m) && k < |m.scenarios| && MachineInBounds(m, st) && BoundaryCounts(m, st, rows, k)
    requires Placed(m, st, e)
    ensures MachineInBounds(m, Advance(st, e)) && BoundaryCounts(m, Advance(st, e), rows + [e], k)
  {
    BoundarySelections(m, rows, e, k);
    assert forall j :: 0 <= j < |m.scenarios| && j != k ==> m.scenarios[j].id != m.scenarios[k].id;
  }

  lemma {:induction false} BoundariesCounted(m: Manifest, binding: string, rows: seq<Event>, k: nat)
    requires ValidManifest(m) && Admitted(m, binding, rows) && k < |m.scenarios|
    ensures MachineInBounds(m, After(rows)) && BoundaryCounts(m, After(rows), rows, k)
  {
    if rows != [] {
      assert rows == DropLast(rows) + [Last(rows)];
      BoundariesCounted(m, binding, DropLast(rows), k);
      BoundaryStep(m, After(DropLast(rows)), DropLast(rows), Last(rows), k);
    }
  }

  // ----- sums over scenarios are sums over the log --------------------------

  /** How many of the first `k` scenarios own the event. */
  function Owners(m: Manifest, e: Event, k: nat): nat
    requires k <= |m.scenarios|
  {
    if k == 0 then 0 else Owners(m, e, k - 1) + if Own(m, e, k - 1) then 1 else 0
  }

  lemma {:induction false} OneOwner(m: Manifest, e: Event, at: nat, k: nat)
    requires k <= |m.scenarios| && forall j :: 0 <= j < |m.scenarios| ==> (Own(m, e, j) <==> j == at)
    ensures Owners(m, e, k) == if at < k then 1 else 0
  {
    if k != 0 { OneOwner(m, e, at, k - 1); }
  }

  /** A measure of event lists that grows by one with each event of a class. */
  ghost predicate Counts(count: seq<Event> -> nat, hit: Event -> bool) {
    count([]) == 0 && forall es, e :: count(es + [e]) == count(es) + if hit(e) then 1 else 0
  }

  function TotalOver(count: seq<Event> -> nat, m: Manifest, rows: seq<Event>, k: nat): nat
    requires k <= |m.scenarios|
  {
    if k == 0 then 0 else TotalOver(count, m, rows, k - 1) + count(EventsOf(m, rows, k - 1))
  }

  lemma {:induction false} TotalStep(
    count: seq<Event> -> nat, hit: Event -> bool, m: Manifest, rows: seq<Event>, e: Event, k: nat)
    requires Counts(count, hit) && k <= |m.scenarios|
    ensures TotalOver(count, m, rows + [e], k) == TotalOver(count, m, rows, k) + if hit(e) then Owners(m, e, k) else 0
  {
    if k != 0 {
      TotalStep(count, hit, m, rows, e, k - 1);
      WithTagSnoc(rows, e, Some(m.scenarios[k - 1].id));
    }
  }

  /** Counting scenario by scenario counts the whole log, when only tagged events
      are counted: each has exactly one owner. */
  lemma {:induction false} TotalIsCount(count: seq<Event> -> nat, hit: Event -> bool, m: Manifest, rows: seq<Event>)
    requires ValidManifest(m) && Counts(count, hit)
    requires forall e :: e in rows ==> TagOk(m, e) && (hit(e) ==> e.tag.Some?)
    ensures TotalOver(count, m, rows, |m.scenarios|) == count(rows)
  {
    if rows == [] {
      EmptyTotal(count, hit, m, |m.scenarios|);
    } else {
      var init, e, n := DropLast(rows), Last(rows), |m.scenarios|;
      assert rows == init + [e];
      TotalIsCount(count, hit, m, init);
      TotalStep(count, hit, m, init, e, n);
      if hit(e) { OneOwner(m, e, OwnerOf(m, e), n); }
    }
  }

  lemma {:induction false} EmptyTotal(count: seq<Event> -> nat, hit: Event -> bool, m: Manifest, k: nat)
    requires Counts(count, hit) && k <= |m.scenarios|
    ensures TotalOver(count, m, [], k) == 0
  {
    if k != 0 { EmptyTotal(count, hit, m, k - 1); }
  }

  function OutcomeCounter(o: Outcome): seq<Event> -> nat {
    (es: seq<Event>) => Outcomes(Requests(es))[o]
  }

  function Reporting(o: Outcome): Event -> bool {
    (e: Event) => e.body.Request? && e.body.request.outcome == o
  }

  lemma {:induction false} OutcomeCounterCounts(o: Outcome)
    ensures Counts(OutcomeCounter(o), Reporting(o))
  {
    forall es: seq<Event>, e: Event
      ensures OutcomeCounter(o)(es + [e]) == OutcomeCounter(o)(es) + if Reporting(o)(e) then 1 else 0
    {
      SelectionsSnoc(es, e);
      if e.body.Request? {
        assert DropLast(Requests(es) + [e.body.request]) == Requests(es);
      }
    }
  }

  lemma {:induction false} CountsAdd(before: multiset<Outcome>, es: seq<Event>, o: Outcome)
    ensures (before + Outcomes(Requests(es)))[o] == before[o] + OutcomeCounter(o)(es)
  {
  }

  lemma {:induction false} OutcomesUpToCounts(m: Manifest, rows: seq<Event>, k: nat, o: Outcome)
    requires k <= |m.scenarios|
    ensures OutcomesUpTo(m, rows, k)[o] == TotalOver(OutcomeCounter(o), m, rows, k)
  {
    if k != 0 {
      OutcomesUpToCounts(m, rows, k - 1, o);
      CountsAdd(OutcomesUpTo(m, rows, k - 1), EventsOf(m, rows, k - 1), o);
    }
  }

  lemma {:induction false} OutcomesOfAllScenarios(m: Manifest, rows: seq<Event>)
    requires ValidManifest(m) && forall e :: e in rows ==> TagOk(m, e)
    ensures OutcomesUpTo(m, rows, |m.scenarios|) == Outcomes(Requests(rows))
  {
    forall o ensures OutcomesUpTo(m, rows, |m.scenarios|)[o] == Outcomes(Requests(rows))[o] {
      OutcomeCounterCounts(o);
      TotalIsCount(OutcomeCounter(o), Reporting(o), m, rows);
      OutcomesUpToCounts(m, rows, |m.scenarios|, o);
    }
  }

  lemma {:induction false} NoMaxima(m: Manifest, k: nat)
    requires k <= |m.scenarios|
    ensures MaximaUpTo(m, [], k) == None
  {
    if k != 0 { NoMaxima(m, k - 1); }
  }

  lemma {:induction false} RaiseCommutes(acc: Option<Counters>, c: Counters, samples: seq<Reading>)
    ensures MaximaOver(RaiseMaxima(acc, c), samples) == RaiseMaxima(MaximaOver(acc, samples), c)
  {
    if samples != [] { RaiseCommutes(acc, c, DropLast(samples)); }
  }

  lemma {:induction false} MaximaStep(m: Manifest, rows: seq<Event>, e: Event, at: nat, k: nat)
    requires k <= |m.scenarios| && forall j :: 0 <= j < |m.scenarios| ==> (Own(m, e, j) <==> j == at)
    ensures MaximaUpTo(m, rows + [e], k) ==
            if e.body.Sample? && at < k
            then RaiseMaxima(MaximaUpTo(m, rows, k), e.body.sample.counters) else MaximaUpTo(m, rows, k)
  {
    if k != 0 {
      MaximaStep(m, rows, e, at, k - 1);
      SampleSelections(m, rows, e, k - 1, MaximaUpTo(m, rows + [e], k - 1));
      if e.body.Sample? {
        RaiseCommutes(MaximaUpTo(m, rows, k - 1), e.body.sample.counters, Readings(EventsOf(m, rows, k - 1)));
      }
    }
  }

  lemma {:induction false} MaximaOfAllScenarios(m: Manifest, rows: seq<Event>)
    requires ValidManifest(m) && forall e :: e in rows ==> TagOk(m, e)
    ensures MaximaUpTo(m, rows, |m.scenarios|) == MaximaOver(None, TaggedReadings(rows))
  {
    if rows == [] {
      NoMaxima(m, |m.scenarios|);
    } else {
      var init, e := DropLast(rows), Last(rows);
      assert rows == init + [e];
      MaximaOfAllScenarios(m, init);
      MaximaStep(m, init, e, OwnerOf(m, e), |m.scenarios|);
      SelectionsSnoc(init, e);
      if e.body.Sample? && e.tag.Some? {
        var s := Reading(e.ns, e.body.sample);
        assert DropLast(TaggedReadings(init) + [s]) == TaggedReadings(init);
      }
    }
  }

  // ----- the run ------------------------------------------------------------

  predicate RollbackCounted(m: Manifest, states: States, rows: seq<Event>, k: nat)
    requires k < |m.scenarios|
  {
    var sc := m.scenarios[k];
    && sc.id in states
    && CountsHashes(sc.kind == Rollback, states[sc.id].requests.rollbackCount, states[sc.id].requests.rollbackAllExpected,
                    m.goldenSha256, Requests(EventsOf(m, rows, k)))
  }

  lemma {:induction false} RollbacksAgree(m: Manifest, states: States, rows: seq<Event>, k: nat, mode: Mode)
    requires IsSha256(m.goldenSha256) && k <= |m.scenarios| && Covers(m, states)
    requires forall j :: 0 <= j < |m.scenarios| ==> RollbackCounted(m, states, rows, j)
    ensures RollbackOf(BoundRollbacksUpTo(m, states, k), mode) == {Some(m.goldenSha256)} <==>
            RollbackOf(RollbacksUpTo(m, rows, k), mode) == {Some(m.goldenSha256)}
  {
    if k != 0 {
      RollbacksAgree(m, states, rows, k - 1, mode);
      var sc := m.scenarios[k - 1];
      if sc.kind == Rollback && sc.mode == mode {
        var r := states[sc.id].requests;
        assert RollbackCounted(m, states, rows, k - 1);
        HashesAgree(r.rollbackCount, r.rollbackAllExpected, m.goldenSha256, Requests(EventsOf(m, rows, k - 1)));
      }
    }
  }

  lemma {:induction false} LastGlobalBound(rows: seq<Event>)
    ensures LastGlobalIndex(rows).Some? ==> LastGlobalIndex(rows).value <= |rows|
  {
    if rows != [] { LastGlobalBound(DropLast(rows)); }
  }

  lemma {:induction false} PenultimateGlobal(rows: seq<Event>)
    requires rows != [] && Last(rows).body.RunEnd?
    ensures LastGlobalIndex(rows) == Some(|rows| - 1) <==>
            2 <= |rows| && rows[|rows| - 2].tag.None? && rows[|rows| - 2].body.Sample?
  {
    var init := DropLast(rows);
    if init != [] {
      assert Last(init) == rows[|rows| - 2];
      LastGlobalBound(DropLast(init));
    }
  }

  lemma {:induction false} FinalAgrees(run: RunInfo, f: Retained, rows: seq<Event>)
    requires rows != [] && Last(rows).body.RunEnd?
    requires ProcessOf(f.process, TaggedReadings(rows)) && GlobalOf(f.global, rows)
    ensures BoundFinalChecks(run, f, |rows|) == FinalChecks(run, rows)
    ensures BoundFinal(f.global) == FinalValuesOf(rows)
  {
    PenultimateGlobal(rows);
  }

  lemma {:induction false} HygieneAgrees(f: Retained, rows: seq<Event>)
    requires ChildrenOf(f.children, Readings(rows)) && NotesOf(f.notes, rows)
    ensures SameChecks(BoundHygieneChecks(f), HygieneChecks(rows))
  {
  }

  lemma {:induction false} BoundaryAgrees(b: Bounds, rows: seq<Event>)
    requires rows != [] && BoundsOf(b, rows)
    ensures BoundBoundaryCheck(b) == BoundaryCheck(rows)
  {
  }

  lemma {:induction false} RollbacksCounted(m: Manifest, states: States, rows: seq<Event>)
    requires SummarizesAll(m, states, rows)
    ensures Covers(m, states)
    ensures forall j :: 0 <= j < |m.scenarios| ==> RollbackCounted(m, states, rows, j)
  {
  }

  lemma {:induction false} ParityAgrees(m: Manifest, states: States, n: Notes, rows: seq<Event>)
    requires IsSha256(m.goldenSha256) && Covers(m, states) && NotesOf(n, rows)
    requires forall j :: 0 <= j < |m.scenarios| ==> RollbackCounted(m, states, rows, j)
    ensures SameChecks(BoundParityChecks(m, n, BoundRollbacksUpTo(m, states, |m.scenarios|)),
                       ParityChecks(m, rows, RollbacksUpTo(m, rows, |m.scenarios|)))
  {
    RollbacksAgree(m, states, rows, |m.scenarios|, IterationBatch);
    RollbacksAgree(m, states, rows, |m.scenarios|, PerOperation);
  }

  /** The tail statistics that the two passes leave for each scenario. */
  predicate TailsHold(m: Manifest, tails: Tails, rows: seq<Event>) {
    forall k :: 0 <= k < |m.scenarios| ==> TailHolds(m, tails, rows, k)
  }

  predicate TailHolds(m: Manifest, tails: Tails, rows: seq<Event>, k: nat)
    requires k < |m.scenarios|
  {
    var es := EventsOf(m, rows, k);
    && m.scenarios[k].id in tails
    && tails[m.scenarios[k].id] == BothPasses(TailStart(m, |Readings(es)|), PlateauTail(m, es))
  }

  /** One scenario's checks and summary agree, for any plateau figures. */
  predicate ScenarioSame(m: Manifest, states: States, rows: seq<Event>, p: Plateau, k: nat)
    requires k < |m.scenarios| && Covers(m, states)
  {
    var sc, es := m.scenarios[k], EventsOf(m, rows, k);
    && SameChecks(BoundScenarioChecks(m, sc, states[sc.id], p), ScenarioChecks(m, sc, es, p))
    && BoundSummary(sc, states[sc.id], p) == ScenarioSummary(sc, es, p)
  }

  lemma {:induction false} OneScenarioAgrees(
      m: Manifest, binding: string, states: States, rows: seq<Event>, p: Plateau, k: nat)
    requires ValidManifest(m) && Admitted(m, binding, rows) && k < |m.scenarios| && Covers(m, states)
    requires Summarizes(m, m.scenarios[k], states[m.scenarios[k].id], EventsOf(m, rows, k))
    ensures ScenarioSame(m, states, rows, p, k)
  {
    BoundariesCounted(m, binding, rows, k);
    ScenarioAgrees(m, m.scenarios[k], states[m.scenarios[k].id], EventsOf(m, rows, k), p);
  }

  lemma {:induction false} ScenariosAgree(m: Manifest, states: States, rows: seq<Event>, ps: seq<Plateau>, k: nat)
    requires k <= |m.scenarios| == |ps| && Covers(m, states)
    requires forall j :: 0 <= j < k ==> ScenarioSame(m, states, rows, ps[j], j)
    ensures SameChecks(BoundChecksUpTo(m, states, ps, k), ChecksUpTo(m, rows, ps, k))
  {
    if k != 0 {
      ScenariosAgree(m, states, rows, ps, k - 1);
      var sc := m.scenarios[k - 1];
      assert ScenarioSame(m, states, rows, ps[k - 1], k - 1);
      SameChecksAppend(BoundChecksUpTo(m, states, ps, k - 1), ChecksUpTo(m, rows, ps, k - 1),
                       BoundScenarioChecks(m, sc, states[sc.id], ps[k - 1]),
                       ScenarioChecks(m, sc, EventsOf(m, rows, k - 1), ps[k - 1]));
    }
  }

  lemma {:induction false} SummariesAgree(m: Manifest, states: States, rows: seq<Event>, ps: seq<Plateau>, k: nat)
    requires k <= |m.scenarios| == |ps| && Covers(m, states)
    requires forall j :: 0 <= j < k ==> ScenarioSame(m, states, rows, ps[j], j)
    ensures BoundSummariesUpTo(m, states, ps, k) == SummariesUpTo(m, rows, ps, k)
  {
    if k != 0 {
      SummariesAgree(m, states, rows, ps, k - 1);
      assert ScenarioSame(m, states, rows, ps[k - 1], k - 1);
    }
  }

  /** The reports agree on the verdict, on every check's result, on the summaries
      and on the observations; a passing report agrees on everything. */
  predicate SameReport(a: Report, b: Report) {
    a == b.(checks := a.checks) && SameChecks(a.checks, b.checks) && (b.passed ==> a == b)
  }

  lemma {:induction false} AllTagged(m: Manifest, binding: string, rows: seq<Event>)
    requires Admitted(m, binding, rows)
    ensures forall e :: e in rows ==> TagOk(m, e)
  {
    forall e | e in rows ensures TagOk(m, e) {
      var i :| 0 <= i < |rows| && rows[i] == e;
      AdmittedAt(m, binding, rows, i);
    }
  }

  lemma {:induction false} ScenariosPart(
      m: Manifest, binding: string, rows: seq<Event>, states: States, ps: seq<Plateau>)
    requires ValidManifest(m) && Admitted(m, binding, rows) && SummarizesAll(m, states, rows) && |ps| == |m.scenarios|
    ensures Covers(m, states)
    ensures var n := |m.scenarios|;
            && SameChecks(BoundChecksUpTo(m, states, ps, n), ChecksUpTo(m, rows, ps, n))
            && BoundSummariesUpTo(m, states, ps, n) == SummariesUpTo(m, rows, ps, n)
  {
    forall k | 0 <= k < |m.scenarios| ensures ScenarioSame(m, states, rows, ps[k], k) {
      OneScenarioAgrees(m, binding, states, rows, ps[k], k);
    }
    ScenariosAgree(m, states, rows, ps, |m.scenarios|);
    SummariesAgree(m, states, rows, ps, |m.scenarios|);
  }

  lemma {:induction false} SumsPart(m: Manifest, binding: string, rows: seq<Event>, f: Retained)
    requires ValidManifest(m) && Admitted(m, binding, rows) && Represents(m, f, rows)
    ensures var n := |m.scenarios|;
            f.notes.outcomes == OutcomesUpTo(m, rows, n) && f.process.maxima == MaximaUpTo(m, rows, n)
  {
    AllTagged(m, binding, rows);
    OutcomesOfAllScenarios(m, rows);
    MaximaOfAllScenarios(m, rows);
  }

  lemma {:induction false} RunPart(m: Manifest, run: RunInfo, rows: seq<Event>, f: Retained)
    requires ValidManifest(m) && Accepts(m, run.binding, rows) && Represents(m, f, rows)
    ensures BoundFinalChecks(run, f, |rows|) == FinalChecks(run, rows) && BoundFinal(f.global) == FinalValuesOf(rows)
    ensures SameChecks(BoundHygieneChecks(f), HygieneChecks(rows)) && BoundBoundaryCheck(f.bounds) == BoundaryCheck(rows)
  {
    FinalAgrees(run, f, rows);
    HygieneAgrees(f, rows);
    BoundaryAgrees(f.bounds, rows);
  }

  lemma {:induction false} ParityPart(m: Manifest, rows: seq<Event>, f: Retained)
    requires ValidManifest(m) && Represents(m, f, rows)
    ensures Covers(m, f.states)
    ensures var n := |m.scenarios|;
            SameChecks(BoundParityChecks(m, f.notes, BoundRollbacksUpTo(m, f.states, n)),
                       ParityChecks(m, rows, RollbacksUpTo(m, rows, n)))
  {
    RollbacksCounted(m, f.states, rows);
    ParityAgrees(m, f.states, f.notes, rows);
  }

  /** For any plateau figures, retained facts and list give agreeing reports. */
  lemma {:induction false} ReportsAgree(m: Manifest, run: RunInfo, rows: seq<Event>, f: Retained, ps: seq<Plateau>)
    requires ValidManifest(m) && Accepts(m, run.binding, rows) && Represents(m, f, rows) && |ps| == |m.scenarios|
    ensures Covers(m, f.states)
    ensures SameReport(BoundReportWith(m, run, f, ps, |rows|), BatchReportWith(m, run, rows, ps))
  {
    ScenariosPart(m, run.binding, rows, f.states, ps);
    SumsPart(m, run.binding, rows, f);
    RunPart(m, run, rows, f);
    ParityPart(m, rows, f);
    ChecksAssemble(m, run, rows, f, ps);
  }

  lemma {:induction false} SelfSame(a: seq<Check>)
    ensures SameChecks(a, a)
  {
  }

  lemma {:induction false} ChecksAssemble(m: Manifest, run: RunInfo, rows: seq<Event>, f: Retained, ps: seq<Plateau>)
    requires rows != [] && Covers(m, f.states) && |ps| == |m.scenarios|
    requires var n := |m.scenarios|;
      && SameChecks(BoundChecksUpTo(m, f.states, ps, n), ChecksUpTo(m, rows, ps, n))
      && BoundSummariesUpTo(m, f.states, ps, n) == SummariesUpTo(m, rows, ps, n)
      && f.notes.outcomes == OutcomesUpTo(m, rows, n) && f.process.maxima == MaximaUpTo(m, rows, n)
      && BoundFinalChecks(run, f, |rows|) == FinalChecks(run, rows) && BoundFinal(f.global) == FinalValuesOf(rows)
      && SameChecks(BoundHygieneChecks(f), HygieneChecks(rows))
      && BoundBoundaryCheck(f.bounds) == BoundaryCheck(rows)
      && SameChecks(BoundParityChecks(m, f.notes, BoundRollbacksUpTo(m, f.states, n)),
                    ParityChecks(m, rows, RollbacksUpTo(m, rows, n)))
    ensures SameReport(BoundReportWith(m, run, f, ps, |rows|), BatchReportWith(m, run, rows, ps))
  {
    var n := |m.scenarios|;
    var boundary, final := [BoundaryCheck(rows)], FinalChecks(run, rows);
    var counters := CounterChecks(m.thresholds, f.notes.outcomes, f.process.maxima);
    var a1, b1 := BoundChecksUpTo(m, f.states, ps, n), ChecksUpTo(m, rows, ps, n);
    var a2, b2 := BoundHygieneChecks(f), HygieneChecks(rows);
    var a3, b3 := BoundParityChecks(m, f.notes, BoundRollbacksUpTo(m, f.states, n)),
                  ParityChecks(m, rows, RollbacksUpTo(m, rows, n));
    SelfSame(boundary); SelfSame(final); SelfSame(counters);
    SameChecksAppend(boundary, boundary, a1, b1);
    SameChecksAppend(boundary + a1, boundary + b1, final, final);
    SameChecksAppend(boundary + a1 + final, boundary + b1 + final, a2, b2);
    SameChecksAppend(boundary + a1 + final + a2, boundary + b1 + final + b2, counters, counters);
    SameChecksAppend(boundary + a1 + final + a2 + counters, boundary + b1 + final + b2 + counters, a3, b3);
    SameChecksPass(boundary + a1 + final + a2 + counters + a3, boundary + b1 + final + b2 + counters + b3);
  }

  // ----- the tail passes on an accepted log ---------------------------------

  lemma {:induction false} ReplayKnows(callback: Callback, selected: Tails, rows: seq<Event>)
    requires forall e :: e in rows && e.tag.Some? ==> e.tag.value in selected
    ensures ReplayRows(callback, selected, rows).known
  {
    if rows != [] {
      assert Last(rows) in rows;
      assert forall e :: e in DropLast(rows) ==> e in rows;
      ReplayKnows(callback, selected, DropLast(rows));
    }
  }

  lemma {:induction false} FirstPassKeepsStart(st: TailState, points: seq<Reading>)
    ensures Visit(FirstPass, st, points).startIndex == st.startIndex
  {
    if points != [] { FirstPassKeepsStart(st, DropLast(points)); }
  }

  /** What the retained states say about sample counts. */
  predicate CountsHold(states: States, rows: seq<Event>) {
    forall id :: id in states ==> states[id].samples.count == |SamplesOf(rows, id)|
  }

  lemma {:induction false} CountsFromSummaries(m: Manifest, states: States, rows: seq<Event>)
    requires SummarizesAll(m, states, rows)
    ensures CountsHold(states, rows)
  {
  }

  /** On the log that produced the counts, a pass completes and leaves each
      scenario's window visited. */
  lemma {:induction false} PassCompletes(callback: Callback, states: States, selected: Tails, rows: seq<Event>)
    requires selected.Keys == states.Keys && CountsHold(states, rows)
    requires forall e :: e in rows && e.tag.Some? ==> e.tag.value in selected
    ensures PassResult(states, ReplayRows(callback, selected, rows)) == Some(ReplayRows(callback, selected, rows).tails)
    ensures forall id :: id in selected ==>
              ReplayRows(callback, selected, rows).tails[id] ==
              Visit(callback, selected[id], Window(SamplesOf(rows, id), selected[id].startIndex))
  {
    ReplayKnows(callback, selected, rows);
    forall id | id in selected
      ensures ReplayRows(callback, selected, rows).positions[id] == |SamplesOf(rows, id)|
      ensures ReplayRows(callback, selected, rows).tails[id] ==
              Visit(callback, selected[id], Window(SamplesOf(rows, id), selected[id].startIndex))
    {
      ReplayedScenario(callback, selected, rows, id);
    }
  }

  lemma {:induction false} TailAfterPasses(m: Manifest, count: nat, tails: Tails, rows: seq<Event>, k: nat)
    requires k < |m.scenarios| && m.scenarios[k].id in tails
    requires var id, start := m.scenarios[k].id, TailStart(m, count);
      var samples := SamplesOf(rows, id);
      var first := Visit(FirstPass, FreshTail(start), Window(samples, start));
      && count == |samples|
      && tails[id] == Visit(SecondPass, first, Window(samples, first.startIndex))
    ensures TailHolds(m, tails, rows, k)
  {
    var samples, start := SamplesOf(rows, m.scenarios[k].id), TailStart(m, count);
    FirstPassKeepsStart(FreshTail(start), Window(samples, start));
    WindowIsTail(samples, TailCount(|samples|, m.thresholds.plateauTailFraction));
  }

  lemma {:induction false} TwoPasses(m: Manifest, states: States, rows: seq<Event>)
    requires Covers(m, states) && CountsHold(states, rows)
    requires forall e :: e in rows && e.tag.Some? ==> e.tag.value in states
    ensures TailResult(m, states, rows).Some? && TailsHold(m, TailResult(m, states, rows).value, rows)
  {
    var selected := Selection(m, states);
    var first := ReplayRows(FirstPass, selected, rows).tails;
    PassCompletes(FirstPass, states, selected, rows);
    PassCompletes(SecondPass, states, first, rows);
    var second := ReplayRows(SecondPass, first, rows).tails;
    forall k | 0 <= k < |m.scenarios| ensures TailHolds(m, second, rows, k) {
      var id := m.scenarios[k].id;
      TailAfterPasses(m, states[id].samples.count, second, rows, k);
    }
  }

  // ----- the whole replay ---------------------------------------------------

  lemma {:induction false} RefusedEvent(m: Manifest, binding: string, rows: seq<Event>, i: nat)
    requires i < |rows| && !EventOk(m, binding, After(rows[..i]), rows[i])
    ensures !Accepts(m, binding, rows)
  {
    assert rows[..i + 1] == rows[..i] + [rows[i]];
    AdmittedSnoc(m, binding, rows[..i], rows[i]);
    AdmittedPrefix(m, binding, rows, i + 1);
  }

  lemma {:induction false} AcceptedTails(m: Manifest, binding: string, rows: seq<Event>)
    requires ValidManifest(m) && Accepts(m, binding, rows)
    ensures var tails := TailResult(m, Reduce(m, rows).states, rows);
            tails.Some? && TailsHold(m, tails.value, rows)
  {
    var f := Reduce(m, rows);
    ReduceRepresents(m, binding, rows);
    AllTagged(m, binding, rows);
    CountsFromSummaries(m, f.states, rows);
    RollbacksCounted(m, f.states, rows);
    forall e | e in rows && e.tag.Some? ensures e.tag.value in f.states { assert TagOk(m, e); }
    TwoPasses(m, f.states, rows);
  }

  /** The first pass: consume every event, then check the closing bracket. */
  method ReduceLog(m: Manifest, binding: string, rows: seq<Event>) returns (r: Option<Retained>)
    requires ValidManifest(m)
    ensures r == if Accepts(m, binding, rows) then Some(Reduce(m, rows)) else None
  {
    var reducer := new Reducer(m, binding);
    for i := 0 to |rows|
      invariant reducer.Valid() && reducer.m == m && reducer.binding == binding
      invariant reducer.seen == rows[..i]
    {
      var ok := reducer.Consume(rows[i]);
      if !ok {
        RefusedEvent(m, binding, rows, i);
        return None;
      }
      assert rows[..i + 1] == rows[..i] + [rows[i]];
    }
    assert rows[..|rows|] == rows;
    var bracketed := reducer.Finish();
    return if bracketed then Some(reducer.kept) else None;
  }

  predicate SameEvaluation(a: Option<Report>, b: Option<Report>) {
    (a.Some? <==> b.Some?) && (a.Some? ==> SameReport(a.value, b.value))
  }

  /** The time bounds from retained state and the Docker time check decide whether a
      finished report is given out. */
  function Conclude(elapsed: int, bounds: Bounds, report: Report): Option<Report> {
    if bounds.firstNs.None? || bounds.lastNs.None? then None
    else if elapsed < bounds.lastNs.value - bounds.firstNs.value then None
    else Some(report)
  }

  predicate BoundsAre(b: Bounds, rows: seq<Event>)
    requires rows != []
  {
    b.firstNs == Some(rows[0].ns) && b.lastNs == Some(Last(rows).ns)
  }

  /** The tail statistics give the plateau figures of the list. */
  lemma {:induction false} PlateausAgree(m: Manifest, rows: seq<Event>, tails: Tails)
    requires TailsHold(m, tails, rows)
    ensures Covers(m, tails) && BoundPlateaus(m, tails) == Plateaus(m, rows)
  {
    forall k | 0 <= k < |m.scenarios|
      ensures m.scenarios[k].id in tails
      ensures BoundPlateau(tails[m.scenarios[k].id]) == PlateauOf(PlateauTail(m, EventsOf(m, rows, k)))
    {
      assert TailHolds(m, tails, rows, k);
      PlateauAgrees(TailStart(m, |Readings(EventsOf(m, rows, k))|), PlateauTail(m, EventsOf(m, rows, k)));
    }
  }

  /** From agreeing reports and the list's bounds, the two checkers give out alike. */
  lemma {:induction false} ConclusionsAgree(
      m: Manifest, run: RunInfo, rows: seq<Event>, b: Bounds, bound: Report, report: Report)
    requires Accepts(m, run.binding, rows) && report == BatchReport(m, run, rows)
    requires BoundsAre(b, rows) && SameReport(bound, report)
    ensures SameEvaluation(Conclude(run.elapsedNs, b, bound), Evaluate(m, run, rows))
  {
  }

  /** The reports that the two checkers build agree. */
  lemma {:induction false} FinishedReportsAgree(
    m: Manifest, run: RunInfo, rows: seq<Event>, f: Retained, tails: Tails, a: Report, b: Report)
    requires ValidManifest(m) && Accepts(m, run.binding, rows) && Represents(m, f, rows) && TailsHold(m, tails, rows)
    requires Covers(m, f.states) && Covers(m, tails)
    requires a == BoundReport(m, run, f, tails, |rows|) && b == BatchReport(m, run, rows)
    ensures SameReport(a, b)
  {
    PlateausAgree(m, rows, tails);
    ReportsAgree(m, run, rows, f, Plateaus(m, rows));
  }

  lemma {:induction false} BoundsHold(m: Manifest, rows: seq<Event>, f: Retained, tails: Tails)
    requires Represents(m, f, rows) && rows != [] && TailsHold(m, tails, rows)
    ensures BoundsAre(f.bounds, rows) && Covers(m, f.states) && Covers(m, tails)
  {
    forall k | 0 <= k < |m.scenarios| ensures m.scenarios[k].id in tails { assert TailHolds(m, tails, rows, k); }
  }

  /** On an accepted log, what the three passes leave gives the list's time bounds
      and a report that agrees with the list's. */
  lemma {:induction false} PassesAgree(
      m: Manifest, run: RunInfo, rows: seq<Event>, f: Retained, tails: Tails, report: Report)
    requires ValidManifest(m) && Accepts(m, run.binding, rows)
    requires f == Reduce(m, rows) && TailResult(m, f.states, rows) == Some(tails) && report == BatchReport(m, run, rows)
    ensures BoundsAre(f.bounds, rows) && Covers(m, f.states) && Covers(m, tails)
    ensures SameReport(BoundReport(m, run, f, tails, |rows|), report)
  {
    ReduceRepresents(m, run.binding, rows);
    AcceptedTails(m, run.binding, rows);
    BoundsHold(m, rows, f, tails);
    FinishedReportsAgree(m, run, rows, f, tails, BoundReport(m, run, f, tails, |rows|), report);
  }

  /** `replay_bound_raw_evidence_fd` at event level: three passes over the log and
      no event list. It yields a report exactly when the list-based checker does,
      with the same result for every named check. */
  method Replay(m: Manifest, run: RunInfo, rows: seq<Event>) returns (r: Option<Report>)
    requires ValidManifest(m)
    ensures SameEvaluation(r, Evaluate(m, run, rows))
  {
    var reduced := ReduceLog(m, run.binding, rows);
    if reduced.None? { return None; }
    var tails := CollectTails(m, reduced.value.states, rows);
    AcceptedTails(m, run.binding, rows);
    ghost var report := BatchReport(m, run, rows);
    PassesAgree(m, run, rows, reduced.value, tails.value, report);
    var bound := BoundReport(m, run, reduced.value, tails.value, |rows|);
    ConclusionsAgree(m, run, rows, reduced.value.bounds, bound, report);
    r := Conclude(run.elapsedNs, reduced.value.bounds, bound);
  }
}
