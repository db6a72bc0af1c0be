/** The held-descriptor soak replay: one reducing pass, two tail passes and a
    report built from the retained state alone, related to the list-based
    evaluation of the same events. */
module SoakReplay {
  import opened Sequences
  import opened SoakEvents
  import opened SoakBatch
  import opened SoakReducer
  import opened SoakTail

  // ----- the report built from retained state -------------------------------

  const Nonmatching: Option<string> := Some("NONCANONICAL_OR_NONMATCHING_HASH")

  function BoundedHashes(count: nat, allExpected: bool, golden: string): set<Option<string>> {
    if 0 < count && allExpected then {Some(golden)} else if count == 0 then {} else {Nonmatching}
  }

  function BoundDuration(st: ShapeState): real {
    if st.startCount == 1 && st.endCount == 1 && st.startNs.Some? && st.endNs.Some?
    then Seconds(st.endNs.value - st.startNs.value) else 0.0
  }

  function BoundSpan(st: SampleState): real {
    if 2 <= st.count && st.firstNs.Some? && st.lastNs.Some?
    then Seconds(st.lastNs.value - st.firstNs.value) else 0.0
  }

  /** A counter without the entries of the given outcomes. */
  function Without(outcomes: multiset<Outcome>, allowed: seq<Outcome>): multiset<Outcome> {
    if allowed == [] then outcomes else Without(outcomes[Last(allowed) := 0], DropLast(allowed))
  }

  function BoundShapeChecks(m: Manifest, sc: Scenario, st: ScenarioState): seq<Check> {
    var sh := st.shape;
    var complete :=
      && sh.kinds[KScenarioStart] == 1 && sh.kinds[KScenarioEnd] == 1 && 0 < sh.eventCount
      && sh.firstKind == Some(KScenarioStart) && sh.lastStatus == Some(Succeeded);
    [ Check(OfScenario(sc.id, Complete), complete, OKinds(sh.kinds)),
      Check(OfScenario(sc.id, CompletionMode),
            sh.startCount == 1 && sh.executionCompletion == Some(sc.mode),
            OMode(if 0 < sh.startCount then sh.executionCompletion else None)),
      Check(OfScenario(sc.id, CountersMonotone), st.samples.countersMonotonic, OBool(st.samples.countersMonotonic)),
      Check(OfScenario(sc.id, SampleCount), m.thresholds.minimumSamples <= st.samples.count, OInt(st.samples.count)),
      Check(OfScenario(sc.id, RequestCount), 0 < st.requests.count, OInt(st.requests.count)) ]
  }

  function BoundTimingChecks(m: Manifest, sc: Scenario, st: ScenarioState): seq<Check> {
    var th, duration, span, gap := m.thresholds, BoundDuration(st.shape), BoundSpan(st.samples), st.samples.maximumGapMs;
    [ Check(OfScenario(sc.id, Duration), sc.durationSeconds as real <= duration, OReal(duration)),
      Check(OfScenario(sc.id, SampleCoverage), RequiredSpanSeconds(th, sc.durationSeconds) <= span, OReal(span)),
      Check(OfScenario(sc.id, SampleGap), gap <= th.maximumSampleGapMs as real, OReal(gap)) ]
  }

  function BoundPlateau(tail: TailState): Plateau {
    Plateau(BoundGrowth(tail, Rss), BoundSlope(tail, Rss), BoundGrowth(tail, Vram), BoundSlope(tail, Vram))
  }

  function BoundOutcomeChecks(m: Manifest, sc: Scenario, st: RequestState): seq<Check> {
    var unexpected := Without(st.outcomes, AllowedOutcomes(sc.kind));
    var hashes := BoundedHashes(st.goldenCount, st.goldenAllExpected, m.goldenSha256);
    [Check(OfScenario(sc.id, RequestOutcomes), unexpected == multiset{}, OOutcomes(unexpected))]
    + if GoldenOnly(m, sc)
      then [Check(OfScenario(sc.id, GoldenParity), hashes == {Some(m.goldenSha256)}, OHashes(hashes))]
      else []
  }

  function BoundScenarioChecks(m: Manifest, sc: Scenario, st: ScenarioState, p: Plateau): seq<Check> {
    BoundShapeChecks(m, sc, st) + BoundTimingChecks(m, sc, st)
    + PlateauChecks(m.thresholds, sc.id, p) + BoundOutcomeChecks(m, sc, st.requests)
  }

  function BoundSummary(sc: Scenario, st: ScenarioState, p: Plateau): Summary {
    Summary(sc.id, sc.kind, st.shape.eventCount, st.samples.count, st.requests.count, st.samples.maximumGapMs,
            BoundDuration(st.shape), BoundSpan(st.samples), p.rssSlope, p.vramSlope)
  }

  type States = map<ScenarioId, ScenarioState>
  type Tails = map<ScenarioId, TailState>

  /** Every manifest scenario has an entry. */
  predicate Covers<T>(m: Manifest, entries: map<ScenarioId, T>) {
    forall k :: 0 <= k < |m.scenarios| ==> m.scenarios[k].id in entries
  }

  function BoundPlateaus(m: Manifest, tails: Tails): (ps: seq<Plateau>)
    requires Covers(m, tails)
    ensures |ps| == |m.scenarios|
  {
    seq(|m.scenarios|, k requires 0 <= k < |m.scenarios| => BoundPlateau(tails[m.scenarios[k].id]))
  }

  function BoundChecksUpTo(m: Manifest, states: States, ps: seq<Plateau>, k: nat): seq<Check>
    requires k <= |m.scenarios| == |ps| && Covers(m, states)
  {
    if k == 0 then []
    else
      var sc := m.scenarios[k - 1];
      BoundChecksUpTo(m, states, ps, k - 1) + BoundScenarioChecks(m, sc, states[sc.id], ps[k - 1])
  }

  function BoundSummariesUpTo(m: Manifest, states: States, ps: seq<Plateau>, k: nat): seq<Summary>
    requires k <= |m.scenarios| == |ps| && Covers(m, states)
  {
    if k == 0 then []
    else
      var sc := m.scenarios[k - 1];
      BoundSummariesUpTo(m, states, ps, k - 1) + [BoundSummary(sc, states[sc.id], ps[k - 1])]
  }

  function BoundRollbacksUpTo(m: Manifest, states: States, k: nat): map<Mode, set<Option<string>>>
    requires k <= |m.scenarios| && Covers(m, states)
  {
    if k == 0 then map[]
    else
      var sc, before := m.scenarios[k - 1], BoundRollbacksUpTo(m, states, k - 1);
      var r := states[sc.id].requests;
      if sc.kind == Rollback
      then before[sc.mode := BoundedHashes(r.rollbackCount, r.rollbackAllExpected, m.goldenSha256)] else before
  }

  function BoundBoundaryCheck(b: Bounds): Check {
    Check(RunBoundaries,
          b.kinds[KRunStart] == 1 && b.kinds[KRunEnd] == 1 && b.lastStatus == Some(Succeeded),
          OBoundaries(b.kinds[KRunStart], b.kinds[KRunEnd], b.lastStatus))
  }

  function BoundFinal(g: GlobalFacts): Option<FinalValues> {
    if g.sample.None? then None else Some(FinalOf(g.sample.value))
  }

  function BoundFinalChecks(run: RunInfo, f: Retained, count: nat): seq<Check> {
    [ Check(FinalSamplePosition, f.global.count == 1 && f.global.index == Some(count - 1), OInt(f.global.count)),
      Check(InitialTargetPid, f.process.firstPid == Some(run.targetPid), OPid(f.process.firstPid)),
      Check(FinalQuiescence, BoundFinal(f.global) == Some(Quiescent), OFinal(BoundFinal(f.global))) ]
  }

  function BoundHygieneChecks(f: Retained): seq<Check> {
    var python := if f.children.firstPython.None? then [] else [f.children.firstPython.value];
    [ Check(NoPythonChildren, python == [], OChildren(python)),
      Check(NoDroppedSamples, !f.children.dropped, OBool(f.children.dropped)),
      Check(NoFailureEvents, f.notes.failureCount == 0, OInt(f.notes.failureCount)) ]
  }

  function BoundParityChecks(m: Manifest, n: Notes, rollbacks: map<Mode, set<Option<string>>>): seq<Check> {
    var restarts := if n.firstRestart.None? then [] else [n.firstRestart.value];
    var batched, single := RollbackOf(rollbacks, IterationBatch), RollbackOf(rollbacks, PerOperation);
    [ Check(RestartGoldenParity,
            n.restartCount == 1 && n.firstRestart.Some? && RestartParity(m, n.firstRestart.value),
            ORestarts(restarts)),
      Check(RollbackGoldenParity,
            batched == {Some(m.goldenSha256)} && single == {Some(m.goldenSha256)},
            ORollback(batched, single)) ]
  }

  function BoundReportWith(m: Manifest, run: RunInfo, f: Retained, ps: seq<Plateau>, count: nat): Report
    requires Covers(m, f.states) && |ps| == |m.scenarios|
  {
    var n := |m.scenarios|;
    var checks :=
      [BoundBoundaryCheck(f.bounds)] + BoundChecksUpTo(m, f.states, ps, n) + BoundFinalChecks(run, f, count)
      + BoundHygieneChecks(f) + CounterChecks(m.thresholds, f.notes.outcomes, f.process.maxima)
      + BoundParityChecks(m, f.notes, BoundRollbacksUpTo(m, f.states, n));
    Report(AllPassed(checks), BoundSummariesUpTo(m, f.states, ps, n), count, f.notes.outcomes, f.process.maxima,
           BoundFinal(f.global), checks)
  }

  function BoundReport(m: Manifest, run: RunInfo, f: Retained, tails: Tails, count: nat): Report
    requires Covers(m, f.states) && Covers(m, tails)
  {
    BoundReportWith(m, run, f, BoundPlateaus(m, tails), count)
  }
}
