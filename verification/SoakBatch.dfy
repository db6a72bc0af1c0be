/** The list-based soak checker: it holds every event, validates the list and
    evaluates each named check from list selections. */
module SoakBatch {
  import opened Sequences
  import opened SoakEvents

  // ----- selections ---------------------------------------------------------

  function WithTag(rows: seq<Event>, tag: Option<ScenarioId>): seq<Event> {
    if rows == [] then []
    else WithTag(DropLast(rows), tag) + if Last(rows).tag == tag then [Last(rows)] else []
  }

  datatype Reading = Reading(ns: int, body: SampleBody)
  datatype Opening = Opening(ns: int, mode: Mode)

  function AsReading(e: Event): Option<Reading> {
    if e.body.Sample? then Some(Reading(e.ns, e.body.sample)) else None
  }

  function AsTaggedReading(e: Event): Option<Reading> {
    if e.tag.Some? then AsReading(e) else None
  }

  function AsRequest(e: Event): Option<RequestBody> {
    if e.body.Request? then Some(e.body.request) else None
  }

  function AsOpening(e: Event): Option<Opening> {
    if e.body.ScenarioStart? then Some(Opening(e.ns, e.body.mode)) else None
  }

  function AsClosingNs(e: Event): Option<int> {
    if e.body.ScenarioEnd? then Some(e.ns) else None
  }

  function AsRestartNs(e: Event): Option<int> {
    if e.body.Restart? then Some(e.ns) else None
  }

  function AsRestart(e: Event): Option<RestartBody> {
    if e.body.Restart? then Some(e.body.restart) else None
  }

  function AsFailure(e: Event): Option<string> {
    if e.body.FailureNote? then Some(e.body.message) else None
  }

  function Readings(es: seq<Event>): seq<Reading> { Collect(AsReading, es) }
  function TaggedReadings(es: seq<Event>): seq<Reading> { Collect(AsTaggedReading, es) }
  function Requests(es: seq<Event>): seq<RequestBody> { Collect(AsRequest, es) }
  function Openings(es: seq<Event>): seq<Opening> { Collect(AsOpening, es) }
  function ClosingTimes(es: seq<Event>): seq<int> { Collect(AsClosingNs, es) }
  function RestartTimes(es: seq<Event>): seq<int> { Collect(AsRestartNs, es) }
  function Restarts(es: seq<Event>): seq<RestartBody> { Collect(AsRestart, es) }
  function Failures(es: seq<Event>): seq<string> { Collect(AsFailure, es) }

  function Kinds(es: seq<Event>): multiset<Kind> {
    if es == [] then multiset{} else Kinds(DropLast(es)) + multiset{KindOf(Last(es))}
  }

  function Outcomes(requests: seq<RequestBody>): multiset<Outcome> {
    if requests == [] then multiset{}
    else Outcomes(DropLast(requests)) + multiset{Last(requests).outcome}
  }

  function SuccessHashes(requests: seq<RequestBody>): set<Option<string>> {
    set r | r in requests && r.outcome == Success :: r.generated
  }

  function PythonChildrenOf(children: seq<Child>): seq<Child> {
    if children == [] then []
    else PythonChildrenOf(DropLast(children)) + if Last(children).python then [Last(children)] else []
  }

  function PythonChildren(samples: seq<Reading>): seq<Child> {
    if samples == [] then []
    else PythonChildren(DropLast(samples)) + PythonChildrenOf(Last(samples).body.children)
  }

  // ----- per-scenario measures ----------------------------------------------

  predicate CountersRose(left: Counters, right: Counters) {
    && left.cancellations <= right.cancellations && left.disconnects <= right.disconnects
    && left.overloads <= right.overloads && left.dropped <= right.dropped
  }

  predicate CountersMonotonic(samples: seq<Reading>) {
    forall i :: 1 <= i < |samples| && samples[i].body.pid == samples[i - 1].body.pid ==>
      CountersRose(samples[i - 1].body.counters, samples[i].body.counters)
  }

  function Milliseconds(ns: int): real { ns as real / 1000000.0 }

  function Seconds(ns: int): real { ns as real / 1000000000.0 }

  predicate Crossed(left: int, right: int, restarts: seq<int>) {
    exists t :: t in restarts && left < t < right
  }

  /** Distances between neighbouring samples with no restart strictly between. */
  function Gaps(samples: seq<Reading>, restarts: seq<int>): seq<real> {
    if |samples| < 2 then []
    else
      var left, right := samples[|samples| - 2].ns, samples[|samples| - 1].ns;
      Gaps(DropLast(samples), restarts)
      + if Crossed(left, right, restarts) then [] else [Milliseconds(right - left)]
  }

  /** `max(values, default=0.0)` over non-negative values. */
  function Largest(values: seq<real>): real {
    if values == [] then 0.0 else MaxReal(Largest(DropLast(values)), Last(values))
  }

  function CeilReal(x: real): int { -((-x).Floor) }

  function TailCount(samples: nat, fraction: real): int {
    MaxInt(2, CeilReal(samples as real * fraction))
  }

  /** `samples[-count:]` for a positive count. */
  function Tail(samples: seq<Reading>, count: int): seq<Reading>
    requires 0 < count
  {
    if |samples| <= count then samples else samples[|samples| - count..]
  }

  datatype Quantity = Rss | Vram

  function Measure(r: Reading, q: Quantity): int {
    if q == Rss then r.body.rss else r.body.vram
  }

  function Measures(points: seq<Reading>, q: Quantity): seq<int> {
    seq(|points|, i requires 0 <= i < |points| => Measure(points[i], q))
  }

  function Elapsed(points: seq<Reading>): seq<real> {
    seq(|points|, i requires 0 <= i < |points| => Seconds(points[i].ns - points[0].ns))
  }

  function Values(points: seq<Reading>, q: Quantity): seq<real> {
    seq(|points|, i requires 0 <= i < |points| => Measure(points[i], q) as real)
  }

  function Mean(s: seq<real>): real
    requires s != []
  {
    SumReal(s) / |s| as real
  }

  type Term = (real, real) -> real

  function Times(x: real, y: real): (r: real)
    ensures 0.0 < x && 0.0 < y ==> 0.0 < r
    ensures x < 0.0 && y < 0.0 ==> 0.0 < r
    ensures x == 0.0 ==> r == 0.0
  {
    x * y
  }

  /** Sum of a term of two equally long series' deviations from given means. */
  function SumOfTerms(term: Term, a: seq<real>, ma: real, b: seq<real>, mb: real): real
    requires |a| == |b|
  {
    if a == [] then 0.0
    else SumOfTerms(term, DropLast(a), ma, DropLast(b), mb) + term(Last(a) - ma, Last(b) - mb)
  }

  datatype Slope = Infinite | Finite(perHour: real)

  predicate SlopeWithin(slope: Option<Slope>, limit: real) {
    slope.Some? && slope.value.Finite? && slope.value.perHour <= limit
  }

  /** Least-squares slope of a quantity over elapsed seconds, scaled to hours. */
  function SlopePerHour(points: seq<Reading>, q: Quantity): Slope {
    if |points| < 2 then Infinite
    else
      var x, y := Elapsed(points), Values(points, q);
      var mx, my := Mean(x), Mean(y);
      var denominator := SumOfTerms(Times, x, mx, x, mx);
      if denominator == 0.0 then Infinite
      else Finite(SumOfTerms(Times, x, mx, y, my) / denominator * 3600.0)
  }

  function Growth(points: seq<Reading>, q: Quantity): int {
    if |points| < 2 then 0
    else Maximum(Measures(points, q)) - Minimum(Measures(points, q))
  }

  function TailSlope(points: seq<Reading>, q: Quantity): Option<Slope> {
    if |points| < 2 then None else Some(SlopePerHour(points, q))
  }

  function AllowedOutcomes(kind: ScenarioKind): seq<Outcome> {
    match kind
    case InvalidInput => [Invalid]
    case OverloadBurst => [Success, Overload]
    case CancellationDisconnect => [Success, Cancelled, Disconnected]
    case _ => [Success]
  }

  function UnexpectedRequests(requests: seq<RequestBody>, allowed: seq<Outcome>): seq<RequestBody> {
    if requests == [] then []
    else
      UnexpectedRequests(DropLast(requests), allowed)
      + if Last(requests).outcome in allowed then [] else [Last(requests)]
  }

  predicate GoldenOnly(m: Manifest, sc: Scenario) {
    && sc.profile == m.goldenProfile
    && (sc.secondaryProfile.Some? ==> sc.secondaryProfile.value == m.goldenProfile)
  }

  function RequiredSpanSeconds(th: Thresholds, durationSeconds: int): real {
    var tolerance := MaxReal(th.maximumSampleGapMs as real / 1000.0, (th.sampleIntervalMs * 2) as real / 1000.0);
    MaxReal(0.0, durationSeconds as real - tolerance)
  }

  // ----- the report ---------------------------------------------------------

  datatype Aspect =
    | Complete | CompletionMode | CountersMonotone | SampleCount | RequestCount | Duration
    | SampleCoverage | SampleGap | RssGrowth | RssSlope | VramGrowth | VramSlope
    | RequestOutcomes | GoldenParity

  datatype CheckName =
    | RunBoundaries
    | OfScenario(id: ScenarioId, aspect: Aspect)
    | FinalSamplePosition | InitialTargetPid | FinalQuiescence
    | NoPythonChildren | NoDroppedSamples | NoFailureEvents
    | CancellationsObserved | DisconnectsObserved | OverloadsObserved
    | ServiceCancellations | ServiceDisconnects | ServiceOverloads
    | RestartGoldenParity | RollbackGoldenParity

  datatype FinalValues = FinalValues(
    pid: int, rss: int, hwm: int, fds: int, threads: int, children: seq<Child>, vram: int,
    active: int, waiting: int, kvBlocks: int, allocation: Allocation)

  datatype Observed =
    | OBoundaries(starts: int, ends: int, status: Option<Status>)
    | OKinds(kinds: multiset<Kind>)
    | OMode(mode: Option<Mode>)
    | OBool(flag: bool)
    | OInt(number: int)
    | OReal(amount: real)
    | OSlope(slope: Option<Slope>)
    | OOutcomes(outcomes: multiset<Outcome>)
    | OHashes(hashes: set<Option<string>>)
    | OPid(pid: Option<int>)
    | OFinal(final: Option<FinalValues>)
    | OChildren(children: seq<Child>)
    | ORestarts(restarts: seq<RestartBody>)
    | ORollback(batched: set<Option<string>>, single: set<Option<string>>)

  datatype Check = Check(name: CheckName, passed: bool, observed: Observed)

  datatype Summary = Summary(
    id: ScenarioId, kind: ScenarioKind, events: int, samples: int, requests: int,
    maximumGapMs: real, durationSeconds: real, spanSeconds: real,
    rssSlope: Option<Slope>, vramSlope: Option<Slope>)

  datatype Report = Report(
    passed: bool,
    summaries: seq<Summary>,
    eventCount: int,
    outcomeCounts: multiset<Outcome>,
    counterMaxima: Option<Counters>,
    final: Option<FinalValues>,
    checks: seq<Check>)

  /** The facts of the bound run that the event checks consult. */
  datatype RunInfo = RunInfo(binding: string, targetPid: int, elapsedNs: int)

  function ObservedDuration(es: seq<Event>): real {
    var starts, ends := Openings(es), ClosingTimes(es);
    if |starts| == 1 && |ends| == 1 then Seconds(ends[0] - starts[0].ns) else 0.0
  }

  function SampleSpan(samples: seq<Reading>): real {
    if 2 <= |samples| then Seconds(Last(samples).ns - samples[0].ns) else 0.0
  }

  function ShapeChecks(m: Manifest, sc: Scenario, es: seq<Event>): seq<Check> {
    var th := m.thresholds;
    var kinds, samples, requests, starts := Kinds(es), Readings(es), Requests(es), Openings(es);
    var complete :=
      && kinds[KScenarioStart] == 1 && kinds[KScenarioEnd] == 1
      && es != [] && es[0].body.ScenarioStart? && StatusOf(Last(es)) == Some(Succeeded);
    var monotone := CountersMonotonic(samples);
    [ Check(OfScenario(sc.id, Complete), complete, OKinds(kinds)),
      Check(OfScenario(sc.id, CompletionMode),
            |starts| == 1 && starts[0].mode == sc.mode,
            OMode(if starts == [] then None else Some(starts[0].mode))),
      Check(OfScenario(sc.id, CountersMonotone), monotone, OBool(monotone)),
      Check(OfScenario(sc.id, SampleCount), th.minimumSamples <= |samples|, OInt(|samples|)),
      Check(OfScenario(sc.id, RequestCount), requests != [], OInt(|requests|)) ]
  }

  function TimingChecks(m: Manifest, sc: Scenario, es: seq<Event>): seq<Check> {
    var th, samples := m.thresholds, Readings(es);
    var duration, span := ObservedDuration(es), SampleSpan(samples);
    var gap := Largest(Gaps(samples, RestartTimes(es)));
    [ Check(OfScenario(sc.id, Duration), sc.durationSeconds as real <= duration, OReal(duration)),
      Check(OfScenario(sc.id, SampleCoverage), RequiredSpanSeconds(th, sc.durationSeconds) <= span, OReal(span)),
      Check(OfScenario(sc.id, SampleGap), gap <= th.maximumSampleGapMs as real, OReal(gap)) ]
  }

  /** Growth and slope of both quantities over a plateau tail. */
  datatype Plateau = Plateau(rssGrowth: int, rssSlope: Option<Slope>, vramGrowth: int, vramSlope: Option<Slope>)

  function PlateauOf(tail: seq<Reading>): Plateau {
    Plateau(Growth(tail, Rss), TailSlope(tail, Rss), Growth(tail, Vram), TailSlope(tail, Vram))
  }

  function PlateauChecks(th: Thresholds, id: ScenarioId, p: Plateau): seq<Check> {
    [ Check(OfScenario(id, RssGrowth), p.rssGrowth <= th.maximumRssGrowth, OInt(p.rssGrowth)),
      Check(OfScenario(id, RssSlope), SlopeWithin(p.rssSlope, th.maximumRssSlope), OSlope(p.rssSlope)),
      Check(OfScenario(id, VramGrowth), p.vramGrowth as real <= th.maximumVramGrowth, OInt(p.vramGrowth)),
      Check(OfScenario(id, VramSlope), SlopeWithin(p.vramSlope, th.maximumVramSlope), OSlope(p.vramSlope)) ]
  }

  function OutcomeChecks(m: Manifest, sc: Scenario, requests: seq<RequestBody>): seq<Check> {
    var unexpected := Outcomes(UnexpectedRequests(requests, AllowedOutcomes(sc.kind)));
    var hashes := SuccessHashes(requests);
    [Check(OfScenario(sc.id, RequestOutcomes), unexpected == multiset{}, OOutcomes(unexpected))]
    + if GoldenOnly(m, sc)
      then [Check(OfScenario(sc.id, GoldenParity), hashes == {Some(m.goldenSha256)}, OHashes(hashes))]
      else []
  }

  function PlateauTail(m: Manifest, es: seq<Event>): seq<Reading> {
    var samples := Readings(es);
    Tail(samples, TailCount(|samples|, m.thresholds.plateauTailFraction))
  }

  function ScenarioChecks(m: Manifest, sc: Scenario, es: seq<Event>, p: Plateau): seq<Check> {
    ShapeChecks(m, sc, es) + TimingChecks(m, sc, es)
    + PlateauChecks(m.thresholds, sc.id, p) + OutcomeChecks(m, sc, Requests(es))
  }

  function ScenarioSummary(sc: Scenario, es: seq<Event>, p: Plateau): Summary {
    var samples := Readings(es);
    Summary(sc.id, sc.kind, |es|, |samples|, |Requests(es)|,
            Largest(Gaps(samples, RestartTimes(es))), ObservedDuration(es), SampleSpan(samples),
            p.rssSlope, p.vramSlope)
  }

  function EventsOf(m: Manifest, rows: seq<Event>, k: nat): seq<Event>
    requires k < |m.scenarios|
  {
    WithTag(rows, Some(m.scenarios[k].id))
  }

  function RaiseMaxima(acc: Option<Counters>, c: Counters): Option<Counters> {
    var base := if acc.Some? then acc.value else Counters(0, 0, 0, 0);
    Some(Counters(
      MaxInt(base.cancellations, c.cancellations), MaxInt(base.disconnects, c.disconnects),
      MaxInt(base.overloads, c.overloads), MaxInt(base.dropped, c.dropped)))
  }

  function MaximaOver(acc: Option<Counters>, samples: seq<Reading>): Option<Counters> {
    if samples == [] then acc
    else RaiseMaxima(MaximaOver(acc, DropLast(samples)), Last(samples).body.counters)
  }

  // What the loop over the first `k` manifest scenarios accumulates.

  function ChecksUpTo(m: Manifest, rows: seq<Event>, ps: seq<Plateau>, k: nat): seq<Check>
    requires k <= |m.scenarios| == |ps|
  {
    if k == 0 then []
    else ChecksUpTo(m, rows, ps, k - 1) + ScenarioChecks(m, m.scenarios[k - 1], EventsOf(m, rows, k - 1), ps[k - 1])
  }

  function SummariesUpTo(m: Manifest, rows: seq<Event>, ps: seq<Plateau>, k: nat): seq<Summary>
    requires k <= |m.scenarios| == |ps|
  {
    if k == 0 then []
    else SummariesUpTo(m, rows, ps, k - 1) + [ScenarioSummary(m.scenarios[k - 1], EventsOf(m, rows, k - 1), ps[k - 1])]
  }

  function OutcomesUpTo(m: Manifest, rows: seq<Event>, k: nat): multiset<Outcome>
    requires k <= |m.scenarios|
  {
    if k == 0 then multiset{}
    else OutcomesUpTo(m, rows, k - 1) + Outcomes(Requests(EventsOf(m, rows, k - 1)))
  }

  function MaximaUpTo(m: Manifest, rows: seq<Event>, k: nat): Option<Counters>
    requires k <= |m.scenarios|
  {
    if k == 0 then None
    else MaximaOver(MaximaUpTo(m, rows, k - 1), Readings(EventsOf(m, rows, k - 1)))
  }

  function RollbacksUpTo(m: Manifest, rows: seq<Event>, k: nat): map<Mode, set<Option<string>>>
    requires k <= |m.scenarios|
  {
    if k == 0 then map[]
    else
      var sc, before := m.scenarios[k - 1], RollbacksUpTo(m, rows, k - 1);
      if sc.kind == Rollback then before[sc.mode := SuccessHashes(Requests(EventsOf(m, rows, k - 1)))] else before
  }

  function FinalOf(s: SampleBody): FinalValues {
    FinalValues(s.pid, s.rss, s.hwm, s.fds, s.threads, s.children, s.vram,
                s.active, s.waiting, s.kvBlocks, s.allocation)
  }

  const Quiescent := FinalValues(0, 0, 0, 0, 0, [], 0, 0, 0, 0, Allocation(0, 0, 0, 0))

  function ObservedCounter(maxima: Option<Counters>): Counters {
    if maxima.Some? then maxima.value else Counters(0, 0, 0, 0)
  }

  predicate RestartParity(m: Manifest, r: RestartBody) {
    && r.graceful && r.exitCode == 0 && r.elapsedMs <= m.thresholds.shutdownDeadlineMs as real
    && r.before == m.goldenSha256 && r.after == m.goldenSha256
  }

  function RollbackOf(rollbacks: map<Mode, set<Option<string>>>, mode: Mode): set<Option<string>> {
    if mode in rollbacks then rollbacks[mode] else {}
  }

  function AllPassed(checks: seq<Check>): bool {
    forall i :: 0 <= i < |checks| ==> checks[i].passed
  }

  function BoundaryCheck(rows: seq<Event>): Check
    requires rows != []
  {
    var kinds := Kinds(rows);
    Check(RunBoundaries,
          kinds[KRunStart] == 1 && kinds[KRunEnd] == 1 && StatusOf(Last(rows)) == Some(Succeeded),
          OBoundaries(kinds[KRunStart], kinds[KRunEnd], StatusOf(Last(rows))))
  }

  function FinalChecks(run: RunInfo, rows: seq<Event>): seq<Check> {
    var globals := Readings(WithTag(rows, None));
    var final := FinalValuesOf(rows);
    var processes := TaggedReadings(rows);
    var pid := if processes == [] then None else Some(processes[0].body.pid);
    [ Check(FinalSamplePosition,
            |globals| == 1 && 2 <= |rows| && rows[|rows| - 2].tag.None? && rows[|rows| - 2].body.Sample?,
            OInt(|globals|)),
      Check(InitialTargetPid, pid == Some(run.targetPid), OPid(pid)),
      Check(FinalQuiescence, final == Some(Quiescent), OFinal(final)) ]
  }

  function HygieneChecks(rows: seq<Event>): seq<Check> {
    var python := PythonChildren(Readings(rows));
    var dropped := exists r :: r in Readings(rows) && r.body.dropped;
    [ Check(NoPythonChildren, python == [], OChildren(python)),
      Check(NoDroppedSamples, !dropped, OBool(dropped)),
      Check(NoFailureEvents, Failures(rows) == [], OInt(|Failures(rows)|)) ]
  }

  function CounterChecks(th: Thresholds, outcomes: multiset<Outcome>, maxima: Option<Counters>): seq<Check> {
    var service := ObservedCounter(maxima);
    [ Check(CancellationsObserved, th.minimumCancellations <= outcomes[Cancelled], OInt(outcomes[Cancelled])),
      Check(DisconnectsObserved, th.minimumDisconnects <= outcomes[Disconnected], OInt(outcomes[Disconnected])),
      Check(OverloadsObserved, th.minimumOverloads <= outcomes[Overload], OInt(outcomes[Overload])),
      Check(ServiceCancellations, th.minimumCancellations <= service.cancellations, OInt(service.cancellations)),
      Check(ServiceDisconnects, th.minimumDisconnects <= service.disconnects, OInt(service.disconnects)),
      Check(ServiceOverloads, th.minimumOverloads <= service.overloads, OInt(service.overloads)) ]
  }

  function ParityChecks(m: Manifest, rows: seq<Event>, rollbacks: map<Mode, set<Option<string>>>): seq<Check> {
    var restarts := Restarts(rows);
    var batched, single := RollbackOf(rollbacks, IterationBatch), RollbackOf(rollbacks, PerOperation);
    [ Check(RestartGoldenParity, |restarts| == 1 && RestartParity(m, restarts[0]), ORestarts(restarts)),
      Check(RollbackGoldenParity,
            batched == {Some(m.goldenSha256)} && single == {Some(m.goldenSha256)},
            ORollback(batched, single)) ]
  }

  function FinalValuesOf(rows: seq<Event>): Option<FinalValues> {
    var globals := Readings(WithTag(rows, None));
    if globals == [] then None else Some(FinalOf(Last(globals).body))
  }

  /** The report over given plateau figures. */
  function BatchReportWith(m: Manifest, run: RunInfo, rows: seq<Event>, ps: seq<Plateau>): Report
    requires rows != [] && |ps| == |m.scenarios|
  {
    var n := |m.scenarios|;
    var outcomes, maxima := OutcomesUpTo(m, rows, n), MaximaUpTo(m, rows, n);
    var checks :=
      [BoundaryCheck(rows)] + ChecksUpTo(m, rows, ps, n) + FinalChecks(run, rows) + HygieneChecks(rows)
      + CounterChecks(m.thresholds, outcomes, maxima) + ParityChecks(m, rows, RollbacksUpTo(m, rows, n));
    Report(AllPassed(checks), SummariesUpTo(m, rows, ps, n), |rows|, outcomes, maxima, FinalValuesOf(rows), checks)
  }

  /** The plateau figures of every scenario. */
  function Plateaus(m: Manifest, rows: seq<Event>): (ps: seq<Plateau>)
    ensures |ps| == |m.scenarios|
  {
    seq(|m.scenarios|, k requires 0 <= k < |m.scenarios| => PlateauOf(PlateauTail(m, EventsOf(m, rows, k))))
  }

  function BatchReport(m: Manifest, run: RunInfo, rows: seq<Event>): Report
    requires rows != []
  {
    BatchReportWith(m, run, rows, Plateaus(m, rows))
  }

  predicate RuntimeCovers(run: RunInfo, rows: seq<Event>)
    requires rows != []
  {
    Last(rows).ns - rows[0].ns <= run.elapsedNs
  }

  /** `evaluate`: no report when the log is rejected or when Docker ran for
      less time than the log spans. */
  function Evaluate(m: Manifest, run: RunInfo, rows: seq<Event>): Option<Report> {
    if Accepts(m, run.binding, rows) && RuntimeCovers(run, rows)
    then Some(BatchReport(m, run, rows))
    else None
  }

  /** `_validate_events`: one loop over the rows with four local variables. */
  method ValidateEvents(m: Manifest, binding: string, rows: seq<Event>) returns (ok: bool)
    ensures ok <==> Accepts(m, binding, rows)
  {
    if rows == [] { return false; }
    var st := Initial;
    for i := 0 to |rows|
      invariant st == After(rows[..i])
      invariant Admitted(m, binding, rows[..i])
    {
      assert rows[..i + 1] == rows[..i] + [rows[i]];
      AdmittedSnoc(m, binding, rows[..i], rows[i]);
      if !EventOk(m, binding, st, rows[i]) {
        AdmittedPrefix(m, binding, rows, i + 1);
        return false;
      }
      st := Advance(st, rows[i]);
    }
    assert rows[..|rows|] == rows;
    return rows[0].body.RunStart? && rows[|rows| - 1].body.RunEnd?;
  }
}
