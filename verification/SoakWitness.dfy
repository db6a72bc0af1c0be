/** A manifest and a log whose report passes, so that what passing reports imply is
    never said of nothing. */
module SoakWitness {
  import opened Sequences
  import opened SoakEvents
  import opened SoakBatch
  import opened SoakReducer
  import opened SoakTail
  import opened SoakAgreement
  import opened SoakGuarantees

  const Second: int := 1000000000
  const Profile := "golden"

  function Golden(): (text: string)
    ensures IsSha256(text)
  {
    seq(64, _ => '0')
  }

  const Limits := Thresholds(0, 1000, 2, 1.0, 0, 0.0, 0.0, 0.0, 0, 0, 0, 1)

  function RollbackScenario(id: ScenarioId, mode: Mode): Scenario {
    Scenario(id, Rollback, 1, Profile, None, mode)
  }

  /** Two rollback scenarios, one for each execution mode. */
  function Plan(a: ScenarioId, b: ScenarioId): Manifest {
    Manifest([RollbackScenario(a, IterationBatch), RollbackScenario(b, PerOperation)],
             map[(Profile, false) := Golden()], Profile, Golden(), Limits)
  }

  function Idle(pid: int): SampleBody {
    SampleBody(pid, 0, 0, 0, 0, [], 0, 0, 0, 0, Allocation(0, 0, 0, 0), true, Counters(0, 0, 0, 0), false)
  }

  function Answered(): RequestBody {
    RequestBody("r", Profile, Normal, false, 0, Golden(), Golden(), 1, Success, 200, 0.0, Some(Golden()))
  }

  function Restarted(): RestartBody { RestartBody(true, 0, 0.0, Golden(), Golden()) }

  /** The event at position `i`, one second after the one before. */
  function At(i: nat, tag: Option<ScenarioId>, binding: string, body: Body): Event {
    Event(EventVersion, i + 1, i * Second, tag, binding, body)
  }

  // ----- one scenario's events ---------------------------------------------------------

  function Inner(n: nat, id: ScenarioId, binding: string, bodies: seq<Body>): (es: seq<Event>)
    ensures |es| == |bodies|
  {
    if bodies == [] then []
    else Inner(n, id, binding, DropLast(bodies)) + [At(n + |bodies| - 1, Some(id), binding, Last(bodies))]
  }

  predicate Fits(m: Manifest, sc: Scenario, body: Body) {
    match body
    case Sample(s) => SampleOk(s, false)
    case Request(r) => RequestOk(m, sc, r)
    case Restart(r) => 0 <= r.exitCode && 0.0 <= r.elapsedMs && IsSha256(r.before) && IsSha256(r.after)
    case _ => false
  }

  function Inside(n: nat, id: ScenarioId, k: nat): Machine { Machine(n, Some(id), k, (n - 1) * Second) }

  function Between(n: nat, k: nat): Machine { Machine(n, None, k, (n - 1) * Second) }

  lemma {:induction false} InnerOk(m: Manifest, binding: string, n: nat, k: nat, body: Body)
    requires ValidManifest(m) && k < |m.scenarios| && Fits(m, m.scenarios[k], body) && n > 0
    ensures EventOk(m, binding, Inside(n, m.scenarios[k].id, k), At(n, Some(m.scenarios[k].id), binding, body))
  {
    var id := m.scenarios[k].id;
    assert IsScenarioId(m, id);
    assert ScenarioIndex(m, id) == k;
  }

  lemma {:induction false} InnerAdmitted(
    m: Manifest, binding: string, before: seq<Event>, k: nat, bodies: seq<Body>)
    requires ValidManifest(m) && k < |m.scenarios| && before != [] && Admitted(m, binding, before)
    requires After(before) == Inside(|before|, m.scenarios[k].id, k)
    requires forall i :: 0 <= i < |bodies| ==> Fits(m, m.scenarios[k], bodies[i])
    ensures var rows := before + Inner(|before|, m.scenarios[k].id, binding, bodies);
            Admitted(m, binding, rows) && After(rows) == Inside(|rows|, m.scenarios[k].id, k)
  {
    var id, n := m.scenarios[k].id, |before|;
    if bodies == [] {
      assert before + [] == before;
    } else {
      InnerAdmitted(m, binding, before, k, DropLast(bodies));
      var rows := before + Inner(n, id, binding, DropLast(bodies));
      var e := At(n + |bodies| - 1, Some(id), binding, Last(bodies));
      InnerOk(m, binding, |rows|, k, Last(bodies));
      AdmittedSnoc(m, binding, rows, e);
      assert rows + [e] == before + Inner(n, id, binding, bodies);
    }
  }

  /** A scenario from start to end, beginning at position `n`. */
  function Block(n: nat, sc: Scenario, binding: string, bodies: seq<Body>): (es: seq<Event>)
    ensures |es| == |bodies| + 2
  {
    [At(n, Some(sc.id), binding, ScenarioStart(sc.mode))] + Inner(n + 1, sc.id, binding, bodies)
    + [At(n + |bodies| + 1, Some(sc.id), binding, ScenarioEnd(Succeeded))]
  }

  lemma {:induction false} StartOk(m: Manifest, binding: string, n: nat, k: nat)
    requires k < |m.scenarios| && n > 0
    ensures var sc := m.scenarios[k];
            EventOk(m, binding, Between(n, k), At(n, Some(sc.id), binding, ScenarioStart(sc.mode)))
  {
    assert IsScenarioId(m, m.scenarios[k].id);
  }

  lemma {:induction false} EndOk(m: Manifest, binding: string, n: nat, k: nat)
    requires k < |m.scenarios| && n > 0
    ensures var id := m.scenarios[k].id;
            EventOk(m, binding, Inside(n, id, k), At(n, Some(id), binding, ScenarioEnd(Succeeded)))
  {
    assert IsScenarioId(m, m.scenarios[k].id);
  }

  lemma {:induction false} BlockAdmitted(m: Manifest, binding: string, before: seq<Event>, k: nat, bodies: seq<Body>)
    requires ValidManifest(m) && k < |m.scenarios| && before != [] && Admitted(m, binding, before)
    requires After(before) == Between(|before|, k)
    requires forall i :: 0 <= i < |bodies| ==> Fits(m, m.scenarios[k], bodies[i])
    ensures var rows := before + Block(|before|, m.scenarios[k], binding, bodies);
            Admitted(m, binding, rows) && After(rows) == Between(|rows|, k + 1)
  {
    var sc, n := m.scenarios[k], |before|;
    var start := At(n, Some(sc.id), binding, ScenarioStart(sc.mode));
    var end := At(n + |bodies| + 1, Some(sc.id), binding, ScenarioEnd(Succeeded));
    var inner := Inner(n + 1, sc.id, binding, bodies);
    StartOk(m, binding, n, k);
    AdmittedSnoc(m, binding, before, start);
    InnerAdmitted(m, binding, before + [start], k, bodies);
    EndOk(m, binding, n + |bodies| + 1, k);
    AdmittedSnoc(m, binding, before + [start] + inner, end);
    assert before + [start] + inner + [end] == before + Block(n, sc, binding, bodies);
  }

  // ----- the log -------------------------------------------------------------------------

  const Common: seq<Body> := [Sample(Idle(1)), Sample(Idle(1)), Request(Answered())]

  function OpeningBlock(a: ScenarioId, binding: string): seq<Event> {
    Block(1, RollbackScenario(a, IterationBatch), binding, Common + [Restart(Restarted())])
  }

  function ClosingBlock(b: ScenarioId, binding: string): seq<Event> {
    Block(7, RollbackScenario(b, PerOperation), binding, Common)
  }

  function Log(a: ScenarioId, b: ScenarioId, binding: string): seq<Event> {
    [At(0, None, binding, RunStart)] + OpeningBlock(a, binding) + ClosingBlock(b, binding)
    + [At(12, None, binding, Sample(Idle(0))), At(13, None, binding, RunEnd(Succeeded))]
  }

  lemma {:induction false} PlanIsValid(a: ScenarioId, b: ScenarioId)
    requires a != b
    ensures ValidManifest(Plan(a, b))
  {
  }

  lemma {:induction false} CommonFits(m: Manifest, sc: Scenario)
    requires sc == RollbackScenario(sc.id, sc.mode) && (Profile, false) in m.requestSha256 && m.requestSha256[(Profile, false)] == Golden()
    ensures forall i :: 0 <= i < |Common| ==> Fits(m, sc, Common[i])
    ensures Fits(m, sc, Restart(Restarted()))
  {
  }

  function Started(binding: string): seq<Event> { [At(0, None, binding, RunStart)] }

  lemma {:induction false} StartedAdmitted(m: Manifest, binding: string)
    ensures Admitted(m, binding, Started(binding)) && After(Started(binding)) == Between(1, 0)
  {
    AdmittedSnoc(m, binding, [], At(0, None, binding, RunStart));
    assert [] + Started(binding) == Started(binding);
  }

  lemma {:induction false} FinalOk(m: Manifest, binding: string, n: nat)
    requires n > 0
    ensures EventOk(m, binding, Between(n, |m.scenarios|), At(n, None, binding, Sample(Idle(0))))
    ensures EventOk(m, binding, Between(n, |m.scenarios|), At(n, None, binding, RunEnd(Succeeded)))
  {
  }

  lemma {:induction false} ClosedAdmitted(m: Manifest, binding: string, before: seq<Event>)
    requires before != [] && Admitted(m, binding, before) && After(before) == Between(|before|, |m.scenarios|)
    ensures var n := |before|;
            Admitted(m, binding, before + [At(n, None, binding, Sample(Idle(0))), At(n + 1, None, binding, RunEnd(Succeeded))])
  {
    var n := |before|;
    var final, end := At(n, None, binding, Sample(Idle(0))), At(n + 1, None, binding, RunEnd(Succeeded));
    FinalOk(m, binding, n);
    AdmittedSnoc(m, binding, before, final);
    FinalOk(m, binding, n + 1);
    AdmittedSnoc(m, binding, before + [final], end);
    assert before + [final] + [end] == before + [final, end];
  }

  lemma {:induction false} LogIsAccepted(a: ScenarioId, b: ScenarioId, binding: string)
    requires a != b
    ensures Accepts(Plan(a, b), binding, Log(a, b, binding))
  {
    var m := Plan(a, b);
    PlanIsValid(a, b);
    StartedAdmitted(m, binding);
    CommonFits(m, m.scenarios[0]);
    CommonFits(m, m.scenarios[1]);
    BlockAdmitted(m, binding, Started(binding), 0, Common + [Restart(Restarted())]);
    var one := Started(binding) + OpeningBlock(a, binding);
    BlockAdmitted(m, binding, one, 1, Common);
    ClosedAdmitted(m, binding, one + ClosingBlock(b, binding));
    assert Last(Log(a, b, binding)).body.RunEnd?;
  }

  // ----- selections of joined lists --------------------------------------------------------

  lemma {:induction false} CollectAppend<T, U>(pick: T -> Option<U>, a: seq<T>, b: seq<T>)
    ensures Collect(pick, a + b) == Collect(pick, a) + Collect(pick, b)
  {
    if b == [] {
      assert a + b == a && Collect(pick, a) + [] == Collect(pick, a);
    } else {
      CollectAppend(pick, a, DropLast(b));
      assert DropLast(a + b) == a + DropLast(b) && Last(a + b) == Last(b);
    }
  }

  lemma {:induction false} ThreeKinds(x: multiset<Kind>, y: multiset<Kind>, z: multiset<Kind>)
    ensures (x + y) + z == x + (y + z)
  {
  }

  lemma {:induction false} KindsAppend(a: seq<Event>, b: seq<Event>)
    ensures Kinds(a + b) == Kinds(a) + Kinds(b)
  {
    if b == [] {
      assert a + b == a;
    } else {
      KindsAppend(a, DropLast(b));
      assert DropLast(a + b) == a + DropLast(b) && Last(a + b) == Last(b);
      ThreeKinds(Kinds(a), Kinds(DropLast(b)), multiset{KindOf(Last(b))});
    }
  }

  lemma {:induction false} WithTagAppend(a: seq<Event>, b: seq<Event>, tag: Option<ScenarioId>)
    ensures WithTag(a + b, tag) == WithTag(a, tag) + WithTag(b, tag)
  {
    if b == [] {
      assert a + b == a && WithTag(a, tag) + [] == WithTag(a, tag);
    } else {
      WithTagAppend(a, DropLast(b), tag);
      assert DropLast(a + b) == a + DropLast(b);
    }
  }

  predicate Tagged(es: seq<Event>, tag: Option<ScenarioId>) {
    forall i :: 0 <= i < |es| ==> es[i].tag == tag
  }

  lemma {:induction false} TaggedAlike(es: seq<Event>, own: Option<ScenarioId>, tag: Option<ScenarioId>)
    requires Tagged(es, own)
    ensures WithTag(es, tag) == if tag == own then es else []
  {
    if es != [] {
      TaggedAlike(DropLast(es), own, tag);
      assert es == DropLast(es) + [Last(es)];
    }
  }

  /** All selections that the checks make. */
  datatype Picks = Picks(
    readings: seq<Reading>, tagged: seq<Reading>, requests: seq<RequestBody>, openings: seq<Opening>,
    closings: seq<int>, restartTimes: seq<int>, restarts: seq<RestartBody>, failures: seq<string>, kinds: multiset<Kind>)

  function PicksOf(es: seq<Event>): Picks {
    Picks(Readings(es), TaggedReadings(es), Requests(es), Openings(es),
          ClosingTimes(es), RestartTimes(es), Restarts(es), Failures(es), Kinds(es))
  }

  function Joined(p: Picks, q: Picks): Picks {
    Picks(p.readings + q.readings, p.tagged + q.tagged, p.requests + q.requests, p.openings + q.openings,
          p.closings + q.closings, p.restartTimes + q.restartTimes, p.restarts + q.restarts,
          p.failures + q.failures, p.kinds + q.kinds)
  }

  lemma {:induction false} PicksAppend(a: seq<Event>, b: seq<Event>)
    ensures PicksOf(a + b) == Joined(PicksOf(a), PicksOf(b))
  {
    CollectAppend(AsReading, a, b);
    CollectAppend(AsTaggedReading, a, b);
    CollectAppend(AsRequest, a, b);
    CollectAppend(AsOpening, a, b);
    CollectAppend(AsClosingNs, a, b);
    CollectAppend(AsRestartNs, a, b);
    CollectAppend(AsRestart, a, b);
    CollectAppend(AsFailure, a, b);
    KindsAppend(a, b);
  }

  const NoPicks := Picks([], [], [], [], [], [], [], [], multiset{})

  /** The selections of one event. */
  function PickOne(e: Event): Picks {
    var p := NoPicks.(kinds := multiset{KindOf(e)});
    match e.body
    case Sample(s) =>
      p.(readings := [Reading(e.ns, s)], tagged := if e.tag.Some? then [Reading(e.ns, s)] else [])
    case Request(r) => p.(requests := [r])
    case ScenarioStart(mode) => p.(openings := [Opening(e.ns, mode)])
    case ScenarioEnd(_) => p.(closings := [e.ns])
    case Restart(r) => p.(restartTimes := [e.ns], restarts := [r])
    case FailureNote(_, message) => p.(failures := [message])
    case _ => p
  }

  lemma {:induction false} PicksSingle(e: Event)
    ensures PicksOf([e]) == PickOne(e)
  {
    SelectionsSnoc([], e);
    assert [] + [e] == [e];
  }

  lemma {:induction false} PicksSnoc(es: seq<Event>, e: Event)
    ensures PicksOf(es + [e]) == Joined(PicksOf(es), PickOne(e))
  {
    PicksAppend(es, [e]);
    PicksSingle(e);
  }

  /** One more event with body `body` at time `ns`. */
  function Added(p: Picks, ns: int, body: Body): Picks {
    match body
    case Sample(s) =>
      p.(readings := p.readings + [Reading(ns, s)], tagged := p.tagged + [Reading(ns, s)],
         kinds := p.kinds + multiset{KSample})
    case Request(r) => p.(requests := p.requests + [r], kinds := p.kinds + multiset{KRequest})
    case Restart(r) =>
      p.(restartTimes := p.restartTimes + [ns], restarts := p.restarts + [r], kinds := p.kinds + multiset{KRestart})
    case _ => p
  }

  /** The selections of the events at `n` and on with these bodies. */
  function PicksOfBodies(n: nat, bodies: seq<Body>): Picks {
    if bodies == [] then NoPicks
    else Added(PicksOfBodies(n, DropLast(bodies)), (n + |bodies| - 1) * Second, Last(bodies))
  }

  lemma {:induction false} BodySnoc(n: nat, bodies: seq<Body>, body: Body)
    ensures PicksOfBodies(n, bodies + [body]) == Added(PicksOfBodies(n, bodies), (n + |bodies|) * Second, body)
  {
    assert DropLast(bodies + [body]) == bodies;
  }

  lemma {:induction false} InnerPicks(
      m: Manifest, sc: Scenario, n: nat, id: ScenarioId, binding: string, bodies: seq<Body>)
    requires forall i :: 0 <= i < |bodies| ==> Fits(m, sc, bodies[i])
    ensures PicksOf(Inner(n, id, binding, bodies)) == PicksOfBodies(n, bodies)
  {
    if bodies != [] {
      InnerPicks(m, sc, n, id, binding, DropLast(bodies));
      assert Fits(m, sc, Last(bodies));
      PicksSnoc(Inner(n, id, binding, DropLast(bodies)), At(n + |bodies| - 1, Some(id), binding, Last(bodies)));
    }
  }

  lemma {:induction false} CommonPicks(n: nat)
    ensures PicksOfBodies(n, Common) ==
            NoPicks.(readings := Two(n), tagged := Two(n), requests := [Answered()],
                     kinds := multiset{KSample, KSample, KRequest})
  {
    var one := [Sample(Idle(1))];
    BodySnoc(n, [], Sample(Idle(1)));
    BodySnoc(n, one, Sample(Idle(1)));
    BodySnoc(n, one + one, Request(Answered()));
    assert [] + one == one && one + one + [Request(Answered())] == Common;
  }

  /** The two readings of a block whose samples begin at `n`. */
  function Two(n: nat): seq<Reading> { [Reading(n * Second, Idle(1)), Reading((n + 1) * Second, Idle(1))] }

  lemma {:induction false} BlockPicks(
      m: Manifest, n: nat, sc: Scenario, binding: string, bodies: seq<Body>, inner: Picks)
    requires forall i :: 0 <= i < |bodies| ==> Fits(m, sc, bodies[i])
    requires inner == PicksOfBodies(n + 1, bodies) && inner.openings == [] && inner.closings == []
    ensures PicksOf(Block(n, sc, binding, bodies)) ==
            inner.(openings := [Opening(n * Second, sc.mode)], closings := [(n + |bodies| + 1) * Second],
                   kinds := inner.kinds + multiset{KScenarioStart, KScenarioEnd})
  {
    var start := At(n, Some(sc.id), binding, ScenarioStart(sc.mode));
    var end := At(n + |bodies| + 1, Some(sc.id), binding, ScenarioEnd(Succeeded));
    InnerPicks(m, sc, n + 1, sc.id, binding, bodies);
    PicksSingle(start);
    PicksAppend([start], Inner(n + 1, sc.id, binding, bodies));
    PicksSnoc([start] + Inner(n + 1, sc.id, binding, bodies), end);
    Enclosed(inner, start, end);
  }

  lemma {:induction false} Enclosed(inner: Picks, start: Event, end: Event)
    requires inner.openings == [] && inner.closings == [] && start.body.ScenarioStart? && end.body.ScenarioEnd?
    ensures Joined(Joined(PickOne(start), inner), PickOne(end)) ==
            inner.(openings := [Opening(start.ns, start.body.mode)], closings := [end.ns],
                   kinds := inner.kinds + multiset{KScenarioStart, KScenarioEnd})
  {
    ThreeKinds(multiset{KScenarioStart}, inner.kinds, multiset{KScenarioEnd});
  }

  // ----- one scenario passes -----------------------------------------------------------------

  lemma {:induction false} FlatNumerator(x: seq<real>, mx: real, y: seq<real>, my: real)
    requires |x| == |y| && forall i :: 0 <= i < |y| ==> y[i] == my
    ensures SumOfTerms(Times, x, mx, y, my) == 0.0
  {
    if x != [] {
      FlatNumerator(DropLast(x), mx, DropLast(y), my);
      TimesZero(Last(x) - mx);
    }
  }

  lemma {:induction false} TimesZero(d: real)
    ensures Times(d, 0.0) == 0.0
  {
  }

  lemma {:induction false} ZeroOver(d: real)
    requires d != 0.0
    ensures 0.0 / d * 3600.0 == 0.0
  {
  }

  /** Two samples with the same measure have slope zero. */
  lemma {:induction false} FlatSlope(points: seq<Reading>, q: Quantity)
    requires |points| == 2 && points[0].ns < points[1].ns && Measure(points[0], q) == Measure(points[1], q) == 0
    ensures SlopePerHour(points, q) == Finite(0.0)
  {
    IncreasingTimesGiveFiniteSlope(points, q);
    var x, y := Elapsed(points), Values(points, q);
    assert y == [0.0, 0.0] && DropLast(y) == [0.0] && DropLast([0.0]) == [];
    assert SumReal([0.0]) == 0.0 && SumReal(y) == 0.0;
    assert Mean(y) == 0.0;
    FlatNumerator(x, Mean(x), y, 0.0);
    ZeroOver(SumOfTerms(Times, x, Mean(x), x, Mean(x)));
  }

  const FlatPlateau := Plateau(0, Some(Finite(0.0)), 0, Some(Finite(0.0)))

  lemma {:induction false} GrowthIsFlat(n: nat, q: Quantity)
    ensures Growth(Two(n), q) == 0 && TailSlope(Two(n), q) == Some(Finite(0.0))
  {
    FlatSlope(Two(n), q);
    assert Measures(Two(n), q) == [0, 0];
    assert Maximum([0, 0]) in [0, 0] && Minimum([0, 0]) in [0, 0];
  }

  lemma {:induction false} PlateauIsFlat(n: nat)
    ensures PlateauOf(Two(n)) == FlatPlateau
  {
    GrowthIsFlat(n, Rss);
    GrowthIsFlat(n, Vram);
  }

  lemma {:induction false} TailIsAll(m: Manifest, es: seq<Event>, n: nat)
    requires Readings(es) == Two(n) && m.thresholds == Limits
    ensures PlateauTail(m, es) == Two(n)
  {
    assert TailCount(2, 1.0) == 2;
  }

  /** What a passing scenario's events show. */
  predicate Shows(es: seq<Event>, n: nat, mode: Mode, end: nat, restarts: seq<int>) {
    && es != [] && es[0].body.ScenarioStart? && StatusOf(Last(es)) == Some(Succeeded)
    && Readings(es) == Two(n + 1) && Requests(es) == [Answered()]
    && Openings(es) == [Opening(n * Second, mode)] && ClosingTimes(es) == [end * Second] && RestartTimes(es) == restarts
    && Kinds(es)[KScenarioStart] == 1 && Kinds(es)[KScenarioEnd] == 1
  }

  predicate Planned(m: Manifest, sc: Scenario) {
    && m.thresholds == Limits && m.goldenProfile == Profile && m.goldenSha256 == Golden()
    && sc == RollbackScenario(sc.id, sc.mode)
  }

  lemma {:induction false} TwoAreMonotonic(n: nat)
    ensures CountersMonotonic(Two(n))
  {
  }

  lemma {:induction false} ShapePasses(m: Manifest, sc: Scenario, es: seq<Event>, n: nat, end: nat, restarts: seq<int>)
    requires Planned(m, sc) && Shows(es, n, sc.mode, end, restarts)
    ensures AllPassed(ShapeChecks(m, sc, es))
  {
    TwoAreMonotonic(n + 1);
  }

  lemma {:induction false} GapOfTwo(n: nat, restarts: seq<int>)
    requires forall t :: t in restarts ==> (n + 1) * Second <= t
    ensures Largest(Gaps(Two(n), restarts)) == 1000.0
  {
    assert DropLast(Two(n)) == [Two(n)[0]];
    assert Gaps([Two(n)[0]], restarts) == [];
    assert !Crossed(Two(n)[0].ns, Two(n)[1].ns, restarts);
    assert Gaps(Two(n), restarts) == [] + [1000.0];
    assert DropLast([1000.0]) == [] && Largest([]) == 0.0;
  }

  lemma {:induction false} SpanOfTwo(n: nat)
    ensures SampleSpan(Two(n)) == 1.0
  {
    assert Two(n)[1].ns - Two(n)[0].ns == Second;
  }

  lemma {:induction false} NoSpanRequired()
    ensures RequiredSpanSeconds(Limits, 1) == 0.0
  {
  }

  lemma {:induction false} TimingFrom(
      m: Manifest, sc: Scenario, es: seq<Event>, samples: seq<Reading>, restarts: seq<int>)
    requires Planned(m, sc) && Readings(es) == samples && RestartTimes(es) == restarts
    requires ObservedDuration(es) >= 1.0 && SampleSpan(samples) == 1.0 && Largest(Gaps(samples, restarts)) == 1000.0
    ensures AllPassed(TimingChecks(m, sc, es))
  {
    NoSpanRequired();
  }

  lemma {:induction false} TimingPasses(m: Manifest, sc: Scenario, es: seq<Event>, n: nat, end: nat, restarts: seq<int>)
    requires Planned(m, sc) && Shows(es, n, sc.mode, end, restarts) && n < end
    requires forall t :: t in restarts ==> (n + 2) * Second <= t
    ensures AllPassed(TimingChecks(m, sc, es))
  {
    GapOfTwo(n + 1, restarts);
    SpanOfTwo(n + 1);
    DurationOf(es, n, sc.mode, end);
    TimingFrom(m, sc, es, Two(n + 1), restarts);
  }

  lemma {:induction false} DurationOf(es: seq<Event>, n: nat, mode: Mode, end: nat)
    requires Openings(es) == [Opening(n * Second, mode)] && ClosingTimes(es) == [end * Second] && n < end
    ensures ObservedDuration(es) >= 1.0
  {
    assert end * Second - n * Second >= Second;
  }

  lemma {:induction false} OutcomesPass(m: Manifest, sc: Scenario)
    requires Planned(m, sc)
    ensures AllPassed(OutcomeChecks(m, sc, [Answered()]))
    ensures SuccessHashes([Answered()]) == {Some(Golden())}
  {
    var requests := [Answered()];
    assert DropLast(requests) == [];
    assert UnexpectedRequests(requests, [Success]) == [];
    assert SuccessHashes(requests) == {Some(Golden())} by {
      assert Answered() in requests;
    }
  }

  lemma {:induction false} ScenarioPasses(
      m: Manifest, sc: Scenario, es: seq<Event>, n: nat, end: nat, restarts: seq<int>)
    requires Planned(m, sc) && Shows(es, n, sc.mode, end, restarts) && n < end
    requires forall t :: t in restarts ==> (n + 2) * Second <= t
    ensures AllPassed(ScenarioChecks(m, sc, es, FlatPlateau))
  {
    ShapePasses(m, sc, es, n, end, restarts);
    TimingPasses(m, sc, es, n, end, restarts);
    OutcomesPass(m, sc);
    var a, b, c, d := ShapeChecks(m, sc, es), TimingChecks(m, sc, es),
      PlateauChecks(m.thresholds, sc.id, FlatPlateau), OutcomeChecks(m, sc, Requests(es));
    AllPassedAppend(a, b);
    AllPassedAppend(a + b, c);
    AllPassedAppend(a + b + c, d);
  }

  // ----- the run passes ------------------------------------------------------------------------

  lemma {:induction false} FinalPasses(run: RunInfo, rows: seq<Event>, ns: int)
    requires Readings(WithTag(rows, None)) == [Reading(ns, Idle(0))]
    requires 2 <= |rows| && rows[|rows| - 2].tag.None? && rows[|rows| - 2].body.Sample?
    requires TaggedReadings(rows) != [] && TaggedReadings(rows)[0].body.pid == run.targetPid
    ensures AllPassed(FinalChecks(run, rows))
  {
  }

  lemma {:induction false} NoPython(samples: seq<Reading>)
    requires forall i :: 0 <= i < |samples| ==> samples[i].body.children == []
    ensures PythonChildren(samples) == []
  {
    if samples != [] { NoPython(DropLast(samples)); }
  }

  lemma {:induction false} HygienePasses(rows: seq<Event>, samples: seq<Reading>)
    requires Readings(rows) == samples && Failures(rows) == []
    requires forall i :: 0 <= i < |samples| ==> samples[i].body.children == [] && !samples[i].body.dropped
    ensures AllPassed(HygieneChecks(rows))
  {
    NoPython(samples);
    assert forall r :: r in samples ==> !r.body.dropped;
  }

  predicate NotNegative(c: Counters) { 0 <= c.cancellations && 0 <= c.disconnects && 0 <= c.overloads && 0 <= c.dropped }

  lemma {:induction false} MaximaNotNegative(acc: Option<Counters>, samples: seq<Reading>)
    requires acc.Some? ==> NotNegative(acc.value)
    ensures NotNegative(ObservedCounter(MaximaOver(acc, samples)))
  {
    if samples != [] { MaximaNotNegative(acc, DropLast(samples)); }
  }

  lemma {:induction false} CountersPass(outcomes: multiset<Outcome>, maxima: Option<Counters>)
    requires NotNegative(ObservedCounter(maxima))
    ensures AllPassed(CounterChecks(Limits, outcomes, maxima))
  {
  }

  lemma {:induction false} ParityPasses(m: Manifest, rows: seq<Event>, rollbacks: map<Mode, set<Option<string>>>)
    requires m.thresholds == Limits && m.goldenSha256 == Golden() && Restarts(rows) == [Restarted()]
    requires RollbackOf(rollbacks, IterationBatch) == RollbackOf(rollbacks, PerOperation) == {Some(Golden())}
    ensures AllPassed(ParityChecks(m, rows, rollbacks))
  {
  }

  /** The six groups of checks pass together. */
  lemma {:induction false} ReportPasses(m: Manifest, run: RunInfo, rows: seq<Event>, ps: seq<Plateau>)
    requires rows != [] && |ps| == |m.scenarios| && BoundaryCheck(rows).passed
    requires AllPassed(ChecksUpTo(m, rows, ps, |m.scenarios|)) && AllPassed(FinalChecks(run, rows)) && AllPassed(HygieneChecks(rows))
    requires var n := |m.scenarios|;
      && AllPassed(CounterChecks(m.thresholds, OutcomesUpTo(m, rows, n), MaximaUpTo(m, rows, n)))
      && AllPassed(ParityChecks(m, rows, RollbacksUpTo(m, rows, n)))
    ensures BatchReportWith(m, run, rows, ps).passed
  {
    var n := |m.scenarios|;
    var a, b, c, d, e, f := [BoundaryCheck(rows)], ChecksUpTo(m, rows, ps, n), FinalChecks(run, rows), HygieneChecks(rows),
      CounterChecks(m.thresholds, OutcomesUpTo(m, rows, n), MaximaUpTo(m, rows, n)),
      ParityChecks(m, rows, RollbacksUpTo(m, rows, n));
    AllPassedAppend(a, b);
    AllPassedAppend(a + b, c);
    AllPassedAppend(a + b + c, d);
    AllPassedAppend(a + b + c + d, e);
    AllPassedAppend(a + b + c + d + e, f);
  }

  // ----- the log shows it ------------------------------------------------------------------------

  lemma {:induction false} BodiesWithRestart(n: nat)
    ensures var p := PicksOfBodies(n, Common + [Restart(Restarted())]);
            p == NoPicks.(readings := Two(n), tagged := Two(n), requests := [Answered()],
                          restartTimes := [(n + 3) * Second], restarts := [Restarted()],
                          kinds := multiset{KSample, KSample, KRequest, KRestart})
  {
    CommonPicks(n);
    BodySnoc(n, Common, Restart(Restarted()));
  }

  function OpeningPicks(): Picks {
    Picks(Two(2), Two(2), [Answered()], [Opening(Second, IterationBatch)], [6 * Second], [5 * Second], [Restarted()], [],
          multiset{KSample, KSample, KRequest, KRestart, KScenarioStart, KScenarioEnd})
  }

  function ClosingPicks(): Picks {
    Picks(Two(8), Two(8), [Answered()], [Opening(7 * Second, PerOperation)], [11 * Second], [], [], [],
          multiset{KSample, KSample, KRequest, KScenarioStart, KScenarioEnd})
  }

  lemma {:induction false} OpeningPicked(a: ScenarioId, b: ScenarioId, binding: string)
    ensures PicksOf(OpeningBlock(a, binding)) == OpeningPicks()
  {
    var m, bodies := Plan(a, b), Common + [Restart(Restarted())];
    CommonFits(m, m.scenarios[0]);
    BodiesWithRestart(2);
    BlockPicks(m, 1, m.scenarios[0], binding, bodies, PicksOfBodies(2, bodies));
  }

  lemma {:induction false} ClosingPicked(a: ScenarioId, b: ScenarioId, binding: string)
    ensures PicksOf(ClosingBlock(b, binding)) == ClosingPicks()
  {
    var m := Plan(a, b);
    CommonFits(m, m.scenarios[1]);
    CommonPicks(8);
    BlockPicks(m, 7, m.scenarios[1], binding, Common, PicksOfBodies(8, Common));
  }

  /** Selections that are `p` and the right boundary events show a passing scenario. */
  lemma {:induction false} PicksShow(es: seq<Event>, p: Picks, n: nat, mode: Mode, end: nat)
    requires PicksOf(es) == p && es != [] && es[0].body.ScenarioStart? && StatusOf(Last(es)) == Some(Succeeded)
    requires p.readings == Two(n + 1) && p.requests == [Answered()] && p.openings == [Opening(n * Second, mode)]
    requires p.closings == [end * Second] && p.kinds[KScenarioStart] == 1 && p.kinds[KScenarioEnd] == 1
    ensures Shows(es, n, mode, end, p.restartTimes)
  {
    assert Readings(es) == PicksOf(es).readings && Requests(es) == PicksOf(es).requests;
    assert Openings(es) == PicksOf(es).openings && ClosingTimes(es) == PicksOf(es).closings;
    assert RestartTimes(es) == PicksOf(es).restartTimes && Kinds(es) == PicksOf(es).kinds;
  }

  lemma {:induction false} OpeningShows(a: ScenarioId, b: ScenarioId, binding: string)
    ensures Shows(OpeningBlock(a, binding), 1, IterationBatch, 6, [5 * Second])
  {
    OpeningPicked(a, b, binding);
    PicksShow(OpeningBlock(a, binding), OpeningPicks(), 1, IterationBatch, 6);
  }

  lemma {:induction false} ClosingShows(a: ScenarioId, b: ScenarioId, binding: string)
    ensures Shows(ClosingBlock(b, binding), 7, PerOperation, 11, [])
  {
    ClosingPicked(a, b, binding);
    PicksShow(ClosingBlock(b, binding), ClosingPicks(), 7, PerOperation, 11);
  }

  function Tailpiece(binding: string): seq<Event> {
    [At(12, None, binding, Sample(Idle(0))), At(13, None, binding, RunEnd(Succeeded))]
  }

  lemma {:induction false} InnerTagged(n: nat, id: ScenarioId, binding: string, bodies: seq<Body>)
    ensures Tagged(Inner(n, id, binding, bodies), Some(id))
  {
    if bodies != [] { InnerTagged(n, id, binding, DropLast(bodies)); }
  }

  lemma {:induction false} BlockTagged(n: nat, sc: Scenario, binding: string, bodies: seq<Body>)
    ensures Tagged(Block(n, sc, binding, bodies), Some(sc.id))
  {
    InnerTagged(n + 1, sc.id, binding, bodies);
  }

  /** Selecting by tag takes the log apart. */
  lemma {:induction false} TagsSelect(
      s: seq<Event>, x: seq<Event>, y: seq<Event>, z: seq<Event>, a: ScenarioId, b: ScenarioId)
    requires a != b && Tagged(s, None) && Tagged(x, Some(a)) && Tagged(y, Some(b)) && Tagged(z, None)
    ensures WithTag(s + x + y + z, Some(a)) == x && WithTag(s + x + y + z, Some(b)) == y
    ensures WithTag(s + x + y + z, None) == s + z
  {
    TagSelects(s, x, y, z, Some(a));
    TagSelects(s, x, y, z, Some(b));
    TagSelects(s, x, y, z, None);
    TagParts(s, x, y, z, a, b);
    Leaves(s, x, y, z);
  }

  lemma {:induction false} Leaves(s: seq<Event>, x: seq<Event>, y: seq<Event>, z: seq<Event>)
    ensures [] + x + [] + [] == x && [] + [] + y + [] == y && s + [] + [] + z == s + z
  {
  }

  lemma {:induction false} TagSelects(
      s: seq<Event>, x: seq<Event>, y: seq<Event>, z: seq<Event>, tag: Option<ScenarioId>)
    ensures WithTag(s + x + y + z, tag) == WithTag(s, tag) + WithTag(x, tag) + WithTag(y, tag) + WithTag(z, tag)
  {
    WithTagAppend(s + x + y, z, tag);
    WithTagAppend(s + x, y, tag);
    WithTagAppend(s, x, tag);
  }

  lemma {:induction false} TagParts(
      s: seq<Event>, x: seq<Event>, y: seq<Event>, z: seq<Event>, a: ScenarioId, b: ScenarioId)
    requires a != b && Tagged(s, None) && Tagged(x, Some(a)) && Tagged(y, Some(b)) && Tagged(z, None)
    ensures forall tag: Option<ScenarioId> ::
              && WithTag(s, tag) == (if tag == None then s else []) && WithTag(x, tag) == (if tag == Some(a) then x else [])
              && WithTag(y, tag) == (if tag == Some(b) then y else []) && WithTag(z, tag) == (if tag == None then z else [])
  {
    forall tag: Option<ScenarioId>
      ensures WithTag(s, tag) == (if tag == None then s else []) && WithTag(x, tag) == (if tag == Some(a) then x else [])
      ensures WithTag(y, tag) == (if tag == Some(b) then y else []) && WithTag(z, tag) == (if tag == None then z else [])
    {
      TaggedAlike(s, None, tag);
      TaggedAlike(x, Some(a), tag);
      TaggedAlike(y, Some(b), tag);
      TaggedAlike(z, None, tag);
    }
  }

  lemma {:induction false} LogParts(a: ScenarioId, b: ScenarioId, binding: string)
    requires a != b
    ensures var rows := Log(a, b, binding);
            && WithTag(rows, Some(a)) == OpeningBlock(a, binding) && WithTag(rows, Some(b)) == ClosingBlock(b, binding)
            && WithTag(rows, None) == Started(binding) + Tailpiece(binding)
  {
    BlockTagged(1, RollbackScenario(a, IterationBatch), binding, Common + [Restart(Restarted())]);
    BlockTagged(7, RollbackScenario(b, PerOperation), binding, Common);
    TagsSelect(Started(binding), OpeningBlock(a, binding), ClosingBlock(b, binding), Tailpiece(binding), a, b);
  }

  lemma {:induction false} TailPicks(binding: string)
    ensures PicksOf(Started(binding)) == NoPicks.(kinds := multiset{KRunStart})
    ensures PicksOf(Tailpiece(binding)) == NoPicks.(readings := [Reading(12 * Second, Idle(0))], kinds := multiset{KSample, KRunEnd})
  {
    var final, end := At(12, None, binding, Sample(Idle(0))), At(13, None, binding, RunEnd(Succeeded));
    PicksSingle(At(0, None, binding, RunStart));
    PicksSingle(final);
    PicksSnoc([final], end);
    assert [final] + [end] == Tailpiece(binding);
  }

  /** The whole log's selections that the run-wide checks make. */
  predicate RunShows(rows: seq<Event>) {
    && Readings(rows) == Two(2) + Two(8) + [Reading(12 * Second, Idle(0))] && TaggedReadings(rows) == Two(2) + Two(8)
    && Restarts(rows) == [Restarted()] && Failures(rows) == []
    && Kinds(rows)[KRunStart] == 1 && Kinds(rows)[KRunEnd] == 1
  }

  lemma {:induction false} JoinFour(s: Picks, x: Picks, y: Picks, z: Picks, rows: seq<Event>)
    requires PicksOf(rows) == Joined(Joined(Joined(s, x), y), z)
    requires s == NoPicks.(kinds := multiset{KRunStart}) && x == OpeningPicks() && y == ClosingPicks()
    requires z == NoPicks.(readings := [Reading(12 * Second, Idle(0))], kinds := multiset{KSample, KRunEnd})
    ensures RunShows(rows)
  {
    assert Readings(rows) == PicksOf(rows).readings && TaggedReadings(rows) == PicksOf(rows).tagged;
    assert Restarts(rows) == PicksOf(rows).restarts && Failures(rows) == PicksOf(rows).failures;
    assert Kinds(rows) == PicksOf(rows).kinds;
  }

  lemma {:induction false} LogShows(a: ScenarioId, b: ScenarioId, binding: string)
    ensures RunShows(Log(a, b, binding))
  {
    var s, x, y, z := Started(binding), OpeningBlock(a, binding), ClosingBlock(b, binding), Tailpiece(binding);
    OpeningPicked(a, b, binding);
    ClosingPicked(a, b, binding);
    TailPicks(binding);
    PicksAppend(s, x);
    PicksAppend(s + x, y);
    PicksAppend(s + x + y, z);
    JoinFour(PicksOf(s), PicksOf(x), PicksOf(y), PicksOf(z), Log(a, b, binding));
  }

  lemma {:induction false} UntaggedReading(binding: string)
    ensures Readings(Started(binding) + Tailpiece(binding)) == [Reading(12 * Second, Idle(0))]
  {
    TailPicks(binding);
    PicksAppend(Started(binding), Tailpiece(binding));
    assert Readings(Started(binding) + Tailpiece(binding)) == PicksOf(Started(binding) + Tailpiece(binding)).readings;
  }

  /** The final rows pass their checks. */
  lemma {:induction false} FinalRowsPass(a: ScenarioId, b: ScenarioId, run: RunInfo)
    requires a != b && run.targetPid == 1
    ensures AllPassed(FinalChecks(run, Log(a, b, run.binding))) && AllPassed(HygieneChecks(Log(a, b, run.binding)))
    ensures BoundaryCheck(Log(a, b, run.binding)).passed
  {
    var rows := Log(a, b, run.binding);
    LogParts(a, b, run.binding);
    UntaggedReading(run.binding);
    LogShows(a, b, run.binding);
    FinalPasses(run, rows, 12 * Second);
    HygienePasses(rows, Two(2) + Two(8) + [Reading(12 * Second, Idle(0))]);
    assert Last(rows) == At(13, None, run.binding, RunEnd(Succeeded));
  }

  lemma {:induction false} PlateausAreFlat(m: Manifest, a: ScenarioId, b: ScenarioId, binding: string)
    requires a != b && m == Plan(a, b)
    ensures Plateaus(m, Log(a, b, binding)) == [FlatPlateau, FlatPlateau]
  {
    var rows := Log(a, b, binding);
    LogParts(a, b, binding);
    OpeningShows(a, b, binding);
    ClosingShows(a, b, binding);
    TailIsAll(m, EventsOf(m, rows, 0), 2);
    TailIsAll(m, EventsOf(m, rows, 1), 8);
    PlateauIsFlat(2);
    PlateauIsFlat(8);
  }

  /** Checks of a two-scenario manifest, from the two scenarios' checks. */
  lemma {:induction false} TwoScenariosPass(
      m: Manifest, rows: seq<Event>, x: seq<Event>, y: seq<Event>, ps: seq<Plateau>)
    requires |m.scenarios| == 2 == |ps| && EventsOf(m, rows, 0) == x && EventsOf(m, rows, 1) == y
    requires AllPassed(ScenarioChecks(m, m.scenarios[0], x, ps[0])) && AllPassed(ScenarioChecks(m, m.scenarios[1], y, ps[1]))
    ensures AllPassed(ChecksUpTo(m, rows, ps, 2))
  {
    var one := ScenarioChecks(m, m.scenarios[0], x, ps[0]);
    assert ChecksUpTo(m, rows, ps, 1) == [] + one;
    AllPassedAppend([], one);
    AllPassedAppend(ChecksUpTo(m, rows, ps, 1), ScenarioChecks(m, m.scenarios[1], y, ps[1]));
  }

  lemma {:induction false} BothScenariosPass(m: Manifest, a: ScenarioId, b: ScenarioId, binding: string)
    requires a != b && m == Plan(a, b)
    ensures AllPassed(ChecksUpTo(m, Log(a, b, binding), [FlatPlateau, FlatPlateau], 2))
  {
    LogParts(a, b, binding);
    OpeningShows(a, b, binding);
    ClosingShows(a, b, binding);
    var x, y := OpeningBlock(a, binding), ClosingBlock(b, binding);
    ScenarioPasses(m, m.scenarios[0], x, 1, 6, [5 * Second]);
    ScenarioPasses(m, m.scenarios[1], y, 7, 11, []);
    TwoScenariosPass(m, Log(a, b, binding), x, y, [FlatPlateau, FlatPlateau]);
  }

  lemma {:induction false} RollbacksMatch(m: Manifest, rows: seq<Event>)
    requires |m.scenarios| == 2 && m.scenarios[0].kind == m.scenarios[1].kind == Rollback
    requires m.scenarios[0].mode == IterationBatch && m.scenarios[1].mode == PerOperation
    requires Requests(EventsOf(m, rows, 0)) == Requests(EventsOf(m, rows, 1)) == [Answered()]
    ensures var r := RollbacksUpTo(m, rows, 2);
            RollbackOf(r, IterationBatch) == RollbackOf(r, PerOperation) == {Some(Golden())}
  {
    assert SuccessHashes([Answered()]) == {Some(Golden())} by { assert Answered() in [Answered()]; }
    assert RollbacksUpTo(m, rows, 1) == map[IterationBatch := {Some(Golden())}];
  }

  lemma {:induction false} ParityOfLog(m: Manifest, a: ScenarioId, b: ScenarioId, binding: string)
    requires a != b && m == Plan(a, b)
    ensures AllPassed(ParityChecks(m, Log(a, b, binding), RollbacksUpTo(m, Log(a, b, binding), 2)))
  {
    LogParts(a, b, binding);
    OpeningShows(a, b, binding);
    ClosingShows(a, b, binding);
    LogShows(a, b, binding);
    RollbacksMatch(m, Log(a, b, binding));
    ParityPasses(m, Log(a, b, binding), RollbacksUpTo(m, Log(a, b, binding), 2));
  }

  lemma {:induction false} CountersOfLog(m: Manifest, a: ScenarioId, b: ScenarioId, binding: string)
    requires a != b && m == Plan(a, b)
    ensures var rows := Log(a, b, binding);
            AllPassed(CounterChecks(m.thresholds, OutcomesUpTo(m, rows, 2), MaximaUpTo(m, rows, 2)))
  {
    var rows := Log(a, b, binding);
    PlanIsValid(a, b);
    LogIsAccepted(a, b, binding);
    AllTagged(m, binding, rows);
    MaximaOfAllScenarios(m, rows);
    MaximaNotNegative(None, TaggedReadings(rows));
    CountersPass(OutcomesUpTo(m, rows, 2), MaximaUpTo(m, rows, 2));
  }

  lemma {:induction false} ReportOfLog(m: Manifest, a: ScenarioId, b: ScenarioId, run: RunInfo)
    requires a != b && m == Plan(a, b) && run.targetPid == 1
    ensures BatchReport(m, run, Log(a, b, run.binding)).passed
  {
    var rows := Log(a, b, run.binding);
    PlateausAreFlat(m, a, b, run.binding);
    BothScenariosPass(m, a, b, run.binding);
    FinalRowsPass(a, b, run);
    CountersOfLog(m, a, b, run.binding);
    ParityOfLog(m, a, b, run.binding);
    ReportPasses(m, run, rows, [FlatPlateau, FlatPlateau]);
  }

  /** Some manifest and log give a passing report, for any two scenario names. */
  lemma {:induction false} SomeReportPasses(a: ScenarioId, b: ScenarioId, binding: string)
    requires a != b
    ensures var m, run := Plan(a, b), RunInfo(binding, 1, 13 * Second);
            var r := Evaluate(m, run, Log(a, b, binding));
            ValidManifest(m) && r.Some? && r.value.passed
  {
    var m, run, rows := Plan(a, b), RunInfo(binding, 1, 13 * Second), Log(a, b, binding);
    PlanIsValid(a, b);
    LogIsAccepted(a, b, binding);
    ReportOfLog(m, a, b, run);
    assert Last(rows).ns == 13 * Second && rows[0].ns == 0;
  }
}
