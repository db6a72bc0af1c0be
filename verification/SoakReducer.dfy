/** The held-descriptor soak checker's first pass: events are consumed one at a
    time and only a fixed-size summary survives. `seen` is the ghost list of the
    consumed events; the class invariant ties every retained field to the
    selection that the list-based checker would make from it. */
module SoakReducer {
  import opened Sequences
  import opened SoakEvents
  import opened SoakBatch

  /** Boundary facts of one scenario. */
  datatype ShapeState = ShapeState(
    eventCount: nat,
    kinds: multiset<Kind>,
    firstKind: Option<Kind>,
    lastStatus: Option<Status>,
    startCount: nat,
    endCount: nat,
    startNs: Option<int>,
    endNs: Option<int>,
    executionCompletion: Option<Mode>)

  /** Sample facts; `previous` holds the last sample's time, pid and counters. */
  datatype SampleState = SampleState(
    count: nat,
    firstNs: Option<int>,
    lastNs: Option<int>,
    previous: Option<Reading>,
    countersMonotonic: bool,
    restartSincePrevious: bool,
    maximumGapMs: real)

  datatype RequestState = RequestState(
    count: nat,
    outcomes: multiset<Outcome>,
    goldenCount: nat,
    goldenAllExpected: bool,
    rollbackCount: nat,
    rollbackAllExpected: bool)

  /** The fixed-size summary of one scenario. */
  datatype ScenarioState = ScenarioState(shape: ShapeState, samples: SampleState, requests: RequestState)

  const EmptyState := ScenarioState(
    ShapeState(0, multiset{}, None, None, 0, 0, None, None, None),
    SampleState(0, None, None, None, true, false, 0.0),
    RequestState(0, multiset{}, 0, true, 0, true))

  function RecordShape(st: ShapeState, e: Event): ShapeState {
    var noted := st.(
      eventCount := st.eventCount + 1,
      kinds := st.kinds + multiset{KindOf(e)},
      firstKind := if st.firstKind.None? then Some(KindOf(e)) else st.firstKind,
      lastStatus := StatusOf(e));
    match e.body
    case ScenarioStart(mode) =>
      noted.(startCount := st.startCount + 1, startNs := Some(e.ns), executionCompletion := Some(mode))
    case ScenarioEnd(_) => noted.(endCount := st.endCount + 1, endNs := Some(e.ns))
    case _ => noted
  }

  function RecordSample(st: SampleState, s: Reading): SampleState {
    var again := st.previous.Some?;
    st.(count := st.count + 1,
        firstNs := if st.firstNs.None? then Some(s.ns) else st.firstNs,
        maximumGapMs :=
          if again && !st.restartSincePrevious
          then MaxReal(st.maximumGapMs, Milliseconds(s.ns - st.previous.value.ns))
          else st.maximumGapMs,
        countersMonotonic :=
          st.countersMonotonic
          && (again && st.previous.value.body.pid == s.body.pid ==>
                CountersRose(st.previous.value.body.counters, s.body.counters)),
        previous := Some(s),
        restartSincePrevious := false,
        lastNs := Some(s.ns))
  }

  function RecordRestart(st: SampleState): SampleState {
    if st.previous.Some? then st.(restartSincePrevious := true) else st
  }

  function RecordRequest(m: Manifest, sc: Scenario, st: RequestState, r: RequestBody): RequestState {
    var counted := st.(count := st.count + 1, outcomes := st.outcomes + multiset{r.outcome});
    var expected := r.generated == Some(m.goldenSha256);
    var golden :=
      if r.outcome == Success && GoldenOnly(m, sc)
      then counted.(goldenCount := st.goldenCount + 1, goldenAllExpected := st.goldenAllExpected && expected)
      else counted;
    if r.outcome == Success && sc.kind == Rollback
    then golden.(rollbackCount := st.rollbackCount + 1, rollbackAllExpected := st.rollbackAllExpected && expected)
    else golden
  }

  /** The update of one scenario's summary by one of its own events. */
  function RecordScenario(m: Manifest, sc: Scenario, st: ScenarioState, e: Event): ScenarioState {
    ScenarioState(
      RecordShape(st.shape, e),
      if e.body.Restart? then RecordRestart(st.samples)
      else if e.body.Sample? then RecordSample(st.samples, Reading(e.ns, e.body.sample))
      else st.samples,
      if e.body.Request? then RecordRequest(m, sc, st.requests, e.body.request) else st.requests)
  }

  // ----- what a scenario summary stands for ---------------------------------

  function SuccessCount(requests: seq<RequestBody>): nat {
    if requests == [] then 0
    else SuccessCount(DropLast(requests)) + if Last(requests).outcome == Success then 1 else 0
  }

  predicate RestartAfterLast(samples: seq<Reading>, restarts: seq<int>) {
    samples != [] && exists t :: t in restarts && Last(samples).ns < t
  }

  predicate SummarizesEnds(st: ShapeState, es: seq<Event>) {
    && st.eventCount == |es|
    && st.kinds == Kinds(es)
    && st.firstKind == (if es == [] then None else Some(KindOf(es[0])))
    && st.lastStatus == (if es == [] then None else StatusOf(Last(es)))
  }

  predicate SummarizesSpans(st: ShapeState, openings: seq<Opening>, closings: seq<int>) {
    && st.startCount == |openings|
    && st.startNs == (if openings == [] then None else Some(Last(openings).ns))
    && st.executionCompletion == (if openings == [] then None else Some(Last(openings).mode))
    && st.endCount == |closings|
    && st.endNs == (if closings == [] then None else Some(Last(closings)))
  }

  predicate SummarizesSamples(st: SampleState, samples: seq<Reading>, restarts: seq<int>) {
    && st.count == |samples|
    && st.firstNs == (if samples == [] then None else Some(samples[0].ns))
    && st.lastNs == (if samples == [] then None else Some(Last(samples).ns))
    && st.previous == (if samples == [] then None else Some(Last(samples)))
    && st.countersMonotonic == CountersMonotonic(samples)
    && st.restartSincePrevious == RestartAfterLast(samples, restarts)
    && st.maximumGapMs == Largest(Gaps(samples, restarts))
  }

  predicate CountsHashes(counted: bool, count: nat, allExpected: bool, golden: string, requests: seq<RequestBody>) {
    && count == (if counted then SuccessCount(requests) else 0)
    && (allExpected <==> (counted ==> SuccessHashes(requests) <= {Some(golden)}))
  }

  predicate SummarizesRequests(m: Manifest, sc: Scenario, st: RequestState, requests: seq<RequestBody>) {
    && st.count == |requests|
    && st.outcomes == Outcomes(requests)
    && CountsHashes(GoldenOnly(m, sc), st.goldenCount, st.goldenAllExpected, m.goldenSha256, requests)
    && CountsHashes(sc.kind == Rollback, st.rollbackCount, st.rollbackAllExpected, m.goldenSha256, requests)
  }

  predicate Summarizes(m: Manifest, sc: Scenario, st: ScenarioState, es: seq<Event>) {
    && SummarizesEnds(st.shape, es) && SummarizesSpans(st.shape, Openings(es), ClosingTimes(es))
    && SummarizesSamples(st.samples, Readings(es), RestartTimes(es))
    && SummarizesRequests(m, sc, st.requests, Requests(es))
  }

  // ----- one event keeps the correspondence ---------------------------------

  lemma {:induction false} SelectionsSnoc(es: seq<Event>, e: Event)
    ensures Readings(es + [e]) == if e.body.Sample? then Readings(es) + [Reading(e.ns, e.body.sample)] else Readings(es)
    ensures TaggedReadings(es + [e]) == if e.body.Sample? && e.tag.Some? then TaggedReadings(es) + [Reading(e.ns, e.body.sample)] else TaggedReadings(es)
    ensures Requests(es + [e]) == if e.body.Request? then Requests(es) + [e.body.request] else Requests(es)
    ensures Openings(es + [e]) == if e.body.ScenarioStart? then Openings(es) + [Opening(e.ns, e.body.mode)] else Openings(es)
    ensures ClosingTimes(es + [e]) == if e.body.ScenarioEnd? then ClosingTimes(es) + [e.ns] else ClosingTimes(es)
    ensures RestartTimes(es + [e]) == if e.body.Restart? then RestartTimes(es) + [e.ns] else RestartTimes(es)
    ensures Restarts(es + [e]) == if e.body.Restart? then Restarts(es) + [e.body.restart] else Restarts(es)
    ensures Failures(es + [e]) == if e.body.FailureNote? then Failures(es) + [e.body.message] else Failures(es)
    ensures Kinds(es + [e]) == Kinds(es) + multiset{KindOf(e)}
  {
    CollectSnoc(AsReading, es, e);
    CollectSnoc(AsTaggedReading, es, e);
    CollectSnoc(AsRequest, es, e);
    CollectSnoc(AsOpening, es, e);
    CollectSnoc(AsClosingNs, es, e);
    CollectSnoc(AsRestartNs, es, e);
    CollectSnoc(AsRestart, es, e);
    CollectSnoc(AsFailure, es, e);
    assert DropLast(es + [e]) == es;
  }

  lemma {:induction false} WithTagSnoc(rows: seq<Event>, e: Event, tag: Option<ScenarioId>)
    ensures WithTag(rows + [e], tag) == if e.tag == tag then WithTag(rows, tag) + [e] else WithTag(rows, tag)
  {
    assert DropLast(rows + [e]) == rows;
  }

  lemma {:induction false} SelectedBefore(es: seq<Event>, bound: int)
    requires forall x :: x in es ==> x.ns < bound
    ensures forall r :: r in Readings(es) ==> r.ns < bound
    ensures forall t :: t in RestartTimes(es) ==> t < bound
  {
    if es != [] {
      var init := DropLast(es);
      assert forall x :: x in init ==> x in es;
      SelectedBefore(init, bound);
      SelectionsSnoc(init, Last(es));
      assert Last(es) in es;
    }
  }

  lemma {:induction false} LaterRestartCrossesNothing(samples: seq<Reading>, restarts: seq<int>, t: int)
    requires forall s :: s in samples ==> s.ns <= t
    ensures Gaps(samples, restarts + [t]) == Gaps(samples, restarts)
  {
    if 2 <= |samples| {
      LaterRestartCrossesNothing(DropLast(samples), restarts, t);
      var left, right := samples[|samples| - 2].ns, samples[|samples| - 1].ns;
      assert samples[|samples| - 1] in samples;
      if Crossed(left, right, restarts) {
        var u :| u in restarts && left < u < right;
        assert u in restarts + [t];
      }
    }
  }

  lemma {:induction false} EndsStep(st: ShapeState, es: seq<Event>, e: Event)
    requires SummarizesEnds(st, es)
    ensures SummarizesEnds(RecordShape(st, e), es + [e])
  {
    SelectionsSnoc(es, e);
  }

  lemma {:induction false} SpansStep(st: ShapeState, es: seq<Event>, e: Event)
    requires SummarizesSpans(st, Openings(es), ClosingTimes(es))
    ensures SummarizesSpans(RecordShape(st, e), Openings(es + [e]), ClosingTimes(es + [e]))
  {
    SelectionsSnoc(es, e);
  }

  lemma {:induction false} HashesSnoc(requests: seq<RequestBody>, r: RequestBody)
    ensures SuccessHashes(requests + [r]) ==
            SuccessHashes(requests) + if r.outcome == Success then {r.generated} else {}
  {
    assert forall x :: x in requests + [r] <==> x in requests || x == r;
  }

  lemma {:induction false} HashCountStep(
      counted: bool, count: nat, all: bool, golden: string, requests: seq<RequestBody>, r: RequestBody)
    requires CountsHashes(counted, count, all, golden, requests)
    ensures var hit := counted && r.outcome == Success;
            CountsHashes(counted, if hit then count + 1 else count,
                         if hit then all && r.generated == Some(golden) else all, golden, requests + [r])
  {
    assert DropLast(requests + [r]) == requests;
    HashesSnoc(requests, r);
  }

  lemma {:induction false} RequestStep(
      m: Manifest, sc: Scenario, st: RequestState, requests: seq<RequestBody>, r: RequestBody)
    requires SummarizesRequests(m, sc, st, requests)
    ensures SummarizesRequests(m, sc, RecordRequest(m, sc, st, r), requests + [r])
  {
    var next := RecordRequest(m, sc, st, r);
    assert next.outcomes == Outcomes(requests + [r]) by {
      assert DropLast(requests + [r]) == requests;
    }
    HashCountStep(GoldenOnly(m, sc), st.goldenCount, st.goldenAllExpected, m.goldenSha256, requests, r);
    HashCountStep(sc.kind == Rollback, st.rollbackCount, st.rollbackAllExpected, m.goldenSha256, requests, r);
  }

  lemma {:induction false} MonotonicSnoc(samples: seq<Reading>, s: Reading)
    ensures CountersMonotonic(samples + [s]) <==>
            && CountersMonotonic(samples)
            && (samples != [] && Last(samples).body.pid == s.body.pid ==>
                  CountersRose(Last(samples).body.counters, s.body.counters))
  {
    var all := samples + [s];
    assert forall i :: 0 <= i < |samples| ==> all[i] == samples[i];
    if CountersMonotonic(all) {
      forall i | 1 <= i < |samples| && samples[i].body.pid == samples[i - 1].body.pid
        ensures CountersRose(samples[i - 1].body.counters, samples[i].body.counters)
      {
        assert all[i].body.pid == all[i - 1].body.pid;
      }
      if samples != [] {
        assert all[|samples|] == s && all[|samples| - 1] == Last(samples);
      }
    }
  }

  lemma {:induction false} GapsSnoc(samples: seq<Reading>, s: Reading, restarts: seq<int>)
    requires samples != []
    ensures Largest(Gaps(samples + [s], restarts)) ==
            if Crossed(Last(samples).ns, s.ns, restarts) then Largest(Gaps(samples, restarts))
            else MaxReal(Largest(Gaps(samples, restarts)), Milliseconds(s.ns - Last(samples).ns))
  {
    var all, g, gap := samples + [s], Gaps(samples, restarts), Milliseconds(s.ns - Last(samples).ns);
    assert DropLast(all) == samples && all[|all| - 2] == Last(samples) && all[|all| - 1] == s;
    assert Gaps(all, restarts) == g + if Crossed(Last(samples).ns, s.ns, restarts) then [] else [gap];
    assert DropLast(g + [gap]) == g && g + [] == g;
  }

  lemma {:induction false} RestartStep(st: SampleState, samples: seq<Reading>, restarts: seq<int>, t: int)
    requires SummarizesSamples(st, samples, restarts)
    requires forall s :: s in samples ==> s.ns < t
    ensures SummarizesSamples(RecordRestart(st), samples, restarts + [t])
  {
    LaterRestartCrossesNothing(samples, restarts, t);
    assert t in restarts + [t];
    if samples != [] { assert Last(samples) in samples; }
  }

  lemma {:induction false} SampleStep(st: SampleState, samples: seq<Reading>, restarts: seq<int>, s: Reading)
    requires SummarizesSamples(st, samples, restarts)
    requires forall t :: t in restarts ==> t < s.ns
    ensures SummarizesSamples(RecordSample(st, s), samples + [s], restarts)
  {
    var next := RecordSample(st, s);
    assert next.countersMonotonic == CountersMonotonic(samples + [s]) by { MonotonicSnoc(samples, s); }
    assert Last(samples + [s]) == s;
    assert next.maximumGapMs == Largest(Gaps(samples + [s], restarts)) by {
      if samples != [] {
        GapsSnoc(samples, s, restarts);
        assert Crossed(Last(samples).ns, s.ns, restarts) <==> RestartAfterLast(samples, restarts);
      }
    }
  }

  lemma {:induction false} EmptySummary(m: Manifest, sc: Scenario)
    ensures Summarizes(m, sc, EmptyState, [])
  {
  }

  lemma {:induction false} SummaryStep(m: Manifest, sc: Scenario, st: ScenarioState, es: seq<Event>, e: Event)
    requires Summarizes(m, sc, st, es)
    requires forall x :: x in es ==> x.ns < e.ns
    ensures Summarizes(m, sc, RecordScenario(m, sc, st, e), es + [e])
  {
    EndsStep(st.shape, es, e);
    SpansStep(st.shape, es, e);
    SelectionsSnoc(es, e);
    SelectedBefore(es, e.ns);
    match e.body
    case Restart(_) => RestartStep(st.samples, Readings(es), RestartTimes(es), e.ns);
    case Sample(s) => SampleStep(st.samples, Readings(es), RestartTimes(es), Reading(e.ns, s));
    case Request(r) => RequestStep(m, sc, st.requests, Requests(es), r);
    case _ =>
  }

  // ----- run-wide facts -----------------------------------------------------

  /** 1-based position of the last untagged sample. */
  function LastGlobalIndex(rows: seq<Event>): Option<int> {
    if rows == [] then None
    else if Last(rows).tag.None? && Last(rows).body.Sample? then Some(|rows|)
    else LastGlobalIndex(DropLast(rows))
  }

  predicate AnyDropped(samples: seq<Reading>) {
    exists r :: r in samples && r.body.dropped
  }

  function Head<T>(s: seq<T>): Option<T> {
    if s == [] then None else Some(s[0])
  }

  /** First and last event of the run, and how often each kind occurred. */
  datatype Bounds = Bounds(
    firstKind: Option<Kind>, lastKind: Option<Kind>, lastStatus: Option<Status>,
    firstNs: Option<int>, lastNs: Option<int>, kinds: multiset<Kind>)

  /** Request outcomes, failures and the first restart of the run. */
  datatype Notes = Notes(
    outcomes: multiset<Outcome>, failureCount: nat, restartCount: nat, firstRestart: Option<RestartBody>)

  /** Facts drawn from scenario samples. */
  datatype ProcessFacts = ProcessFacts(maxima: Option<Counters>, firstPid: Option<int>)

  /** The final global sample. */
  datatype GlobalFacts = GlobalFacts(count: nat, index: Option<int>, sample: Option<SampleBody>)

  /** Facts drawn from every sample. */
  datatype ChildFacts = ChildFacts(firstPython: Option<Child>, dropped: bool)

  predicate BoundsOf(b: Bounds, rows: seq<Event>) {
    && b.kinds == Kinds(rows)
    && if rows == [] then b == Bounds(None, None, None, None, None, multiset{})
       else
         && b.firstKind == Some(KindOf(rows[0])) && b.lastKind == Some(KindOf(Last(rows)))
         && b.lastStatus == StatusOf(Last(rows))
         && b.firstNs == Some(rows[0].ns) && b.lastNs == Some(Last(rows).ns)
  }

  predicate NotesOf(n: Notes, rows: seq<Event>) {
    && n.outcomes == Outcomes(Requests(rows))
    && n.failureCount == |Failures(rows)|
    && n.restartCount == |Restarts(rows)|
    && n.firstRestart == Head(Restarts(rows))
  }

  predicate ProcessOf(p: ProcessFacts, processes: seq<Reading>) {
    && p.maxima == MaximaOver(None, processes)
    && p.firstPid == (if processes == [] then None else Some(processes[0].body.pid))
  }

  predicate GlobalOf(g: GlobalFacts, rows: seq<Event>) {
    var globals := Readings(WithTag(rows, None));
    && g.count == |globals|
    && g.index == LastGlobalIndex(rows)
    && g.sample == (if globals == [] then None else Some(Last(globals).body))
  }

  predicate ChildrenOf(c: ChildFacts, samples: seq<Reading>) {
    && c.firstPython == Head(PythonChildren(samples))
    && c.dropped == AnyDropped(samples)
  }

  function RecordBounds(b: Bounds, e: Event): Bounds {
    Bounds(
      if b.firstKind.None? then Some(KindOf(e)) else b.firstKind,
      Some(KindOf(e)), StatusOf(e),
      if b.firstKind.None? then Some(e.ns) else b.firstNs,
      Some(e.ns), b.kinds + multiset{KindOf(e)})
  }

  function RecordNotes(n: Notes, e: Event): Notes {
    match e.body
    case Request(r) => n.(outcomes := n.outcomes + multiset{r.outcome})
    case Restart(r) =>
      n.(restartCount := n.restartCount + 1,
         firstRestart := if n.firstRestart.None? then Some(r) else n.firstRestart)
    case FailureNote(_, _) => n.(failureCount := n.failureCount + 1)
    case _ => n
  }

  function RecordProcess(p: ProcessFacts, s: SampleBody): ProcessFacts {
    ProcessFacts(RaiseMaxima(p.maxima, s.counters), if p.firstPid.None? then Some(s.pid) else p.firstPid)
  }

  function RecordChildren(c: ChildFacts, s: SampleBody): ChildFacts {
    ChildFacts(FindPython(c.firstPython, s.children), c.dropped || s.dropped)
  }

  /** The first Python child among `children`, unless one is already known. */
  function FindPython(found: Option<Child>, children: seq<Child>): Option<Child> {
    if children == [] then found
    else
      var before := FindPython(found, DropLast(children));
      if before.None? && Last(children).python then Some(Last(children)) else before
  }

  lemma {:induction false} FindPythonIsHead(known: seq<Child>, children: seq<Child>)
    ensures FindPython(Head(known), children) == Head(known + PythonChildrenOf(children))
  {
    if children == [] {
      assert known + [] == known;
    } else {
      FindPythonIsHead(known, DropLast(children));
      var p := PythonChildrenOf(DropLast(children));
      if Last(children).python {
        assert known + (p + [Last(children)]) == (known + p) + [Last(children)];
      }
    }
  }

  lemma {:induction false} BoundsStep(b: Bounds, rows: seq<Event>, e: Event)
    requires BoundsOf(b, rows)
    ensures BoundsOf(RecordBounds(b, e), rows + [e])
  {
    SelectionsSnoc(rows, e);
  }

  lemma {:induction false} NotesStep(n: Notes, rows: seq<Event>, e: Event)
    requires NotesOf(n, rows)
    ensures NotesOf(RecordNotes(n, e), rows + [e])
  {
    SelectionsSnoc(rows, e);
    match e.body
    case Request(r) => assert DropLast(Requests(rows) + [r]) == Requests(rows);
    case Restart(_) =>
    case FailureNote(_, _) =>
    case _ =>
  }

  lemma {:induction false} ProcessStep(p: ProcessFacts, processes: seq<Reading>, s: Reading)
    requires ProcessOf(p, processes)
    ensures ProcessOf(RecordProcess(p, s.body), processes + [s])
  {
    assert DropLast(processes + [s]) == processes;
  }

  lemma {:induction false} GlobalStep(g: GlobalFacts, rows: seq<Event>, e: Event)
    requires GlobalOf(g, rows)
    ensures GlobalOf(if e.tag.None? && e.body.Sample?
                     then GlobalFacts(g.count + 1, Some(|rows| + 1), Some(e.body.sample)) else g,
                     rows + [e])
  {
    WithTagSnoc(rows, e, None);
    if e.tag.None? { SelectionsSnoc(WithTag(rows, None), e); }
    assert DropLast(rows + [e]) == rows;
  }

  lemma {:induction false} ChildStep(c: ChildFacts, samples: seq<Reading>, s: Reading)
    requires ChildrenOf(c, samples)
    ensures ChildrenOf(RecordChildren(c, s.body), samples + [s])
  {
    assert DropLast(samples + [s]) == samples;
    FindPythonIsHead(PythonChildren(samples), s.body.children);
    assert s in samples + [s];
    if AnyDropped(samples) {
      var r :| r in samples && r.body.dropped;
      assert r in samples + [s];
    }
  }

  // ----- the summaries of all scenarios -------------------------------------

  ghost predicate SummarizesAll(m: Manifest, states: map<ScenarioId, ScenarioState>, rows: seq<Event>) {
    && (forall id :: id in states <==> IsScenarioId(m, id))
    && forall k :: 0 <= k < |m.scenarios| ==>
         m.scenarios[k].id in states && Summarizes(m, m.scenarios[k], states[m.scenarios[k].id], EventsOf(m, rows, k))
  }

  lemma {:induction false} TaggedComeFromRows(rows: seq<Event>, tag: Option<ScenarioId>)
    ensures forall x :: x in WithTag(rows, tag) ==> x in rows
  {
    if rows != [] {
      TaggedComeFromRows(DropLast(rows), tag);
      WithTagSnoc(DropLast(rows), Last(rows), tag);
    }
  }

  lemma {:induction false} OneSummaryStep(m: Manifest, k: nat, st: ScenarioState, rows: seq<Event>, e: Event)
    requires k < |m.scenarios|
    requires Summarizes(m, m.scenarios[k], st, EventsOf(m, rows, k))
    requires forall x :: x in rows ==> x.ns < e.ns
    ensures Summarizes(m, m.scenarios[k],
                       if e.tag == Some(m.scenarios[k].id) then RecordScenario(m, m.scenarios[k], st, e) else st,
                       EventsOf(m, rows + [e], k))
  {
    var sc := m.scenarios[k];
    WithTagSnoc(rows, e, Some(sc.id));
    TaggedComeFromRows(rows, Some(sc.id));
    if e.tag == Some(sc.id) {
      SummaryStep(m, sc, st, EventsOf(m, rows, k), e);
    }
  }

  /** The state map after one event: only its own scenario's summary moves. */
  function RecordTagged(m: Manifest, states: map<ScenarioId, ScenarioState>, e: Event): map<ScenarioId, ScenarioState> {
    if e.tag.Some? && e.tag.value in states && IsScenarioId(m, e.tag.value) then
      var id := e.tag.value;
      states[id := RecordScenario(m, m.scenarios[ScenarioIndex(m, id)], states[id], e)]
    else states
  }

  lemma {:induction false} IndexOfOwnId(m: Manifest, k: nat)
    requires ValidManifest(m) && k < |m.scenarios|
    ensures IsScenarioId(m, m.scenarios[k].id) && ScenarioIndex(m, m.scenarios[k].id) == k
  {
    var j := ScenarioIndex(m, m.scenarios[k].id);
    assert m.scenarios[j].id == m.scenarios[k].id;
  }

  lemma {:induction false} OneKeyStep(
      m: Manifest, states: map<ScenarioId, ScenarioState>, rows: seq<Event>, e: Event, k: nat)
    requires ValidManifest(m) && k < |m.scenarios|
    requires e.tag.Some? ==> IsScenarioId(m, e.tag.value) && e.tag.value in states
    requires m.scenarios[k].id in states
    requires Summarizes(m, m.scenarios[k], states[m.scenarios[k].id], EventsOf(m, rows, k))
    requires forall x :: x in rows ==> x.ns < e.ns
    ensures var next := RecordTagged(m, states, e);
            m.scenarios[k].id in next
            && Summarizes(m, m.scenarios[k], next[m.scenarios[k].id], EventsOf(m, rows + [e], k))
  {
    OneSummaryStep(m, k, states[m.scenarios[k].id], rows, e);
    IndexOfOwnId(m, k);
  }

  lemma {:induction false} AllSummariesStep(
      m: Manifest, states: map<ScenarioId, ScenarioState>, rows: seq<Event>, e: Event)
    requires ValidManifest(m) && TagOk(m, e)
    requires SummarizesAll(m, states, rows)
    requires forall x :: x in rows ==> x.ns < e.ns
    ensures SummarizesAll(m, RecordTagged(m, states, e), rows + [e])
  {
    forall k | 0 <= k < |m.scenarios|
      ensures var next := RecordTagged(m, states, e);
              m.scenarios[k].id in next
              && Summarizes(m, m.scenarios[k], next[m.scenarios[k].id], EventsOf(m, rows + [e], k))
    {
      OneKeyStep(m, states, rows, e, k);
    }
  }

  // ----- the reducer --------------------------------------------------------

  /** Everything the reducer retains besides the protocol variables. */
  datatype Retained = Retained(
    states: map<ScenarioId, ScenarioState>, bounds: Bounds, notes: Notes,
    process: ProcessFacts, global: GlobalFacts, children: ChildFacts)

  function ScenarioIds(m: Manifest): (ids: set<ScenarioId>)
    ensures forall k :: 0 <= k < |m.scenarios| ==> m.scenarios[k].id in ids
    ensures forall id :: id in ids ==> IsScenarioId(m, id)
  {
    set k | 0 <= k < |m.scenarios| :: m.scenarios[k].id
  }

  function Nothing(m: Manifest): Retained {
    Retained(map id | id in ScenarioIds(m) :: EmptyState,
             Bounds(None, None, None, None, None, multiset{}), Notes(multiset{}, 0, 0, None),
             ProcessFacts(None, None), GlobalFacts(0, None, None), ChildFacts(None, false))
  }

  function Record(m: Manifest, f: Retained, count: nat, e: Event): Retained {
    var sampled := e.body.Sample?;
    Retained(
      RecordTagged(m, f.states, e), RecordBounds(f.bounds, e), RecordNotes(f.notes, e),
      if sampled && e.tag.Some? then RecordProcess(f.process, e.body.sample) else f.process,
      if sampled && e.tag.None?
      then GlobalFacts(f.global.count + 1, Some(count + 1), Some(e.body.sample)) else f.global,
      if sampled then RecordChildren(f.children, e.body.sample) else f.children)
  }

  /** The retained state after a list of events. */
  function Reduce(m: Manifest, rows: seq<Event>): Retained {
    if rows == [] then Nothing(m) else Record(m, Reduce(m, DropLast(rows)), |rows| - 1, Last(rows))
  }

  lemma {:induction false} ReduceSnoc(m: Manifest, rows: seq<Event>, e: Event)
    ensures Reduce(m, rows + [e]) == Record(m, Reduce(m, rows), |rows|, e)
  {
    assert DropLast(rows + [e]) == rows;
  }

  /** Each retained field is the list-based checker's selection from the rows. */
  ghost predicate Represents(m: Manifest, f: Retained, rows: seq<Event>) {
    && SummarizesAll(m, f.states, rows)
    && BoundsOf(f.bounds, rows) && NotesOf(f.notes, rows)
    && ProcessOf(f.process, TaggedReadings(rows)) && GlobalOf(f.global, rows)
    && ChildrenOf(f.children, Readings(rows))
  }

  lemma {:induction false} NothingRepresents(m: Manifest)
    ensures Represents(m, Nothing(m), [])
  {
    forall k | 0 <= k < |m.scenarios|
      ensures m.scenarios[k].id in Nothing(m).states
              && Summarizes(m, m.scenarios[k], Nothing(m).states[m.scenarios[k].id], EventsOf(m, [], k))
    {
      EmptySummary(m, m.scenarios[k]);
    }
  }

  lemma {:induction false} SampleFactsStep(f: Retained, rows: seq<Event>, e: Event)
    requires ProcessOf(f.process, TaggedReadings(rows)) && ChildrenOf(f.children, Readings(rows))
    ensures ProcessOf(if e.body.Sample? && e.tag.Some? then RecordProcess(f.process, e.body.sample) else f.process,
                      TaggedReadings(rows + [e]))
    ensures ChildrenOf(if e.body.Sample? then RecordChildren(f.children, e.body.sample) else f.children,
                       Readings(rows + [e]))
  {
    SelectionsSnoc(rows, e);
    if e.body.Sample? {
      var s := Reading(e.ns, e.body.sample);
      ProcessStep(f.process, TaggedReadings(rows), s);
      ChildStep(f.children, Readings(rows), s);
    }
  }

  lemma {:induction false} RecordRepresents(m: Manifest, f: Retained, rows: seq<Event>, e: Event)
    requires ValidManifest(m) && TagOk(m, e)
    requires forall x :: x in rows ==> x.ns < e.ns
    requires Represents(m, f, rows)
    ensures Represents(m, Record(m, f, |rows|, e), rows + [e])
  {
    AllSummariesStep(m, f.states, rows, e);
    BoundsStep(f.bounds, rows, e);
    NotesStep(f.notes, rows, e);
    GlobalStep(f.global, rows, e);
    SampleFactsStep(f, rows, e);
  }

  lemma {:induction false} LaterThanSeen(m: Manifest, binding: string, rows: seq<Event>, e: Event)
    requires Admitted(m, binding, rows) && EventOk(m, binding, After(rows), e)
    ensures forall x :: x in rows ==> x.ns < e.ns
  {
    PreviousNs(rows);
    forall x | x in rows ensures x.ns < e.ns {
      var i :| 0 <= i < |rows| && rows[i] == x;
      if i < |rows| - 1 { TimesIncrease(m, binding, rows, i, |rows| - 1); }
    }
  }

  /** After any admitted list, the fixed-size state stands for the whole list. */
  lemma {:induction false} ReduceRepresents(m: Manifest, binding: string, rows: seq<Event>)
    requires ValidManifest(m) && Admitted(m, binding, rows)
    ensures Represents(m, Reduce(m, rows), rows)
  {
    if rows == [] {
      NothingRepresents(m);
    } else {
      var init, e := DropLast(rows), Last(rows);
      assert rows == init + [e];
      ReduceRepresents(m, binding, init);
      LaterThanSeen(m, binding, init, e);
      RecordRepresents(m, Reduce(m, init), init, e);
    }
  }

  class Reducer {
    const m: Manifest
    const binding: string
    var machine: Machine
    var kept: Retained
    ghost var seen: seq<Event>

    ghost predicate Valid()
      reads this
    {
      Admitted(m, binding, seen) && machine == After(seen) && kept == Reduce(m, seen)
    }

    constructor (m: Manifest, binding: string)
      ensures Valid() && seen == [] && this.m == m && this.binding == binding
    {
      this.m, this.binding := m, binding;
      machine := Initial;
      kept := Nothing(m);
      seen := [];
    }

    /** Applies the event contract to one event and, when it is admitted, folds it
        into the retained state. A refused event ends the replay. */
    method Consume(e: Event) returns (ok: bool)
      requires Valid()
      modifies this
      ensures ok <==> EventOk(m, binding, After(old(seen)), e)
      ensures ok ==> Valid() && seen == old(seen) + [e]
    {
      ok := EventOk(m, binding, machine, e);
      if ok {
        AdmittedSnoc(m, binding, seen, e);
        ReduceSnoc(m, seen, e);
        kept := Record(m, kept, machine.count, e);
        machine := Advance(machine, e);
        seen := seen + [e];
      }
    }

    /** The closing bracket check. */
    method Finish() returns (ok: bool)
      requires ValidManifest(m) && Valid()
      ensures ok <==> Accepts(m, binding, seen)
    {
      BracketKept(m, binding, seen);
      return kept.bounds.firstKind == Some(KRunStart) && kept.bounds.lastKind == Some(KRunEnd);
    }
  }

  lemma {:induction false} BracketKept(m: Manifest, binding: string, rows: seq<Event>)
    requires ValidManifest(m) && Admitted(m, binding, rows)
    ensures Bracketed(rows) <==>
            var b := Reduce(m, rows).bounds; b.firstKind == Some(KRunStart) && b.lastKind == Some(KRunEnd)
  {
    ReduceRepresents(m, binding, rows);
  }
}
