/** Events, manifests and the per-event contract of the reliability soak checker.

    An event is taken after JSON decoding, with its closed key set already
    matched to its kind. Regular-expression results and the batch-shape table
    are carried as decoded facts. */
module SoakEvents {
  import opened Sequences

  const EventVersion := "riley.reliability-soak-event.v1"
  const EmptySha256 := "e3b0c44298fc1c149afbf4c8996fb92427ae41e4649b934ca495991b7852b855"
  const CurlTimeoutExitCode := 28
  const CurlWriteErrorExitCode := 23
  const DisconnectResponseBytes := 1024

  /** Scenario names are only ever compared. */
  type ScenarioId(==, !new)

  datatype Mode = IterationBatch | PerOperation | OtherMode(text: string)

  datatype ScenarioKind =
    | Steady | BurstIdle | Mixed | InvalidInput | OverloadBurst
    | CancellationDisconnect | NearKv | GracefulRestart | Rollback

  datatype Scenario = Scenario(
    id: ScenarioId,
    kind: ScenarioKind,
    durationSeconds: int,
    profile: string,
    secondaryProfile: Option<string>,
    mode: Mode)

  datatype Thresholds = Thresholds(
    sampleIntervalMs: int,
    maximumSampleGapMs: int,
    minimumSamples: int,
    plateauTailFraction: real,
    maximumRssGrowth: int,
    maximumRssSlope: real,
    maximumVramGrowth: real,
    maximumVramSlope: real,
    minimumCancellations: int,
    minimumDisconnects: int,
    minimumOverloads: int,
    shutdownDeadlineMs: int)

  /** `requestSha256` gives the digest of the exact request bytes that the
      manifest prescribes for a profile and a stream flag. */
  datatype Manifest = Manifest(
    scenarios: seq<Scenario>,
    requestSha256: map<(string, bool), string>,
    goldenProfile: string,
    goldenSha256: string,
    thresholds: Thresholds)

  predicate IsSha256(text: string) {
    |text| == 64 && forall c :: c in text ==> '0' <= c <= '9' || 'a' <= c <= 'f'
  }

  /** What manifest validation guarantees and the event checkers rely on. */
  predicate ValidManifest(m: Manifest) {
    && m.scenarios != []
    && (forall i, j :: 0 <= i < j < |m.scenarios| ==> m.scenarios[i].id != m.scenarios[j].id)
    && (forall i :: 0 <= i < |m.scenarios| ==> 1 <= m.scenarios[i].durationSeconds)
    && IsSha256(m.goldenSha256)
    && 0.0 < m.thresholds.plateauTailFraction <= 1.0
  }

  predicate IsScenarioId(m: Manifest, id: ScenarioId) {
    exists i :: 0 <= i < |m.scenarios| && m.scenarios[i].id == id
  }

  function ScenarioIndex(m: Manifest, id: ScenarioId): (i: nat)
    requires IsScenarioId(m, id)
    ensures i < |m.scenarios| && m.scenarios[i].id == id
  {
    IndexFrom(m, id, 0)
  }

  function IndexFrom(m: Manifest, id: ScenarioId, from: nat): (i: nat)
    requires exists k :: from <= k < |m.scenarios| && m.scenarios[k].id == id
    ensures from <= i < |m.scenarios| && m.scenarios[i].id == id
    decreases |m.scenarios| - from
  {
    if m.scenarios[from].id == id then from else IndexFrom(m, id, from + 1)
  }

  // ----- events -----------------------------------------------------------

  datatype Kind =
    | KRunStart | KScenarioStart | KSample | KRequest
    | KRestart | KScenarioEnd | KFailure | KRunEnd

  datatype Status = Succeeded | Failed | OtherStatus

  datatype Outcome =
    | Success | Invalid | Overload | Cancelled | Disconnected | Timeout | Faulted
    | OtherOutcome

  datatype Action = Normal | SendInvalid | SendOverload | Cancel | Disconnect | OtherAction

  /** `python` records whether the interpreter pattern matches the child. */
  datatype Child = Child(pid: int, comm: string, executable: string, python: bool)

  datatype Counters = Counters(cancellations: int, disconnects: int, overloads: int, dropped: int)

  datatype Allocation = Allocation(deviceCount: int, deviceBytes: int, pinnedCount: int, pinnedBytes: int)

  datatype SampleBody = SampleBody(
    pid: int, rss: int, hwm: int, fds: int, threads: int, children: seq<Child>,
    vram: int,
    active: int, waiting: int, kvBlocks: int, allocation: Allocation,
    batchShapesValid: bool,
    counters: Counters,
    dropped: bool)

  datatype RequestBody = RequestBody(
    id: string, profile: string, action: Action, stream: bool, curlExit: int,
    requestSha256: string, responseSha256: string, responseBytes: int,
    outcome: Outcome, httpStatus: int, latencyMs: real, generated: Option<string>)

  datatype RestartBody = RestartBody(
    graceful: bool, exitCode: int, elapsedMs: real, before: string, after: string)

  datatype Body =
    | RunStart
    | ScenarioStart(mode: Mode)
    | Sample(sample: SampleBody)
    | Request(request: RequestBody)
    | Restart(restart: RestartBody)
    | ScenarioEnd(status: Status)
    | FailureNote(stage: string, message: string)
    | RunEnd(status: Status)

  datatype Event = Event(
    schemaVersion: string, sequence: int, ns: int, tag: Option<ScenarioId>, binding: string, body: Body)

  function KindOf(e: Event): Kind {
    match e.body
    case RunStart => KRunStart
    case ScenarioStart(_) => KScenarioStart
    case Sample(_) => KSample
    case Request(_) => KRequest
    case Restart(_) => KRestart
    case ScenarioEnd(_) => KScenarioEnd
    case FailureNote(_, _) => KFailure
    case RunEnd(_) => KRunEnd
  }

  /** `event.get("status")`: only the two closing kinds carry one. */
  function StatusOf(e: Event): Option<Status> {
    match e.body
    case ScenarioEnd(s) => Some(s)
    case RunEnd(s) => Some(s)
    case _ => None
  }

  // ----- stateless checks ---------------------------------------------------

  predicate SampleOk(s: SampleBody, global: bool) {
    && (if global then 0 else 1) <= s.pid
    && 0 <= s.rss && 0 <= s.hwm && 0 <= s.fds && 0 <= s.threads
    && (forall c :: c in s.children ==> 1 <= c.pid && c.comm != "" && c.executable != "")
    && 0 <= s.vram && 0 <= s.active && 0 <= s.waiting && 0 <= s.kvBlocks
    && 0 <= s.allocation.deviceCount && 0 <= s.allocation.deviceBytes
    && 0 <= s.allocation.pinnedCount && 0 <= s.allocation.pinnedBytes
    && s.batchShapesValid
    && 0 <= s.counters.cancellations && 0 <= s.counters.disconnects
    && 0 <= s.counters.overloads && 0 <= s.counters.dropped
  }

  predicate ActionAllowed(kind: ScenarioKind, action: Action) {
    match kind
    case InvalidInput => action == SendInvalid
    case OverloadBurst => action == SendOverload
    case CancellationDisconnect => action == Cancel || action == Disconnect
    case _ => action == Normal
  }

  predicate Is2xx(status: int) { 200 <= status < 300 }

  predicate IsRejected4xx(status: int) { 400 <= status < 500 && status != 429 }

  /** The exact transport evidence each client action must leave behind. */
  predicate TransportOk(r: RequestBody) {
    match r.action
    case Normal =>
      !r.stream && r.curlExit == 0 && r.outcome == Success && Is2xx(r.httpStatus) && 0 < r.responseBytes
    case SendInvalid =>
      !r.stream && r.curlExit == 0 && r.outcome == Invalid && IsRejected4xx(r.httpStatus) && 0 < r.responseBytes
    case SendOverload =>
      && !r.stream && r.curlExit == 0 && (r.outcome == Success || r.outcome == Overload)
      && (Is2xx(r.httpStatus) || r.httpStatus == 429) && 0 < r.responseBytes
    case Cancel =>
      && !r.stream && r.curlExit == CurlTimeoutExitCode && r.outcome == Cancelled
      && r.httpStatus == 0 && r.responseBytes == 0 && r.responseSha256 == EmptySha256
    case Disconnect =>
      && r.stream && r.curlExit == CurlWriteErrorExitCode && r.outcome == Disconnected
      && r.httpStatus == 200 && r.responseBytes == DisconnectResponseBytes
    case OtherAction => false
  }

  predicate RequestOk(m: Manifest, sc: Scenario, r: RequestBody) {
    && r.id != ""
    && (r.profile == sc.profile || sc.secondaryProfile == Some(r.profile))
    && ActionAllowed(sc.kind, r.action)
    && r.stream == (r.action == Disconnect)
    && 0 <= r.curlExit <= 255
    && IsSha256(r.requestSha256)
    && (r.profile, r.stream) in m.requestSha256
    && r.requestSha256 == m.requestSha256[(r.profile, r.stream)]
    && IsSha256(r.responseSha256)
    && 0 <= r.responseBytes
    && (r.responseBytes == 0 ==> r.responseSha256 == EmptySha256)
    && r.outcome != OtherOutcome
    && 0 <= r.httpStatus <= 599
    && 0.0 <= r.latencyMs
    && (r.generated.Some? ==> IsSha256(r.generated.value))
    && (r.outcome == Success <==> r.generated.Some?)
    && (r.outcome == Success ==> Is2xx(r.httpStatus))
    && (r.outcome == Invalid ==> IsRejected4xx(r.httpStatus))
    && (r.outcome == Overload ==> r.httpStatus == 429)
    && (r.outcome != Faulted ==> TransportOk(r))
  }

  predicate BodyOk(m: Manifest, e: Event)
    requires e.body.Request? ==> e.tag.Some? && IsScenarioId(m, e.tag.value)
  {
    match e.body
    case Sample(s) => SampleOk(s, e.tag.None?)
    case Request(r) => RequestOk(m, m.scenarios[ScenarioIndex(m, e.tag.value)], r)
    case Restart(r) => 0 <= r.exitCode && 0.0 <= r.elapsedMs && IsSha256(r.before) && IsSha256(r.after)
    case ScenarioEnd(s) => s != OtherStatus
    case RunEnd(s) => s != OtherStatus
    case FailureNote(stage, message) => stage != "" && message != ""
    case _ => true
  }

  /** Scenario tags: present where the kind demands one, absent on run
      boundaries, and always drawn from the manifest. */
  predicate TagOk(m: Manifest, e: Event) {
    && (e.tag.Some? ==> IsScenarioId(m, e.tag.value))
    && (e.tag.None? ==> e.body.RunStart? || e.body.RunEnd? || e.body.Sample? || e.body.FailureNote?)
    && (e.body.RunStart? || e.body.RunEnd? ==> e.tag.None?)
  }

  // ----- the run protocol ---------------------------------------------------

  /** The four variables that the event loop carries from row to row. */
  datatype Machine = Machine(count: nat, active: Option<ScenarioId>, completed: nat, previousNs: int)

  const Initial := Machine(0, None, 0, -1)

  predicate HeaderOk(binding: string, st: Machine, e: Event) {
    && e.schemaVersion == EventVersion
    && e.sequence == st.count + 1
    && 0 <= e.ns
    && st.previousNs < e.ns
    && e.binding == binding
  }

  predicate AllDone(m: Manifest, st: Machine) {
    st.active.None? && st.completed == |m.scenarios|
  }

  /** Whether the run protocol admits the event in this state. */
  predicate Placed(m: Manifest, st: Machine, e: Event) {
    if e.body.RunStart? then
      st.count == 0 && st.active.None? && st.completed == 0
    else if e.body.ScenarioStart? then
      && st.active.None? && st.completed < |m.scenarios|
      && e.tag == Some(m.scenarios[st.completed].id)
    else if e.body.ScenarioEnd? then
      st.active.Some? && e.tag == st.active
    else if e.tag.Some? then
      e.tag == st.active
    else if e.body.Sample? || e.body.RunEnd? then
      AllDone(m, st)
    else
      true
  }

  predicate EventOk(m: Manifest, binding: string, st: Machine, e: Event) {
    HeaderOk(binding, st, e) && TagOk(m, e) && Placed(m, st, e) && BodyOk(m, e)
  }

  function Advance(st: Machine, e: Event): Machine {
    Machine(
      st.count + 1,
      if e.body.ScenarioStart? then e.tag else if e.body.ScenarioEnd? then None else st.active,
      if e.body.ScenarioEnd? then st.completed + 1 else st.completed,
      e.ns)
  }

  function After(rows: seq<Event>): (st: Machine)
    ensures st.count == |rows|
  {
    if rows == [] then Initial else Advance(After(DropLast(rows)), Last(rows))
  }

  /** Every row is admitted in the state left by the rows before it. */
  predicate Admitted(m: Manifest, binding: string, rows: seq<Event>) {
    rows == [] ||
    (Admitted(m, binding, DropLast(rows)) && EventOk(m, binding, After(DropLast(rows)), Last(rows)))
  }

  predicate Bracketed(rows: seq<Event>) {
    rows != [] && rows[0].body.RunStart? && Last(rows).body.RunEnd?
  }

  predicate Accepts(m: Manifest, binding: string, rows: seq<Event>) {
    Admitted(m, binding, rows) && Bracketed(rows)
  }

  lemma {:induction false} AdmittedSnoc(m: Manifest, binding: string, rows: seq<Event>, e: Event)
    ensures Admitted(m, binding, rows + [e]) <==>
            Admitted(m, binding, rows) && EventOk(m, binding, After(rows), e)
    ensures After(rows + [e]) == Advance(After(rows), e)
  {
    assert DropLast(rows + [e]) == rows && Last(rows + [e]) == e;
  }

  lemma {:induction false} AdmittedPrefix(m: Manifest, binding: string, rows: seq<Event>, n: nat)
    requires n <= |rows|
    ensures Admitted(m, binding, rows) ==> Admitted(m, binding, rows[..n])
  {
    if n == |rows| {
      assert rows[..n] == rows;
    } else {
      AdmittedPrefix(m, binding, DropLast(rows), n);
      assert DropLast(rows)[..n] == rows[..n];
    }
  }

  /** An admitted list admits each row after the rows before it. */
  lemma {:induction false} AdmittedAt(m: Manifest, binding: string, rows: seq<Event>, i: nat)
    requires Admitted(m, binding, rows) && i < |rows|
    ensures EventOk(m, binding, After(rows[..i]), rows[i])
    ensures After(rows[..i + 1]) == Advance(After(rows[..i]), rows[i])
  {
    AdmittedPrefix(m, binding, rows, i + 1);
    assert rows[..i + 1] == rows[..i] + [rows[i]];
    AdmittedSnoc(m, binding, rows[..i], rows[i]);
  }

  lemma {:induction false} PreviousNs(rows: seq<Event>)
    ensures After(rows).previousNs == if rows == [] then -1 else Last(rows).ns
  {
  }

  /** Admitted timestamps are non-negative and strictly increase. */
  lemma {:induction false} TimesIncrease(m: Manifest, binding: string, rows: seq<Event>, i: nat, j: nat)
    requires Admitted(m, binding, rows) && i < j < |rows|
    ensures 0 <= rows[i].ns < rows[j].ns
    decreases j
  {
    AdmittedAt(m, binding, rows, j);
    PreviousNs(rows[..j]);
    assert Last(rows[..j]) == rows[j - 1];
    if i < j - 1 {
      TimesIncrease(m, binding, rows, i, j - 1);
    } else {
      AdmittedAt(m, binding, rows, i);
    }
  }
}
