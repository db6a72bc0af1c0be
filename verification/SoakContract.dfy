/** The soak event contract read the other way round: what each outcome proves of its
    request, and what each kind of row carries. */
module SoakContract {
  import opened Sequences
  import opened SoakEvents
  import opened SoakProtocol

  predicate HexDigest(text: string) {
    |text| == 64 && forall i :: 0 <= i < |text| ==> text[i] in "0123456789abcdef"
  }

  lemma {:induction false} DigestIff(text: string)
    ensures IsSha256(text) <==> HexDigest(text)
  {
    forall i | 0 <= i < |text|
      ensures text[i] in text
      ensures ('0' <= text[i] <= '9' || 'a' <= text[i] <= 'f') <==> text[i] in "0123456789abcdef"
    {
    }
    if HexDigest(text) {
      forall c | c in text ensures '0' <= c <= '9' || 'a' <= c <= 'f' { var i :| 0 <= i < |text| && text[i] == c; }
    }
  }

  predicate Special(kind: ScenarioKind) { kind == InvalidInput || kind == OverloadBurst || kind == CancellationDisconnect }

  /** What every request event carries, whatever came of it. */
  predicate Wellformed(m: Manifest, sc: Scenario, r: RequestBody) {
    && |r.id| > 0 && (r.profile == sc.profile || (sc.secondaryProfile.Some? && r.profile == sc.secondaryProfile.value))
    && (r.profile, r.stream) in m.requestSha256 && m.requestSha256[(r.profile, r.stream)] == r.requestSha256
    && HexDigest(r.requestSha256) && HexDigest(r.responseSha256)
    && 0 <= r.curlExit < 256 && 0 <= r.httpStatus < 600 && 0 <= r.responseBytes && 0.0 <= r.latencyMs
    && (r.responseBytes == 0 ==> r.responseSha256 == EmptySha256)
  }

  /** The action the client took, the transport's answer and the generated text that
      each outcome proves. Nothing proves a timeout. */
  predicate Evidence(sc: Scenario, r: RequestBody) {
    match r.outcome
    case Success =>
      && r.action == (if sc.kind == OverloadBurst then SendOverload else Normal)
      && sc.kind != InvalidInput && sc.kind != CancellationDisconnect
      && !r.stream && r.curlExit == 0 && 200 <= r.httpStatus <= 299 && 0 < r.responseBytes
      && r.generated.Some? && HexDigest(r.generated.value)
    case Invalid =>
      && sc.kind == InvalidInput && r.action == SendInvalid && !r.stream && r.curlExit == 0 && r.generated.None?
      && 400 <= r.httpStatus <= 499 && r.httpStatus != 429 && 0 < r.responseBytes
    case Overload =>
      && sc.kind == OverloadBurst && r.action == SendOverload && !r.stream && r.curlExit == 0 && r.generated.None?
      && r.httpStatus == 429 && 0 < r.responseBytes
    case Cancelled =>
      && sc.kind == CancellationDisconnect && r.action == Cancel && !r.stream && r.curlExit == 28 && r.generated.None?
      && r.httpStatus == 0 && r.responseBytes == 0
    case Disconnected =>
      && sc.kind == CancellationDisconnect && r.action == Disconnect && r.stream && r.curlExit == 23
      && r.generated.None? && r.httpStatus == 200 && r.responseBytes == 1024
    case Faulted =>
      && r.generated.None? && (r.stream <==> r.action == Disconnect)
      && (sc.kind == InvalidInput ==> r.action == SendInvalid)
      && (sc.kind == OverloadBurst ==> r.action == SendOverload)
      && (sc.kind == CancellationDisconnect ==> r.action == Cancel || r.action == Disconnect)
      && (!Special(sc.kind) ==> r.action == Normal)
    case _ => false
  }

  /** Requests are admitted exactly with the evidence of their outcome. */
  lemma {:induction false} RequestOkIff(m: Manifest, sc: Scenario, r: RequestBody)
    ensures RequestOk(m, sc, r) <==> Wellformed(m, sc, r) && Evidence(sc, r)
  {
    DigestIff(r.requestSha256);
    DigestIff(r.responseSha256);
    if r.generated.Some? { DigestIff(r.generated.value); }
  }

  predicate Named(m: Manifest, e: Event, k: nat) { k < |m.scenarios| && e.tag == Some(m.scenarios[k].id) }

  ghost predicate OfManifest(m: Manifest, e: Event) { exists k: nat :: Named(m, e, k) }

  predicate Measured(s: SampleBody) {
    && 0 <= s.rss && 0 <= s.hwm && 0 <= s.vram && 0 <= s.fds && 0 <= s.threads
    && 0 <= s.active && 0 <= s.waiting && 0 <= s.kvBlocks && s.batchShapesValid
    && (forall i :: 0 <= i < |s.children| ==> 1 <= s.children[i].pid && |s.children[i].comm| > 0 && |s.children[i].executable| > 0)
    && 0 <= s.allocation.deviceBytes && 0 <= s.allocation.deviceCount
    && 0 <= s.allocation.pinnedBytes && 0 <= s.allocation.pinnedCount
    && 0 <= s.counters.dropped && 0 <= s.counters.overloads
    && 0 <= s.counters.disconnects && 0 <= s.counters.cancellations
  }

  /** What a row carries, kind by kind. */
  ghost predicate Carries(m: Manifest, e: Event) {
    match e.body
    case RunStart => e.tag == None
    case RunEnd(status) => e.tag == None && (status == Succeeded || status == Failed)
    case ScenarioStart(_) => OfManifest(m, e)
    case ScenarioEnd(status) => OfManifest(m, e) && (status == Succeeded || status == Failed)
    case Sample(s) => if e.tag == None then 0 <= s.pid && Measured(s) else OfManifest(m, e) && 0 < s.pid && Measured(s)
    case Request(r) => exists k: nat :: Named(m, e, k) && Wellformed(m, m.scenarios[k], r) && Evidence(m.scenarios[k], r)
    case Restart(r) =>
      OfManifest(m, e) && 0 <= r.exitCode && 0.0 <= r.elapsedMs && HexDigest(r.before) && HexDigest(r.after)
    case FailureNote(stage, message) => (e.tag == None || OfManifest(m, e)) && |stage| > 0 && |message| > 0
  }

  lemma {:induction false} NamedIff(m: Manifest, e: Event)
    ensures OfManifest(m, e) <==> e.tag.Some? && IsScenarioId(m, e.tag.value)
  {
    if k: nat :| Named(m, e, k) { assert m.scenarios[k].id == e.tag.value; }
    if e.tag.Some? && IsScenarioId(m, e.tag.value) {
      var i :| 0 <= i < |m.scenarios| && m.scenarios[i].id == e.tag.value;
      assert Named(m, e, i);
    }
  }

  lemma {:induction false} MeasuredIff(s: SampleBody, global: bool)
    ensures SampleOk(s, global) <==> Measured(s) && if global then 0 <= s.pid else 0 < s.pid
  {
    assert (forall c :: c in s.children ==> 1 <= c.pid && c.comm != "" && c.executable != "") <==>
           forall i :: 0 <= i < |s.children| ==>
             1 <= s.children[i].pid && |s.children[i].comm| > 0 && |s.children[i].executable| > 0 by {
      if forall i :: 0 <= i < |s.children| ==>
           1 <= s.children[i].pid && |s.children[i].comm| > 0 && |s.children[i].executable| > 0 {
        forall c | c in s.children ensures 1 <= c.pid && c.comm != "" && c.executable != "" {
          var i :| 0 <= i < |s.children| && s.children[i] == c;
        }
      }
    }
  }

  lemma {:induction false} RequestCarries(m: Manifest, e: Event)
    requires ValidManifest(m) && e.body.Request?
    ensures Carries(m, e) <==> TagOk(m, e) && BodyOk(m, e)
  {
    NamedIff(m, e);
    if e.tag.Some? && IsScenarioId(m, e.tag.value) {
      var i := ScenarioIndex(m, e.tag.value);
      assert Named(m, e, i);
      RequestOkIff(m, m.scenarios[i], e.body.request);
      forall k: nat | Named(m, e, k) ensures k == i { assert !(k < i) && !(i < k); }
    }
  }

  lemma {:induction false} CarriesIff(m: Manifest, e: Event)
    requires ValidManifest(m)
    ensures Carries(m, e) <==> TagOk(m, e) && BodyOk(m, e)
  {
    NamedIff(m, e);
    if e.body.Request? {
      RequestCarries(m, e);
    } else if e.body.Sample? {
      MeasuredIff(e.body.sample, e.tag.None?);
    } else if e.body.Restart? {
      DigestIff(e.body.restart.before);
      DigestIff(e.body.restart.after);
    }
  }

  /** The rows are numbered from one, bound to the run, strictly later than the one
      before, and each carries what its kind demands. */
  ghost predicate RowsWritten(m: Manifest, binding: string, rows: seq<Event>) {
    && (forall i :: 0 <= i < |rows| ==>
          && rows[i].schemaVersion == "riley.reliability-soak-event.v1" && rows[i].sequence == i + 1
          && rows[i].binding == binding && Carries(m, rows[i]))
    && (rows != [] ==> 0 <= rows[0].ns) && forall i :: 0 < i < |rows| ==> rows[i - 1].ns < rows[i].ns
  }

  lemma {:induction false} TimesFromZero(rows: seq<Event>, i: nat)
    requires i < |rows|
    requires 0 <= rows[0].ns && forall j :: 0 < j < |rows| ==> rows[j - 1].ns < rows[j].ns
    ensures 0 <= rows[i].ns
  {
    if i > 0 { TimesFromZero(rows, i - 1); }
  }

  /** The event loop accepts exactly such rows, bracketed and laid out in disjoint
      spans in manifest order. */
  lemma {:induction false} AcceptsIffWritten(m: Manifest, binding: string, rows: seq<Event>)
    requires ValidManifest(m)
    ensures Accepts(m, binding, rows) <==>
            && RowsWritten(m, binding, rows) && rows != []
            && rows[0].body.RunStart? && rows[|rows| - 1].body.RunEnd?
            && exists spans :: IsLayout(m, rows, spans)
  {
    AcceptsIffLaidOut(m, binding, rows);
    RowsWrittenIff(m, binding, rows);
  }

  lemma {:induction false} RowsWrittenIff(m: Manifest, binding: string, rows: seq<Event>)
    requires ValidManifest(m)
    ensures RowsOk(m, binding, rows) <==> RowsWritten(m, binding, rows)
  {
    forall i | 0 <= i < |rows| ensures Carries(m, rows[i]) <==> TagOk(m, rows[i]) && BodyOk(m, rows[i]) {
      CarriesIff(m, rows[i]);
    }
    if RowsWritten(m, binding, rows) {
      forall i | 0 <= i < |rows| ensures RowOk(m, binding, rows, i) { TimesFromZero(rows, i); }
    }
    if RowsOk(m, binding, rows) {
      forall i | 0 <= i < |rows|
        ensures && rows[i].schemaVersion == EventVersion && rows[i].sequence == i + 1
                && rows[i].binding == binding && Carries(m, rows[i])
      {
        assert RowOk(m, binding, rows, i);
      }
      forall i | 0 < i < |rows| ensures rows[i - 1].ns < rows[i].ns { assert RowOk(m, binding, rows, i); }
      if rows != [] { assert RowOk(m, binding, rows, 0); }
    }
  }
}
