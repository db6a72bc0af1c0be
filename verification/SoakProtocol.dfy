/** The shape of accepted event logs, stated without the state machine: disjoint
    scenario intervals in manifest order, every tagged event inside its own. */
module SoakProtocol {
  import opened Sequences
  import opened SoakEvents

  /** Row positions of one scenario's start and end events. */
  datatype Span = Span(start: nat, end: nat)

  predicate IsStart(e: Event, id: ScenarioId) { e.body.ScenarioStart? && e.tag == Some(id) }

  predicate IsEnd(e: Event, id: ScenarioId) { e.body.ScenarioEnd? && e.tag == Some(id) }

  predicate IsSpan(m: Manifest, rows: seq<Event>, span: Span, k: nat)
    requires k < |m.scenarios|
  {
    && span.start < span.end < |rows|
    && IsStart(rows[span.start], m.scenarios[k].id) && IsEnd(rows[span.end], m.scenarios[k].id)
  }

  /** Row `i` belongs to the scenario of `span`, and is a boundary only there. */
  predicate Inside(rows: seq<Event>, span: Span, id: ScenarioId, i: nat)
    requires i < |rows|
  {
    && span.start <= i <= span.end && rows[i].tag == Some(id)
    && (rows[i].body.ScenarioStart? <==> i == span.start)
    && (rows[i].body.ScenarioEnd? <==> i == span.end)
  }

  /** Events that may only follow the last scenario. */
  predicate Trailing(e: Event) { e.body.RunEnd? || (e.body.Sample? && e.tag.None?) }

  predicate Disjoint(spans: seq<Span>) {
    forall j, k :: 0 <= j < k < |spans| ==> spans[j].end < spans[k].start
  }

  predicate AllSpans(m: Manifest, rows: seq<Event>, spans: seq<Span>)
    requires |spans| <= |m.scenarios|
  {
    forall k :: 0 <= k < |spans| ==> IsSpan(m, rows, spans[k], k)
  }

  predicate Owned(m: Manifest, rows: seq<Event>, spans: seq<Span>, i: nat)
    requires i < |rows| && |spans| <= |m.scenarios|
  {
    exists k :: 0 <= k < |spans| && Inside(rows, spans[k], m.scenarios[k].id, i)
  }

  predicate IsLayout(m: Manifest, rows: seq<Event>, spans: seq<Span>) {
    && |spans| == |m.scenarios|
    && AllSpans(m, rows, spans)
    && Disjoint(spans)
    && (forall i :: 0 <= i < |rows| && rows[i].tag.Some? ==> Owned(m, rows, spans, i))
    && (forall i, k :: 0 <= i < |rows| && 0 <= k < |spans| && Trailing(rows[i]) ==> spans[k].end < i)
    && (forall i :: 0 < i < |rows| ==> !rows[i].body.RunStart?)
  }

  /** What each row satisfies by itself or against its neighbour. */
  predicate RowOk(m: Manifest, binding: string, rows: seq<Event>, i: nat)
    requires i < |rows|
  {
    && rows[i].schemaVersion == EventVersion && rows[i].sequence == i + 1 && rows[i].binding == binding
    && 0 <= rows[i].ns && (0 < i ==> rows[i - 1].ns < rows[i].ns)
    && TagOk(m, rows[i]) && BodyOk(m, rows[i])
  }

  predicate RowsOk(m: Manifest, binding: string, rows: seq<Event>) {
    forall i :: 0 <= i < |rows| ==> RowOk(m, binding, rows, i)
  }

  // ----- accepted logs have a layout ----------------------------------------

  /** A layout of the scenarios finished so far, with at most one still open. */
  predicate Partial(m: Manifest, rows: seq<Event>, spans: seq<Span>, open: Option<nat>) {
    && |spans| <= |m.scenarios| && AllSpans(m, rows, spans) && Disjoint(spans)
    && (open.Some? ==>
          && |spans| < |m.scenarios| && open.value < |rows|
          && IsStart(rows[open.value], m.scenarios[|spans|].id)
          && forall k :: 0 <= k < |spans| ==> spans[k].end < open.value)
    && (forall i :: 0 <= i < |rows| && rows[i].tag.Some? ==>
          || Owned(m, rows, spans, i)
          || (open.Some? && InOpen(rows, open.value, m.scenarios[|spans|].id, i)))
    && (forall i :: 0 <= i < |rows| && Trailing(rows[i]) ==>
          |spans| == |m.scenarios| && open.None? && forall k :: 0 <= k < |spans| ==> spans[k].end < i)
    && (forall i :: 0 < i < |rows| ==> !rows[i].body.RunStart?)
  }

  predicate InOpen(rows: seq<Event>, open: nat, id: ScenarioId, i: nat)
    requires i < |rows|
  {
    && open <= i && rows[i].tag == Some(id) && !rows[i].body.ScenarioEnd?
    && (rows[i].body.ScenarioStart? <==> i == open)
  }

  predicate Tracks(m: Manifest, st: Machine, spans: seq<Span>, open: Option<nat>) {
    && st.completed == |spans|
    && (open.Some? ==> |spans| < |m.scenarios|)
    && st.active == if open.Some? then Some(m.scenarios[|spans|].id) else None
  }

  function NextOpen(rows: seq<Event>, open: Option<nat>, e: Event): Option<nat> {
    if e.body.ScenarioStart? then Some(|rows|) else if e.body.ScenarioEnd? then None else open
  }

  lemma {:induction false} SpansSurvive(m: Manifest, rows: seq<Event>, spans: seq<Span>, e: Event)
    requires |spans| <= |m.scenarios| && AllSpans(m, rows, spans)
    ensures AllSpans(m, rows + [e], spans)
  {
  }

  lemma {:induction false} OwnedSurvives(
      m: Manifest, rows: seq<Event>, spans: seq<Span>, e: Event, more: seq<Span>, i: nat)
    requires |spans + more| <= |m.scenarios| && i < |rows| && Owned(m, rows, spans, i)
    ensures Owned(m, rows + [e], spans + more, i)
  {
  }

  lemma {:induction false} OpenSurvives(rows: seq<Event>, open: nat, id: ScenarioId, e: Event, i: nat)
    requires i < |rows| && InOpen(rows, open, id, i)
    ensures InOpen(rows + [e], open, id, i)
  {
  }

  /** One admitted event that closes no scenario keeps the partial layout. */
  lemma {:induction false} PartialStep(
      m: Manifest, st: Machine, rows: seq<Event>, spans: seq<Span>, open: Option<nat>, e: Event)
    requires Partial(m, rows, spans, open) && Tracks(m, st, spans, open) && st.count == |rows|
    requires TagOk(m, e) && Placed(m, st, e) && !e.body.ScenarioEnd?
    ensures Partial(m, rows + [e], spans, NextOpen(rows, open, e))
  {
    var all, next := rows + [e], NextOpen(rows, open, e);
    SpansSurvive(m, rows, spans, e);
    assert spans + [] == spans;
    forall i | 0 <= i < |all| && all[i].tag.Some?
      ensures || Owned(m, all, spans, i)
              || (next.Some? && InOpen(all, next.value, m.scenarios[|spans|].id, i))
    {
      if i < |rows| {
        assert rows[i] == all[i];
        if Owned(m, rows, spans, i) {
          OwnedSurvives(m, rows, spans, e, [], i);
        } else {
          OpenSurvives(rows, open.value, m.scenarios[|spans|].id, e, i);
        }
      }
    }
    forall i | 0 <= i < |all| && Trailing(all[i])
      ensures |spans| == |m.scenarios| && next.None? && forall k :: 0 <= k < |spans| ==> spans[k].end < i
    {
      if i < |rows| { assert rows[i] == all[i]; }
    }
    assert forall i :: 0 <= i < |rows| ==> all[i] == rows[i];
  }

  lemma {:induction false} CloseOwns(m: Manifest, rows: seq<Event>, spans: seq<Span>, open: nat, e: Event, i: nat)
    requires |spans| < |m.scenarios| && e.body.ScenarioEnd? && e.tag == Some(m.scenarios[|spans|].id)
    requires open < |rows| && i < |rows + [e]|
    requires i < |rows| ==> Owned(m, rows, spans, i) || InOpen(rows, open, m.scenarios[|spans|].id, i)
    ensures Owned(m, rows + [e], spans + [Span(open, |rows|)], i)
  {
  }

  lemma {:induction false} CloseSpans(m: Manifest, rows: seq<Event>, spans: seq<Span>, open: nat, e: Event)
    requires |spans| < |m.scenarios| && AllSpans(m, rows, spans) && Disjoint(spans)
    requires open < |rows| && IsStart(rows[open], m.scenarios[|spans|].id)
    requires IsEnd(e, m.scenarios[|spans|].id) && forall k :: 0 <= k < |spans| ==> spans[k].end < open
    ensures AllSpans(m, rows + [e], spans + [Span(open, |rows|)]) && Disjoint(spans + [Span(open, |rows|)])
  {
  }

  /** An admitted end event turns the open scenario into a finished span. */
  lemma {:induction false} PartialClose(m: Manifest, rows: seq<Event>, spans: seq<Span>, open: nat, e: Event)
    requires Partial(m, rows, spans, Some(open)) && IsEnd(e, m.scenarios[|spans|].id)
    ensures Partial(m, rows + [e], spans + [Span(open, |rows|)], None)
  {
    var all, more := rows + [e], spans + [Span(open, |rows|)];
    CloseSpans(m, rows, spans, open, e);
    forall i | 0 <= i < |all| && all[i].tag.Some? ensures Owned(m, all, more, i) {
      if i < |rows| { assert rows[i] == all[i]; }
      CloseOwns(m, rows, spans, open, e, i);
    }
    assert forall i :: 0 <= i < |rows| ==> all[i] == rows[i];
  }

  lemma {:induction false} PartialExists(m: Manifest, binding: string, rows: seq<Event>)
    returns (spans: seq<Span>, open: Option<nat>)
    requires Admitted(m, binding, rows)
    ensures Partial(m, rows, spans, open) && Tracks(m, After(rows), spans, open)
  {
    if rows == [] {
      spans, open := [], None;
    } else {
      var init, e := DropLast(rows), Last(rows);
      assert rows == init + [e];
      spans, open := PartialExists(m, binding, init);
      if e.body.ScenarioEnd? {
        PartialClose(m, init, spans, open.value, e);
        spans, open := spans + [Span(open.value, |init|)], None;
      } else {
        PartialStep(m, After(init), init, spans, open, e);
        open := NextOpen(init, open, e);
      }
    }
  }

  lemma {:induction false} AdmittedRowsOk(m: Manifest, binding: string, rows: seq<Event>)
    requires Admitted(m, binding, rows)
    ensures RowsOk(m, binding, rows)
  {
    forall i | 0 <= i < |rows| ensures RowOk(m, binding, rows, i) {
      AdmittedAt(m, binding, rows, i);
      PreviousNs(rows[..i]);
      if 0 < i { assert Last(rows[..i]) == rows[i - 1]; }
    }
  }

  lemma {:induction false} AcceptedHasLayout(m: Manifest, binding: string, rows: seq<Event>) returns (spans: seq<Span>)
    requires Accepts(m, binding, rows)
    ensures RowsOk(m, binding, rows) && IsLayout(m, rows, spans)
  {
    AdmittedRowsOk(m, binding, rows);
    var open;
    spans, open := PartialExists(m, binding, rows);
    assert Trailing(rows[|rows| - 1]);
  }

  // ----- a layout makes the state machine accept ----------------------------

  /** The machine state that a layout dictates before row `i`, where `c` spans
      have ended. */
  predicate Dictated(m: Manifest, spans: seq<Span>, st: Machine, i: nat, c: nat)
    requires |spans| == |m.scenarios|
  {
    && c <= |spans| && st.completed == c
    && (forall j :: 0 <= j < c ==> spans[j].end < i)
    && (c < |spans| ==> i <= spans[c].end)
    && st.active == if c < |spans| && spans[c].start < i then Some(m.scenarios[c].id) else None
  }

  /** A tagged row belongs to the first span that has not ended. */
  lemma {:induction false} OwnerIsCurrent(m: Manifest, rows: seq<Event>, spans: seq<Span>, i: nat, c: nat)
    requires |spans| == |m.scenarios| && Disjoint(spans) && i < |rows| && Owned(m, rows, spans, i)
    requires c <= |spans| && (forall j :: 0 <= j < c ==> spans[j].end < i) && (c < |spans| ==> i <= spans[c].end)
    ensures c < |spans| && Inside(rows, spans[c], m.scenarios[c].id, i)
  {
  }

  lemma {:induction false} DictatedStep(m: Manifest, rows: seq<Event>, spans: seq<Span>, st: Machine, i: nat, c: nat)
    requires |spans| == |m.scenarios| && AllSpans(m, rows, spans) && Disjoint(spans) && i < |rows|
    requires Dictated(m, spans, st, i, c) && TagOk(m, rows[i])
    requires rows[i].tag.Some? ==> c < |spans| && Inside(rows, spans[c], m.scenarios[c].id, i)
    ensures Dictated(m, spans, Advance(st, rows[i]), i + 1, if rows[i].body.ScenarioEnd? then c + 1 else c)
  {
  }

  lemma {:induction false} DictatedPlaces(m: Manifest, rows: seq<Event>, spans: seq<Span>, st: Machine, i: nat, c: nat)
    requires |spans| == |m.scenarios| && AllSpans(m, rows, spans) && i < |rows|
    requires Dictated(m, spans, st, i, c) && TagOk(m, rows[i])
    requires rows[i].tag.Some? ==> c < |spans| && Inside(rows, spans[c], m.scenarios[c].id, i)
    requires Trailing(rows[i]) ==> forall k :: 0 <= k < |spans| ==> spans[k].end < i
    requires rows[i].body.RunStart? ==> i == 0
    requires st.count == i && (i == 0 ==> st == Initial)
    ensures Placed(m, st, rows[i])
  {
  }

  lemma {:induction false} RowAdmitted(
      m: Manifest, binding: string, rows: seq<Event>, spans: seq<Span>, st: Machine, i: nat, c: nat)
    requires IsLayout(m, rows, spans) && i < |rows| && RowOk(m, binding, rows, i)
    requires Dictated(m, spans, st, i, c) && st.count == i
    requires if i == 0 then st == Initial else st.previousNs == rows[i - 1].ns
    ensures EventOk(m, binding, st, rows[i])
    ensures Dictated(m, spans, Advance(st, rows[i]), i + 1, if rows[i].body.ScenarioEnd? then c + 1 else c)
  {
    if rows[i].tag.Some? { OwnerIsCurrent(m, rows, spans, i, c); }
    DictatedPlaces(m, rows, spans, st, i, c);
    DictatedStep(m, rows, spans, st, i, c);
  }

  lemma {:induction false} StateBefore(rows: seq<Event>, i: nat)
    requires i < |rows|
    ensures var st := After(rows[..i]); st.count == i && if i == 0 then st == Initial else st.previousNs == rows[i - 1].ns
  {
    PreviousNs(rows[..i]);
    if 0 < i { assert Last(rows[..i]) == rows[i - 1]; }
  }

  lemma {:induction false} AdmitNext(
      m: Manifest, binding: string, rows: seq<Event>, spans: seq<Span>, i: nat, c: nat)
      returns (d: nat)
    requires IsLayout(m, rows, spans) && i < |rows| && RowOk(m, binding, rows, i)
    requires Admitted(m, binding, rows[..i]) && Dictated(m, spans, After(rows[..i]), i, c)
    ensures Admitted(m, binding, rows[..i + 1]) && Dictated(m, spans, After(rows[..i + 1]), i + 1, d)
  {
    var before := rows[..i];
    StateBefore(rows, i);
    RowAdmitted(m, binding, rows, spans, After(before), i, c);
    assert rows[..i + 1] == before + [rows[i]];
    AdmittedSnoc(m, binding, before, rows[i]);
    d := if rows[i].body.ScenarioEnd? then c + 1 else c;
  }

  lemma {:induction false} LayoutAdmits(m: Manifest, binding: string, rows: seq<Event>, spans: seq<Span>, i: nat)
    returns (c: nat)
    requires RowsOk(m, binding, rows) && IsLayout(m, rows, spans) && i <= |rows|
    ensures Admitted(m, binding, rows[..i]) && Dictated(m, spans, After(rows[..i]), i, c)
  {
    if i == 0 {
      c := 0;
    } else {
      c := LayoutAdmits(m, binding, rows, spans, i - 1);
      c := AdmitNext(m, binding, rows, spans, i - 1, c);
    }
  }

  /** The event loop accepts exactly the logs whose rows are well formed, that are
      bracketed by the run events, and whose scenarios form one disjoint,
      manifest-ordered layout. */
  lemma {:induction false} AcceptsIffLaidOut(m: Manifest, binding: string, rows: seq<Event>)
    ensures Accepts(m, binding, rows) <==>
            RowsOk(m, binding, rows) && Bracketed(rows) && exists spans :: IsLayout(m, rows, spans)
  {
    if Accepts(m, binding, rows) {
      var spans := AcceptedHasLayout(m, binding, rows);
    }
    if RowsOk(m, binding, rows) && Bracketed(rows) && exists spans :: IsLayout(m, rows, spans) {
      var spans :| IsLayout(m, rows, spans);
      var c := LayoutAdmits(m, binding, rows, spans, |rows|);
      assert rows[..|rows|] == rows;
    }
  }

  /** The layout of a log is unique. */
  lemma {:induction false} LayoutUnique(m: Manifest, rows: seq<Event>, one: seq<Span>, two: seq<Span>)
    requires ValidManifest(m) && IsLayout(m, rows, one) && IsLayout(m, rows, two)
    ensures one == two
  {
    forall k | 0 <= k < |one| ensures one[k] == two[k] {
      assert IsSpan(m, rows, one[k], k);
      OwnBoundary(m, rows, two, k, one[k].start);
      OwnBoundary(m, rows, two, k, one[k].end);
    }
  }

  /** Every boundary event of a scenario is the one its span names. */
  lemma {:induction false} OwnBoundary(m: Manifest, rows: seq<Event>, spans: seq<Span>, k: nat, i: nat)
    requires ValidManifest(m) && IsLayout(m, rows, spans) && k < |spans| && i < |rows|
    ensures IsStart(rows[i], m.scenarios[k].id) ==> i == spans[k].start
    ensures IsEnd(rows[i], m.scenarios[k].id) ==> i == spans[k].end
  {
    if rows[i].tag == Some(m.scenarios[k].id) {
      assert Owned(m, rows, spans, i);
      var j :| 0 <= j < |spans| && Inside(rows, spans[j], m.scenarios[j].id, i);
      assert j == k;
    }
  }

  // ----- every manifest can be run --------------------------------------------

  /** An event at position `i` with its sequence number and a time to match. */
  function At(i: nat, tag: Option<ScenarioId>, binding: string, body: Body): Event {
    Event(EventVersion, i + 1, i, tag, binding, body)
  }

  /** The run start and the boundary events of the first `k` scenarios. */
  function BareRun(m: Manifest, binding: string, k: nat): (rows: seq<Event>)
    requires k <= |m.scenarios|
    ensures |rows| == 2 * k + 1 && rows[0].body.RunStart?
  {
    if k == 0 then [At(0, None, binding, RunStart)]
    else
      var sc := m.scenarios[k - 1];
      BareRun(m, binding, k - 1)
      + [At(2 * k - 1, Some(sc.id), binding, ScenarioStart(sc.mode))]
      + [At(2 * k, Some(sc.id), binding, ScenarioEnd(Succeeded))]
  }

  lemma {:induction false} StartOk(m: Manifest, binding: string, k: nat)
    requires k < |m.scenarios|
    ensures var sc := m.scenarios[k];
            EventOk(m, binding, Machine(2 * k + 1, None, k, 2 * k),
                    At(2 * k + 1, Some(sc.id), binding, ScenarioStart(sc.mode)))
  {
    assert IsScenarioId(m, m.scenarios[k].id);
  }

  lemma {:induction false} EndOk(m: Manifest, binding: string, k: nat)
    requires k < |m.scenarios|
    ensures var id := Some(m.scenarios[k].id);
            EventOk(m, binding, Machine(2 * k + 2, id, k, 2 * k + 1), At(2 * k + 2, id, binding, ScenarioEnd(Succeeded)))
  {
    assert IsScenarioId(m, m.scenarios[k].id);
  }

  lemma {:induction false} PairAdmitted(
      m: Manifest, binding: string, before: seq<Event>, k: nat, start: Event, end: Event)
    requires Admitted(m, binding, before) && After(before) == Machine(2 * k + 1, None, k, 2 * k) && k < |m.scenarios|
    requires start == At(2 * k + 1, Some(m.scenarios[k].id), binding, ScenarioStart(m.scenarios[k].mode))
    requires end == At(2 * k + 2, Some(m.scenarios[k].id), binding, ScenarioEnd(Succeeded))
    ensures Admitted(m, binding, before + [start] + [end])
    ensures After(before + [start] + [end]) == Machine(2 * k + 3, None, k + 1, 2 * k + 2)
  {
    StartOk(m, binding, k);
    AdmittedSnoc(m, binding, before, start);
    EndOk(m, binding, k);
    AdmittedSnoc(m, binding, before + [start], end);
  }

  lemma {:induction false} BareRunAdmitted(m: Manifest, binding: string, k: nat)
    requires k <= |m.scenarios|
    ensures Admitted(m, binding, BareRun(m, binding, k))
    ensures After(BareRun(m, binding, k)) == Machine(2 * k + 1, None, k, 2 * k)
  {
    if k == 0 {
      AdmittedSnoc(m, binding, [], At(0, None, binding, RunStart));
      assert [] + [At(0, None, binding, RunStart)] == BareRun(m, binding, 0);
    } else {
      BareRunAdmitted(m, binding, k - 1);
      var sc := m.scenarios[k - 1];
      PairAdmitted(m, binding, BareRun(m, binding, k - 1), k - 1,
                   At(2 * k - 1, Some(sc.id), binding, ScenarioStart(sc.mode)),
                   At(2 * k, Some(sc.id), binding, ScenarioEnd(Succeeded)));
    }
  }

  /** Every manifest has an accepted log. */
  lemma {:induction false} EveryManifestHasALog(m: Manifest, binding: string) returns (rows: seq<Event>)
    ensures Accepts(m, binding, rows)
  {
    var n := |m.scenarios|;
    var end := At(2 * n + 1, None, binding, RunEnd(Succeeded));
    BareRunAdmitted(m, binding, n);
    AdmittedSnoc(m, binding, BareRun(m, binding, n), end);
    rows := BareRun(m, binding, n) + [end];
    assert Last(rows) == end;
  }
}
