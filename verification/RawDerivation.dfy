/** Deriving the candidate's release fields from five raw runs: once from the full
    payloads, once from the facts that the streaming replay retains per receipt. */
module RawDerivation {
  import opened Lists
  import opened Sequences
  import opened Sorting
  import opened Quantile

  type Source(==, !new)
  type Environment(==, !new)
  type Facts(==, !new)
  type RunId(==, !new)
  type Digest(==, !new)
  type Identity(==, !new)

  datatype Workload = Workload(concurrency: nat, iterations: nat, other: Facts)

  datatype Request = Request(index: int, identity: Identity, ttft: real, tpot: real, e2e: real)

  /** One raw run; `fieldsOk` stands for the checks on its single fields. */
  datatype Run = Run(
    fieldsOk: bool, candidate: bool, pair: int, id: RunId,
    source: Source, environment: Environment, workload: Workload,
    requests: seq<Request>, throughput: real, failures: nat, dropped: nat)

  datatype Payload = Payload(run: Run, digest: Digest)

  /** The identity of one request, with the index it is sorted by. */
  datatype IdentityRow = IdentityRow(index: int, identity: Identity)

  datatype RawRun = RawRun(pair: int, id: RunId, digest: Digest)

  datatype Derived = Derived(
    source: Source, environment: Environment, workload: Workload, identity: seq<IdentityRow>,
    failures: nat, dropped: nat, ttft: real, tpot: real, e2e: real, throughput: real, rawRuns: seq<RawRun>)

  // ----- one run -----------------------------------------------------------------------

  predicate ByIndex(a: Request, b: Request) { a.index <= b.index }

  function IndexOf(r: Request): int { r.index }

  function IdentityOf(r: Request): IdentityRow { IdentityRow(r.index, r.identity) }

  /** `_validate_run`, with its request-index rule, and the role. */
  predicate RunOk(run: Run) {
    && run.fieldsOk && run.candidate
    && |run.requests| == run.workload.concurrency * run.workload.iterations
    && Sort(Ascending, Mapped(IndexOf, run.requests)) == Range(|run.requests|)
  }

  /** `_request_identity`. */
  function IdentityRows(run: Run): seq<IdentityRow> {
    Mapped(IdentityOf, Sort(ByIndex, run.requests))
  }

  // ----- assembling the fields ---------------------------------------------------------

  predicate AllEqual<T(==)>(s: seq<T>) {
    forall i :: 0 < i < |s| ==> s[i] == s[0]
  }

  function Sum(s: seq<nat>): nat {
    if s == [] then 0 else s[0] + Sum(s[1..])
  }

  /** What both derivations hand to the common fields, run by run in pair order. */
  datatype Columns = Columns(
    sources: seq<Source>, environments: seq<Environment>, workloads: seq<Workload>,
    identities: seq<seq<IdentityRow>>, ttft: seq<real>, tpot: seq<real>, e2e: seq<real>,
    throughputs: seq<real>, failures: seq<nat>, dropped: seq<nat>, rawRuns: seq<RawRun>)

  function Assemble(c: Columns): Option<Derived> {
    if c.sources == [] || c.environments == [] || c.workloads == [] || c.identities == [] then None
    else if !AllEqual(c.sources) || !AllEqual(c.environments) || !AllEqual(c.workloads) || !AllEqual(c.identities)
    then None
    else
      var ttft, tpot, e2e := R7(c.ttft, 0.95), R7(c.tpot, 0.95), R7(c.e2e, 0.5);
      var throughput := R7(c.throughputs, 0.5);
      if ttft.None? || tpot.None? || e2e.None? || throughput.None? then None
      else Some(Derived(c.sources[0], c.environments[0], c.workloads[0], c.identities[0],
                        Sum(c.failures), Sum(c.dropped),
                        ttft.value, tpot.value, e2e.value, throughput.value, c.rawRuns))
  }

  /** Pair indices 1 to 5. */
  const Pairs: seq<int> := seq(5, i => i + 1)

  function Distinct<T>(s: seq<T>): set<T> { set x | x in s }

  // ----- from the full payloads --------------------------------------------------------

  predicate ByPair(a: Payload, b: Payload) { a.run.pair <= b.run.pair }

  function PairOf(p: Payload): int { p.run.pair }

  function IdOf(p: Payload): RunId { p.run.id }

  predicate AllOk(payloads: seq<Payload>) {
    forall i :: 0 <= i < |payloads| ==> RunOk(payloads[i].run)
  }

  function FullColumns(loaded: seq<Payload>): Columns {
    var rows := Flatten(Mapped(RequestsOf, loaded));
    Columns(
      Mapped((p: Payload) => p.run.source, loaded),
      Mapped((p: Payload) => p.run.environment, loaded),
      Mapped((p: Payload) => p.run.workload, loaded),
      Mapped((p: Payload) => IdentityRows(p.run), loaded),
      Mapped(Ttft, rows), Mapped(Tpot, rows), Mapped(E2e, rows),
      Mapped((p: Payload) => p.run.throughput, loaded),
      Mapped((p: Payload) => p.run.failures, loaded),
      Mapped((p: Payload) => p.run.dropped, loaded),
      Mapped((p: Payload) => RawRun(p.run.pair, p.run.id, p.digest), loaded))
  }

  function Ttft(r: Request): real { r.ttft }
  function Tpot(r: Request): real { r.tpot }
  function E2e(r: Request): real { r.e2e }

  /** `derive_raw_run_payloads`. */
  function DeriveFull(payloads: seq<Payload>): Option<Derived> {
    if |payloads| != 5 || !AllOk(payloads) then None
    else if Sort(Ascending, Mapped(PairOf, payloads)) != Pairs then None
    else if |Distinct(Mapped(IdOf, payloads))| != 5 then None
    else Assemble(FullColumns(Sort(ByPair, payloads)))
  }

  // ----- from compact rows ---------------------------------------------------------------

  /** What the streaming replay keeps of one receipt. */
  datatype Row = Row(
    pair: int, id: RunId, digest: Digest, source: Source, environment: Environment, workload: Workload,
    identity: seq<IdentityRow>, ttft: seq<real>, tpot: seq<real>, e2e: seq<real>,
    throughput: real, failures: nat, dropped: nat)

  /** `_compact_bound_raw_candidate` on a valid run. */
  function Compact(p: Payload): Row {
    Row(p.run.pair, p.run.id, p.digest, p.run.source, p.run.environment, p.run.workload,
        IdentityRows(p.run), Mapped(Ttft, p.run.requests), Mapped(Tpot, p.run.requests), Mapped(E2e, p.run.requests),
        p.run.throughput, p.run.failures, p.run.dropped)
  }

  predicate ByRowPair(a: Row, b: Row) { a.pair <= b.pair }

  function RowColumns(rows: seq<Row>): Columns {
    Columns(
      Mapped((r: Row) => r.source, rows),
      Mapped((r: Row) => r.environment, rows),
      Mapped((r: Row) => r.workload, rows),
      Mapped((r: Row) => r.identity, rows),
      Flatten(Mapped((r: Row) => r.ttft, rows)),
      Flatten(Mapped((r: Row) => r.tpot, rows)),
      Flatten(Mapped((r: Row) => r.e2e, rows)),
      Mapped((r: Row) => r.throughput, rows),
      Mapped((r: Row) => r.failures, rows),
      Mapped((r: Row) => r.dropped, rows),
      Mapped((r: Row) => RawRun(r.pair, r.id, r.digest), rows))
  }

  function RowPair(r: Row): int { r.pair }

  function RowId(r: Row): RunId { r.id }

  /** `_derive_bound_raw_candidates`. */
  function DeriveRows(rows: seq<Row>): Option<Derived> {
    if |rows| != 5 then None
    else
      var ordered := Sort(ByRowPair, rows);
      if Mapped(RowPair, ordered) != Pairs || |Distinct(Mapped(RowId, ordered))| != 5 then None
      else Assemble(RowColumns(ordered))
  }

  /** The replay: each receipt is validated and compacted by itself. */
  function DeriveCompact(payloads: seq<Payload>): Option<Derived> {
    if AllOk(payloads) then DeriveRows(Mapped(Compact, payloads)) else None
  }

  // ----- both derive the same ------------------------------------------------------------

  /** Picking a value out of all requests, before or after joining the runs. */
  lemma {:induction false} PickThenJoin(f: Request -> real, g: Row -> seq<real>, loaded: seq<Payload>)
    requires forall p :: g(Compact(p)) == Mapped(f, p.run.requests)
    ensures Flatten(Mapped(g, Mapped(Compact, loaded))) ==
            Mapped(f, Flatten(Mapped(RequestsOf, loaded)))
  {
    if loaded != [] {
      PickThenJoin(f, g, loaded[1..]);
      assert Mapped(RequestsOf, loaded)[1..] == Mapped(RequestsOf, loaded[1..]);
      assert Mapped(Compact, loaded)[1..] == Mapped(Compact, loaded[1..]);
      assert Mapped(g, Mapped(Compact, loaded))[1..] == Mapped(g, Mapped(Compact, loaded[1..]));
      MappedAppend(f, loaded[0].run.requests, Flatten(Mapped(RequestsOf, loaded[1..])));
    }
  }

  lemma {:induction false} SameColumns(loaded: seq<Payload>)
    ensures RowColumns(Mapped(Compact, loaded)) == FullColumns(loaded)
  {
    PickThenJoin(Ttft, (r: Row) => r.ttft, loaded);
    PickThenJoin(Tpot, (r: Row) => r.tpot, loaded);
    PickThenJoin(E2e, (r: Row) => r.e2e, loaded);
    var rows := Mapped(Compact, loaded);
    var row, full := RowColumns(rows), FullColumns(loaded);
    assert row.sources == full.sources && row.environments == full.environments && row.workloads == full.workloads;
    assert row.identities == full.identities && row.throughputs == full.throughputs;
    assert row.failures == full.failures && row.dropped == full.dropped && row.rawRuns == full.rawRuns;
  }

  lemma {:induction false} DistinctCounts<T>(a: seq<T>, b: seq<T>)
    requires multiset(a) == multiset(b)
    ensures Distinct(a) == Distinct(b)
  {
    forall x ensures x in a <==> x in b {
      assert x in a <==> x in multiset(a);
      assert x in b <==> x in multiset(b);
    }
  }

  lemma {:induction false} SortedIds(payloads: seq<Payload>)
    ensures Distinct(Mapped(IdOf, payloads)) == Distinct(Mapped(RowId, Mapped(Compact, Sort(ByPair, payloads))))
  {
    SortSorts(ByPair, payloads);
    var ordered := Sort(ByPair, payloads);
    MappedCounts(IdOf, payloads, ordered);
    DistinctCounts(Mapped(IdOf, payloads), Mapped(IdOf, ordered));
    assert Mapped(IdOf, ordered) == Mapped(RowId, Mapped(Compact, ordered));
  }

  /** The compact derivation is the full one, in every field and in every refusal. */
  lemma {:induction false} CompactIsFull(payloads: seq<Payload>)
    ensures DeriveCompact(payloads) == DeriveFull(payloads)
  {
    var ordered := Sort(ByPair, payloads);
    SortMapped(ByPair, ByRowPair, Compact, payloads);
    SortMapped(ByPair, Ascending, PairOf, payloads);
    assert Mapped(RowPair, Mapped(Compact, ordered)) == Mapped(PairOf, ordered);
    SortedIds(payloads);
    SameColumns(ordered);
  }

  // ----- the order of the payloads does not matter --------------------------------------

  lemma {:induction false} PairsSeparate(payloads: seq<Payload>)
    requires Sort(Ascending, Mapped(PairOf, payloads)) == Pairs
    ensures Separates(ByPair, Sort(ByPair, payloads))
  {
    SortMapped(ByPair, Ascending, PairOf, payloads);
    var ordered := Sort(ByPair, payloads);
    forall i, j | 0 <= i < j < |ordered| ensures PairOf(ordered[i]) != PairOf(ordered[j]) {
      assert Mapped(PairOf, ordered)[i] == i + 1 && Mapped(PairOf, ordered)[j] == j + 1;
    }
    KeysSeparate(ByPair, PairOf, ordered);
  }

  lemma {:induction false} OkPermuted(a: seq<Payload>, b: seq<Payload>)
    requires multiset(a) == multiset(b) && AllOk(a)
    ensures AllOk(b)
  {
    forall i | 0 <= i < |b| ensures RunOk(b[i].run) {
      assert b[i] in multiset(a);
      var k :| 0 <= k < |a| && a[k] == b[i];
    }
  }

  lemma {:induction false} PermutedOneWay(a: seq<Payload>, b: seq<Payload>)
    requires multiset(a) == multiset(b) && DeriveFull(a).Some?
    ensures DeriveFull(b) == DeriveFull(a)
  {
    assert |b| == |multiset(b)| == |multiset(a)| == |a|;
    OkPermuted(a, b);
    PairsSeparate(a);
    SortSorts(ByPair, a);
    SeparatesPermuted(ByPair, Sort(ByPair, a), a);
    SortIgnoresOrder(ByPair, a, b);
    SortMapped(ByPair, Ascending, PairOf, a);
    SortMapped(ByPair, Ascending, PairOf, b);
    MappedCounts(IdOf, a, b);
    DistinctCounts(Mapped(IdOf, a), Mapped(IdOf, b));
  }

  /** Payloads in any order give the same result. */
  lemma {:induction false} PayloadOrderIsIrrelevant(a: seq<Payload>, b: seq<Payload>)
    requires multiset(a) == multiset(b)
    ensures DeriveFull(a) == DeriveFull(b) && DeriveCompact(a) == DeriveCompact(b)
  {
    CompactIsFull(a);
    CompactIsFull(b);
    if DeriveFull(a).Some? {
      PermutedOneWay(a, b);
    } else if DeriveFull(b).Some? {
      PermutedOneWay(b, a);
    }
  }

  // ----- the order of the requests does not matter ---------------------------------------

  /** The same run with its requests in another order. */
  predicate Reordered(a: Run, b: Run) {
    b == a.(requests := b.requests) && multiset(a.requests) == multiset(b.requests)
  }

  predicate AllReordered(a: seq<Payload>, b: seq<Payload>) {
    |a| == |b| && forall i :: 0 <= i < |a| ==> Reordered(a[i].run, b[i].run)
  }

  lemma {:induction false} ReorderedOk(a: Run, b: Run)
    requires Reordered(a, b)
    ensures RunOk(a) <==> RunOk(b)
  {
    assert |a.requests| == |multiset(a.requests)| == |multiset(b.requests)| == |b.requests|;
    MappedCounts(IndexOf, a.requests, b.requests);
    SortIgnoresOrder(Ascending, Mapped(IndexOf, a.requests), Mapped(IndexOf, b.requests));
  }

  /** Indices 0 to n-1 leave one order to sort the requests into. */
  lemma {:induction false} ReorderedIdentity(a: Run, b: Run)
    requires Reordered(a, b) && RunOk(a)
    ensures IdentityRows(a) == IdentityRows(b)
  {
    SortMapped(ByIndex, Ascending, IndexOf, a.requests);
    var ordered := Sort(ByIndex, a.requests);
    forall i, j | 0 <= i < j < |ordered| ensures IndexOf(ordered[i]) != IndexOf(ordered[j]) {
      assert Mapped(IndexOf, ordered)[i] == i && Mapped(IndexOf, ordered)[j] == j;
    }
    KeysSeparate(ByIndex, IndexOf, ordered);
    SortPermutes(ByIndex, a.requests);
    SeparatesPermuted(ByIndex, ordered, a.requests);
    SortIgnoresOrder(ByIndex, a.requests, b.requests);
  }

  function Twins(a: seq<Payload>, b: seq<Payload>): seq<(Payload, Payload)>
    requires |a| == |b|
  {
    seq(|a|, i requires 0 <= i < |a| => (a[i], b[i]))
  }

  /** Both lists are sorted the same way. */
  lemma {:induction false} SortReordered(a: seq<Payload>, b: seq<Payload>)
    requires AllReordered(a, b)
    ensures AllReordered(Sort(ByPair, a), Sort(ByPair, b))
  {
    var twins := Twins(a, b);
    var first, second := (t: (Payload, Payload)) => t.0, (t: (Payload, Payload)) => t.1;
    var le := (s: (Payload, Payload), t: (Payload, Payload)) => ByPair(s.0, t.0);
    assert Mapped(first, twins) == a && Mapped(second, twins) == b;
    SortMapped(le, ByPair, first, twins);
    SortMapped(le, ByPair, second, twins);
    var ordered := Sort(le, twins);
    forall i | 0 <= i < |a| ensures Reordered(Sort(ByPair, a)[i].run, Sort(ByPair, b)[i].run) {
      SortHolds(le, twins, ordered[i]);
    }
  }

  function RequestsOf(p: Payload): seq<Request> { p.run.requests }

  lemma {:induction false} JoinReordered(a: seq<Payload>, b: seq<Payload>)
    requires AllReordered(a, b)
    ensures multiset(Flatten(Mapped(RequestsOf, a))) == multiset(Flatten(Mapped(RequestsOf, b)))
  {
    if a != [] {
      JoinReordered(a[1..], b[1..]);
      assert Mapped(RequestsOf, a)[1..] == Mapped(RequestsOf, a[1..]);
      assert Mapped(RequestsOf, b)[1..] == Mapped(RequestsOf, b[1..]);
      assert Reordered(a[0].run, b[0].run);
    }
  }

  /** Columns that differ in the order of observations and in the digests. */
  ghost predicate SameUpToOrder(c: Columns, d: Columns) {
    && d == c.(ttft := d.ttft, tpot := d.tpot, e2e := d.e2e, rawRuns := d.rawRuns)
    && multiset(c.ttft) == multiset(d.ttft) && multiset(c.tpot) == multiset(d.tpot)
    && multiset(c.e2e) == multiset(d.e2e)
  }

  lemma {:induction false} ColumnsReordered(a: seq<Payload>, b: seq<Payload>)
    requires AllReordered(a, b) && AllOk(a)
    ensures SameUpToOrder(FullColumns(a), FullColumns(b))
  {
    forall i | 0 <= i < |a| ensures IdentityRows(a[i].run) == IdentityRows(b[i].run) {
      ReorderedIdentity(a[i].run, b[i].run);
    }
    JoinReordered(a, b);
    var rows, others := Flatten(Mapped(RequestsOf, a)), Flatten(Mapped(RequestsOf, b));
    MappedCounts(Ttft, rows, others);
    MappedCounts(Tpot, rows, others);
    MappedCounts(E2e, rows, others);
    var c, d := FullColumns(a), FullColumns(b);
    assert c.sources == d.sources && c.environments == d.environments && c.workloads == d.workloads;
    assert c.identities == d.identities && c.throughputs == d.throughputs;
    assert c.failures == d.failures && c.dropped == d.dropped;
  }

  /** Equal but for the recorded digests. */
  predicate SameFields(x: Option<Derived>, y: Option<Derived>) {
    (x.Some? <==> y.Some?) && (x.Some? ==> y.value == x.value.(rawRuns := y.value.rawRuns))
  }

  lemma {:induction false} AssembleReordered(c: Columns, d: Columns)
    requires SameUpToOrder(c, d)
    ensures SameFields(Assemble(c), Assemble(d))
  {
    R7IgnoresOrder(c.ttft, d.ttft, 0.95);
    R7IgnoresOrder(c.tpot, d.tpot, 0.95);
    R7IgnoresOrder(c.e2e, d.e2e, 0.5);
  }

  lemma {:induction false} OkReordered(a: seq<Payload>, b: seq<Payload>)
    requires AllReordered(a, b)
    ensures AllOk(a) <==> AllOk(b)
  {
    forall i | 0 <= i < |a| ensures RunOk(a[i].run) <==> RunOk(b[i].run) { ReorderedOk(a[i].run, b[i].run); }
  }

  lemma {:induction false} FullReordered(a: seq<Payload>, b: seq<Payload>)
    requires AllReordered(a, b)
    ensures SameFields(DeriveFull(a), DeriveFull(b))
  {
    OkReordered(a, b);
    assert Mapped(PairOf, a) == Mapped(PairOf, b) && Mapped(IdOf, a) == Mapped(IdOf, b);
    if AllOk(a) {
      SortReordered(a, b);
      SortPermutes(ByPair, a);
      OkPermuted(a, Sort(ByPair, a));
      ColumnsReordered(Sort(ByPair, a), Sort(ByPair, b));
      AssembleReordered(FullColumns(Sort(ByPair, a)), FullColumns(Sort(ByPair, b)));
    }
  }

  /** Requests in any order inside each run give the same fields; only the recorded
      digests follow the bytes. */
  lemma {:induction false} RequestOrderIsIrrelevant(a: seq<Payload>, b: seq<Payload>)
    requires AllReordered(a, b)
    ensures SameFields(DeriveFull(a), DeriveFull(b)) && SameFields(DeriveCompact(a), DeriveCompact(b))
  {
    FullReordered(a, b);
    CompactIsFull(a);
    CompactIsFull(b);
  }

  // ----- what is derived -----------------------------------------------------------------

  /** The payloads by pair index, 1 to 5. */
  predicate InPairOrder(payloads: seq<Payload>, loaded: seq<Payload>) {
    multiset(loaded) == multiset(payloads) && |loaded| == 5 && forall i :: 0 <= i < 5 ==> loaded[i].run.pair == i + 1
  }

  /** A valid candidate run whose request indices are 0 to n - 1 in some order. */
  predicate RunValid(run: Run) {
    && run.fieldsOk && run.candidate
    && |run.requests| == run.workload.concurrency * run.workload.iterations
    && multiset(Mapped((r: Request) => r.index, run.requests)) == multiset(Range(|run.requests|))
  }

  /** One observation of every request of the five runs. */
  function Observations(f: Request -> real, loaded: seq<Payload>): seq<real>
    requires |loaded| == 5
  {
    Mapped(f, loaded[0].run.requests) + Mapped(f, loaded[1].run.requests) + Mapped(f, loaded[2].run.requests)
    + Mapped(f, loaded[3].run.requests) + Mapped(f, loaded[4].run.requests)
  }

  predicate SharedFields(loaded: seq<Payload>, d: Derived) {
    forall i :: 0 <= i < |loaded| ==>
      && loaded[i].run.source == d.source && loaded[i].run.environment == d.environment
      && loaded[i].run.workload == d.workload && IdentityRows(loaded[i].run) == d.identity
  }

  predicate Totals(loaded: seq<Payload>, d: Derived)
    requires |loaded| == 5
  {
    && d.failures == loaded[0].run.failures + loaded[1].run.failures + loaded[2].run.failures
                     + loaded[3].run.failures + loaded[4].run.failures
    && d.dropped == loaded[0].run.dropped + loaded[1].run.dropped + loaded[2].run.dropped
                    + loaded[3].run.dropped + loaded[4].run.dropped
  }

  predicate Quantiles(loaded: seq<Payload>, d: Derived)
    requires |loaded| == 5
  {
    && R7(Observations((r: Request) => r.ttft, loaded), 0.95) == Some(d.ttft)
    && R7(Observations((r: Request) => r.tpot, loaded), 0.95) == Some(d.tpot)
    && R7(Observations((r: Request) => r.e2e, loaded), 0.5) == Some(d.e2e)
    && R7([loaded[0].run.throughput, loaded[1].run.throughput, loaded[2].run.throughput,
           loaded[3].run.throughput, loaded[4].run.throughput], 0.5) == Some(d.throughput)
  }

  predicate RunsListed(loaded: seq<Payload>, d: Derived) {
    && |d.rawRuns| == |loaded|
    && forall i :: 0 <= i < |loaded| ==> d.rawRuns[i] == RawRun(i + 1, loaded[i].run.id, loaded[i].digest)
  }

  lemma {:induction false} RunOkIff(run: Run)
    ensures RunOk(run) <==> RunValid(run)
  {
    var ids, n := Mapped(IndexOf, run.requests), |run.requests|;
    assert ids == Mapped((r: Request) => r.index, run.requests);
    SortSorts(Ascending, ids);
    if multiset(ids) == multiset(Range(n)) { SortedUnique(Ascending, Sort(Ascending, ids), Range(n)); }
  }

  lemma {:induction false} DistinctIffApart<T>(s: seq<T>)
    ensures |Distinct(s)| <= |s|
    ensures |Distinct(s)| == |s| <==> forall i, j :: 0 <= i < j < |s| ==> s[i] != s[j]
  {
    if s != [] {
      var front, x := DropLast(s), Last(s);
      DistinctIffApart(front);
      assert Distinct(s) == Distinct(front) + {x};
      if x in Distinct(front) {
        assert Distinct(s) == Distinct(front);
        var i :| 0 <= i < |front| && front[i] == x;
      } else {
        assert |Distinct(s)| == |Distinct(front)| + 1;
        if forall i, j :: 0 <= i < j < |front| ==> front[i] != front[j] {
          forall i, j | 0 <= i < j < |s| ensures s[i] != s[j] { assert s[i] == front[i] && (j < |front| ==> s[j] == front[j]); }
        }
      }
    } else {
      assert Distinct(s) == {};
    }
  }

  lemma {:induction false} FlattenRest(a: seq<seq<Request>>, k: nat)
    requires k < |a|
    ensures Flatten(a[k..]) == a[k] + Flatten(a[k + 1..])
  {
    assert a[k..][1..] == a[k + 1..];
  }

  lemma {:induction false} FiveFlattened(a: seq<seq<Request>>)
    requires |a| == 5
    ensures Flatten(a) == a[0] + a[1] + a[2] + a[3] + a[4]
  {
    FlattenRest(a, 0);
    FlattenRest(a, 1);
    FlattenRest(a, 2);
    FlattenRest(a, 3);
    FlattenRest(a, 4);
    assert a[0..] == a && a[5..] == [];
  }

  lemma {:induction false} SumRest(a: seq<nat>, k: nat)
    requires k < |a|
    ensures Sum(a[k..]) == a[k] + Sum(a[k + 1..])
  {
    assert a[k..][1..] == a[k + 1..];
  }

  lemma {:induction false} FiveSummed(a: seq<nat>)
    requires |a| == 5
    ensures Sum(a) == a[0] + a[1] + a[2] + a[3] + a[4]
  {
    SumRest(a, 0);
    SumRest(a, 1);
    SumRest(a, 2);
    SumRest(a, 3);
    SumRest(a, 4);
    assert a[0..] == a && a[5..] == [];
  }

  lemma {:induction false} ObservedAre(f: Request -> real, g: Request -> real, loaded: seq<Payload>)
    requires |loaded| == 5 && forall r :: f(r) == g(r)
    ensures Mapped(f, Flatten(Mapped(RequestsOf, loaded))) == Observations(g, loaded)
  {
    var parts := Mapped(RequestsOf, loaded);
    FiveFlattened(parts);
    MappedAppend(f, parts[0] + parts[1] + parts[2] + parts[3], parts[4]);
    MappedAppend(f, parts[0] + parts[1] + parts[2], parts[3]);
    MappedAppend(f, parts[0] + parts[1], parts[2]);
    MappedAppend(f, parts[0], parts[1]);
    assert forall i :: 0 <= i < 5 ==> Mapped(f, parts[i]) == Mapped(g, loaded[i].run.requests);
  }

  /** The columns of five runs, one field at a time. */
  lemma {:induction false} ColumnsAre(loaded: seq<Payload>)
    requires |loaded| == 5
    ensures var c := FullColumns(loaded);
            && c.ttft == Observations((r: Request) => r.ttft, loaded)
            && c.tpot == Observations((r: Request) => r.tpot, loaded)
            && c.e2e == Observations((r: Request) => r.e2e, loaded)
            && c.throughputs == [loaded[0].run.throughput, loaded[1].run.throughput, loaded[2].run.throughput,
                                 loaded[3].run.throughput, loaded[4].run.throughput]
  {
    ObservedAre(Ttft, (r: Request) => r.ttft, loaded);
    ObservedAre(Tpot, (r: Request) => r.tpot, loaded);
    ObservedAre(E2e, (r: Request) => r.e2e, loaded);
  }

  lemma {:induction false} SharedIff<T>(s: seq<T>, x: T)
    requires s != []
    ensures AllEqual(s) && s[0] == x <==> forall i :: 0 <= i < |s| ==> s[i] == x
  {
  }

  predicate AllAre(c: Columns, d: Derived) {
    && (forall i :: 0 <= i < |c.sources| ==> c.sources[i] == d.source)
    && (forall i :: 0 <= i < |c.environments| ==> c.environments[i] == d.environment)
    && (forall i :: 0 <= i < |c.workloads| ==> c.workloads[i] == d.workload)
    && (forall i :: 0 <= i < |c.identities| ==> c.identities[i] == d.identity)
  }

  lemma {:induction false} AssembleIff(c: Columns, d: Derived)
    requires c.sources != [] && c.environments != [] && c.workloads != [] && c.identities != []
    ensures Assemble(c) == Some(d) <==>
            && AllAre(c, d) && d.failures == Sum(c.failures) && d.dropped == Sum(c.dropped)
            && R7(c.ttft, 0.95) == Some(d.ttft) && R7(c.tpot, 0.95) == Some(d.tpot) && R7(c.e2e, 0.5) == Some(d.e2e)
            && R7(c.throughputs, 0.5) == Some(d.throughput) && d.rawRuns == c.rawRuns
  {
    SharedIff(c.sources, d.source);
    SharedIff(c.environments, d.environment);
    SharedIff(c.workloads, d.workload);
    SharedIff(c.identities, d.identity);
  }

  lemma {:induction false} TotalsAre(loaded: seq<Payload>)
    requires |loaded| == 5
    ensures var c := FullColumns(loaded);
            && Sum(c.failures) == loaded[0].run.failures + loaded[1].run.failures + loaded[2].run.failures
                                  + loaded[3].run.failures + loaded[4].run.failures
            && Sum(c.dropped) == loaded[0].run.dropped + loaded[1].run.dropped + loaded[2].run.dropped
                                 + loaded[3].run.dropped + loaded[4].run.dropped
  {
    FiveSummed(FullColumns(loaded).failures);
    FiveSummed(FullColumns(loaded).dropped);
  }

  lemma {:induction false} AssembledIff(loaded: seq<Payload>, d: Derived)
    requires |loaded| == 5
    ensures Assemble(FullColumns(loaded)) == Some(d) <==>
            && SharedFields(loaded, d) && Totals(loaded, d) && Quantiles(loaded, d)
            && d.rawRuns == FullColumns(loaded).rawRuns
  {
    ColumnsAre(loaded);
    TotalsAre(loaded);
    SharedColumns(loaded, d);
    AssembleIff(FullColumns(loaded), d);
  }

  lemma {:induction false} SharedColumns(loaded: seq<Payload>, d: Derived)
    ensures SharedFields(loaded, d) <==> AllAre(FullColumns(loaded), d)
  {
    var c := FullColumns(loaded);
    if AllAre(c, d) {
      forall i | 0 <= i < |loaded|
        ensures && loaded[i].run.source == d.source && loaded[i].run.environment == d.environment
                && loaded[i].run.workload == d.workload && IdentityRows(loaded[i].run) == d.identity
      {
        assert c.sources[i] == d.source && c.environments[i] == d.environment;
        assert c.workloads[i] == d.workload && c.identities[i] == d.identity;
      }
    }
  }

  /** Something is derived only from five payloads with the pair indices 1 to 5. */
  lemma {:induction false} DerivedHasOrder(payloads: seq<Payload>)
    requires DeriveFull(payloads).Some?
    ensures InPairOrder(payloads, Sort(ByPair, payloads))
  {
    SortSorts(ByPair, payloads);
    SortMapped(ByPair, Ascending, PairOf, payloads);
    var ordered := Sort(ByPair, payloads);
    forall i | 0 <= i < 5 ensures ordered[i].run.pair == i + 1 { assert Mapped(PairOf, ordered)[i] == i + 1; }
  }

  lemma {:induction false} OrderIsSorted(payloads: seq<Payload>, loaded: seq<Payload>)
    requires InPairOrder(payloads, loaded)
    ensures Sort(ByPair, payloads) == loaded && |payloads| == 5
  {
    assert |payloads| == |multiset(payloads)| == |multiset(loaded)|;
    SortSorts(ByPair, payloads);
    KeysSeparate(ByPair, PairOf, loaded);
    SortedUnique(ByPair, loaded, Sort(ByPair, payloads));
  }

  lemma {:induction false} PairsInOrder(payloads: seq<Payload>, loaded: seq<Payload>)
    requires Sort(ByPair, payloads) == loaded && |loaded| == 5 && forall i :: 0 <= i < 5 ==> loaded[i].run.pair == i + 1
    ensures Sort(Ascending, Mapped(PairOf, payloads)) == Pairs
  {
    SortMapped(ByPair, Ascending, PairOf, payloads);
    assert Mapped(PairOf, loaded) == Pairs;
  }

  predicate Usable(loaded: seq<Payload>) {
    && (forall i :: 0 <= i < |loaded| ==> RunValid(loaded[i].run))
    && forall i, j :: 0 <= i < j < |loaded| ==> loaded[i].run.id != loaded[j].run.id
  }

  lemma {:induction false} DeriveInOrder(payloads: seq<Payload>, loaded: seq<Payload>)
    requires InPairOrder(payloads, loaded)
    ensures DeriveFull(payloads) == if Usable(loaded) then Assemble(FullColumns(loaded)) else None
  {
    OrderIsSorted(payloads, loaded);
    PairsInOrder(payloads, loaded);
    AllOkIff(payloads, loaded);
    IdsApart(payloads, loaded);
  }

  /** The derivation, field by field: five valid runs with different ids and equal
      source, environment, workload and identity; sums, quantiles and the listed runs. */
  lemma {:induction false} DerivedFields(payloads: seq<Payload>, loaded: seq<Payload>, d: Derived)
    requires InPairOrder(payloads, loaded)
    ensures DeriveFull(payloads) == Some(d) <==>
            && Usable(loaded) && SharedFields(loaded, d) && Totals(loaded, d) && Quantiles(loaded, d)
            && RunsListed(loaded, d)
  {
    DeriveInOrder(payloads, loaded);
    AssembledIff(loaded, d);
    RunsListedIff(loaded, d);
  }

  lemma {:induction false} RunsListedIff(loaded: seq<Payload>, d: Derived)
    requires |loaded| == 5 && forall i :: 0 <= i < 5 ==> loaded[i].run.pair == i + 1
    ensures RunsListed(loaded, d) <==> d.rawRuns == FullColumns(loaded).rawRuns
  {
    var runs := FullColumns(loaded).rawRuns;
    assert forall i :: 0 <= i < 5 ==> runs[i] == RawRun(i + 1, loaded[i].run.id, loaded[i].digest);
  }

  lemma {:induction false} AllOkIff(payloads: seq<Payload>, loaded: seq<Payload>)
    requires multiset(payloads) == multiset(loaded)
    ensures AllOk(payloads) <==> forall i :: 0 <= i < |loaded| ==> RunValid(loaded[i].run)
  {
    forall i | 0 <= i < |loaded| ensures RunOk(loaded[i].run) <==> RunValid(loaded[i].run) { RunOkIff(loaded[i].run); }
    if AllOk(payloads) { OkPermuted(payloads, loaded); }
    if AllOk(loaded) { OkPermuted(loaded, payloads); }
  }

  lemma {:induction false} IdsApart(payloads: seq<Payload>, loaded: seq<Payload>)
    requires multiset(payloads) == multiset(loaded)
    ensures |Distinct(Mapped(IdOf, payloads))| == |loaded| <==>
            forall i, j :: 0 <= i < j < |loaded| ==> loaded[i].run.id != loaded[j].run.id
  {
    MappedCounts(IdOf, payloads, loaded);
    DistinctCounts(Mapped(IdOf, payloads), Mapped(IdOf, loaded));
    DistinctIffApart(Mapped(IdOf, loaded));
    var ids := Mapped(IdOf, loaded);
    if forall i, j :: 0 <= i < j < |ids| ==> ids[i] != ids[j] {
      forall i, j | 0 <= i < j < |loaded| ensures loaded[i].run.id != loaded[j].run.id { assert ids[i] != ids[j]; }
    }
  }

  /** The identity of a valid run lists each request at its index. */
  lemma {:induction false} IdentityAt(run: Run, r: Request)
    requires RunOk(run) && r in run.requests
    ensures |IdentityRows(run)| == |run.requests| && 0 <= r.index < |run.requests|
    ensures IdentityRows(run)[r.index] == IdentityRow(r.index, r.identity)
  {
    SortMapped(ByIndex, Ascending, IndexOf, run.requests);
    var ordered := Sort(ByIndex, run.requests);
    SortHolds(ByIndex, run.requests, r);
    var k :| 0 <= k < |ordered| && ordered[k] == r;
    assert Mapped(IndexOf, ordered)[k] == k;
  }
}
