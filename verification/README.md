# Evidence and CI checkers of the inference server, verified models

This project models the checkers that decide whether recorded evidence and repository
changes are acceptable: the reliability soak checker, the release performance checker, the
extension gate, the v4 terminal publication protocol, and several smaller algorithms. Each
model takes the checkers' own steps, and the proofs say what acceptance means.

`dafny verify dfyconfig.toml` checks the whole project.

## What is modelled

- **Soak log** (`SoakEvents`, `SoakBatch`, `SoakReducer`, `SoakTail`, `SoakReplay`,
  `SoakAgreement`, `SoakProtocol`, `SoakContract`, `SoakGuarantees`, `SoakMeaning`,
  `SoakRegression`): the event state machine, the list-based
  evaluation, the one-pass reducer as a class with fixed-size state, the two tail passes and the
  report built from retained state. The central result is `SoakAgreement.Replay`: for every log
  the replay and the list-based evaluation agree. Where a check fails, the replay bounds its
  diagnostics for golden hashes, Python children, restarts and rollbacks; the results and all
  other observations still agree. `SoakProtocol` and `SoakContract` describe accepted logs without
  the machine, `SoakMeaning` writes out what a passing verdict demands of the events, and
  `SoakRegression` shows that the slope is the least-squares slope.
- **Line readers** (`Jsonl`, `TextLines`, `Utf8`, `SoakPipeline`): the bounded line iterator over arbitrary reads, and
  the exact condition under which `splitlines()` and newline splitting agree. The source's two
  paths differ on other texts, so the agreement of the checkers is stated on events, and on bytes
  for plain text only: `SoakPipeline` composes the archive verifier, the line iterator, UTF-8
  (`Utf8`, RFC 3629) and the replay. `SoakWitness` holds a manifest and a log that pass.
- **Archives** (`UstarFormat`, `UstarVerifier`, `UstarReaders`, `UstarStream`, `UstarPolicies`,
  `UstarLayout`, `UstarContents`): the ustar interchange format of POSIX.1 (IEEE Std 1003.1, pax
  utility), the canonical writer's image and both streaming verifiers. Reads return any non-empty
  prefix of what was asked for. `UstarLayout` and `UstarContents` state the accepted bytes range by range.
  `_canonical_raw_archive_size` calls its result the exact size; it leaves out the fill to a whole
  record, and `UstarPolicies.CanonicalSizeExactIff` says when that matters.
- **Publication** (`Publication`, `PublicationProgress`): binders, the directory, inodes, the lock
  and partial writes as one transition system, its safety, and that publishing stays possible. A
  binder may fail or crash between any two steps.
- **Extension registry** (`ExtensionRegistry`) and **Rust source cleaning** (`RustLexer`, and
  `RustTokens` for what the tokens are).
- **Smaller algorithms** (`HttpChunked`, `Safetensors`, `ModelManifest`, `Timestamps`,
  `DependencyGraph`, `Quantile`, `ReducerRank`, `RawDerivation`), with shared vocabulary in
  `Octets`, `Sequences`, `Lists`, `Sorting` and `TextOrder`.

SHA-256, JSON decoding, header codecs and file contents enter as functions or decoded values.
Measured numbers are reals. Identifiers that are only compared are abstract types. Every lemma
carries `{:induction false}`, so that its proof is its body alone.

## Model

| member | source | states |
|---|---|---|
| `SoakEvents.AdmittedAt` | benchmarks/scripts/check_reliability_soak.py:2071-2094 | In an admitted log every event satisfies the event contract in the state left by the events before it. |
| `SoakEvents.TimesIncrease` | benchmarks/scripts/check_reliability_soak.py:2071-2094 | Admitted timestamps are non-negative and strictly increase over the whole log. |
| `SoakBatch.ValidateEvents` | benchmarks/scripts/check_reliability_soak.py:2046-2250 | The event loop returns success exactly on accepted logs: every event admitted, first event `run_start`, last event `run_end`. |
| `SoakProtocol.AcceptsIffLaidOut` | benchmarks/scripts/check_reliability_soak.py:2095-2122 | State-machine acceptance if and only if rows are well formed, the run is bracketed, and the scenarios form disjoint intervals in manifest order that own every tagged event, with untagged samples and the end after all of them. |
| `SoakProtocol.AcceptedHasLayout` | benchmarks/scripts/check_reliability_soak.py:2095-2122 | Constructs that layout for every accepted log: one start and one end row per manifest scenario. |
| `SoakProtocol.LayoutUnique` | benchmarks/scripts/check_reliability_soak.py:2098-2114 | A log has at most one layout, so each scenario has exactly one start and one end. |
| `SoakProtocol.OwnBoundary` | benchmarks/scripts/check_reliability_soak.py:2098-2114 | Every boundary event of a scenario is one of the two its interval names. |
| `SoakProtocol.EveryManifestHasALog` | benchmarks/scripts/check_reliability_soak.py:2095-2122 | Every manifest has an accepted log, so acceptance is never empty. |
| `SoakContract.RequestOkIff` | benchmarks/scripts/check_reliability_soak.py:2125-2236 | A request event is admitted if and only if it is well formed and carries the evidence of its outcome, read outcome by outcome: which scenario kinds and client action, stream flag, exit code, status range, response size and generated text each outcome proves, and that a timeout proves nothing. |
| `SoakContract.CarriesIff` | benchmarks/scripts/check_reliability_soak.py:2083-2248 | Tag and body of an event are admitted exactly when the row carries what its kind demands, kind by kind. |
| `SoakContract.AcceptsIffWritten` | benchmarks/scripts/check_reliability_soak.py:2046-2250 | The event loop accepts exactly non-empty logs whose rows are numbered from one, bound, strictly later than the one before, carry what their kinds demand, are bracketed by the run events, and have a layout of disjoint spans in manifest order. |
| `SoakGuarantees.PassingRunCoversAllDurations` | benchmarks/scripts/check_reliability_soak.py:3779-3873 | A passing report implies that Docker elapsed time is at least the sum of all required scenario durations. |
| `SoakGuarantees.AcceptedSlopesAreFinite` | benchmarks/scripts/check_reliability_soak.py:2253-2263 | On accepted logs a plateau slope is absent only for fewer than two samples and never infinite. |
| `SoakMeaning.CollectLists` | benchmarks/scripts/check_reliability_soak.py:2337-2352 | Each list selection lists exactly the selected elements, at ascending positions, and leaves none out. |
| `SoakMeaning.WithTagLists` | benchmarks/scripts/check_reliability_soak.py:2324-2327 | The events of a scenario are exactly the rows with its tag, in log order. |
| `SoakMeaning.TailCountIs` | benchmarks/scripts/check_reliability_soak.py:2414 | The tail count is the least whole number that is at least two and at least the fraction of the samples. |
| `SoakMeaning.ScenarioPassesIff` | benchmarks/scripts/check_reliability_soak.py:2343-2479 | All checks of a scenario pass if and only if: one start in the manifest's mode and one successful end, counters of a process never fall, enough samples and requests, whole-nanosecond duration and coverage, no long gap that no restart explains, at the end neither quantity spreads or has a best-fitting line that rises too far, only expected outcomes, and only golden text where it is due. |
| `SoakMeaning.EvaluationPassesIff` | benchmarks/scripts/check_reliability_soak.py:2270-2530 | An accepted log gives a passing report if and only if Docker ran as long as the log spans and the events satisfy every requirement written out: run boundaries, all scenarios, an empty final sample as last row but one, the first process id, no interpreter, drop or failure, enough cancelled, disconnected and overloaded requests and counters, one golden restart, and golden rollbacks in both modes. |
| `SoakMeaning.ReportStates` | benchmarks/scripts/check_reliability_soak.py:2480-2530 | The report counts the events and each outcome over the log, and each summary gives its scenario's events, samples and requests, the greatest distance of neighbouring samples that no restart explains, duration and span in nanoseconds, and the slopes of the best-fitting lines. |
| `SoakMeaning.SteadyLeakFails` | benchmarks/scripts/check_reliability_soak.py:2414-2433 | An accepted log in whose tail resident memory grows by a constant rate above the limit never passes. |
| `SoakRegression.SlopeIsAbsentIff` | benchmarks/scripts/check_reliability_soak.py:2253-2262 | The slope is infinite exactly for fewer than two readings or when all have one time. |
| `SoakRegression.SlopeIsLeastSquares` | benchmarks/scripts/check_reliability_soak.py:2253-2263 | A finite slope is that of the least-squares line over elapsed seconds: no line has a smaller sum of squared distances, and every line with another slope has a larger one. |
| `SoakRegression.SteadyGrowthHasItsSlope` | benchmarks/scripts/check_reliability_soak.py:2253-2263 | Readings `c + k * seconds` have the slope `3600 * k`. |
| `SoakReducer.SummaryStep` | benchmarks/scripts/check_reliability_soak.py:3251-3608 | One event keeps the fixed-size scenario state equal to what the list selections give: counts, boundaries, restart-aware largest gap, per-process counter monotonicity, golden and rollback tallies. |
| `SoakReducer.SampleStep` | benchmarks/scripts/check_reliability_soak.py:3553-3584 | Updating by one sample keeps the retained largest gap, monotonicity and restart flag those of the sample list. |
| `SoakReducer.RestartStep` | benchmarks/scripts/check_reliability_soak.py:3509-3552 | A restart between samples sets exactly the flag that excludes the next gap, and changes no earlier gap. |
| `SoakReducer.RequestStep` | benchmarks/scripts/check_reliability_soak.py:3509-3552 | Request counts, outcome counter and hash tallies stand for the request list. |
| `SoakReducer.ReduceRepresents` | benchmarks/scripts/check_reliability_soak.py:3251-3608 | After any admitted log all retained facts (per scenario, run-wide, first process id, maxima, last untagged sample and its position, first Python child, failures, restarts) are those of the log. |
| `SoakReducer.Reducer.Consume` | benchmarks/scripts/check_reliability_soak.py:3251-3552 | Accepts an event exactly when the event contract admits it after the consumed ones, and then the retained state is the reduction of one event more. |
| `SoakReducer.Reducer.Finish` | benchmarks/scripts/check_reliability_soak.py:3606-3608 | The closing check from retained kinds succeeds exactly when the consumed log is accepted. |
| `SoakTail.WindowIsTail` | benchmarks/scripts/check_reliability_soak.py:3631-3643 | Selecting by start position is slicing off the last samples, also when there are fewer than the tail count. |
| `SoakTail.ReplayedScenario` | benchmarks/scripts/check_reliability_soak.py:3646-3670 | One replay of a log visits, for each scenario, exactly its window of samples, in order. |
| `SoakTail.ForEachTailSample` | benchmarks/scripts/check_reliability_soak.py:3646-3670 | The replay loop returns the statistics of all windows, or fails on an unknown scenario or changed sample count. |
| `SoakTail.CollectTails` | benchmarks/scripts/check_reliability_soak.py:3673-3727 | The two passes in sequence give the composed result, or nothing when either fails. |
| `SoakTail.MeansAfterFirstPass` | benchmarks/scripts/check_reliability_soak.py:3688-3708 | The first pass leaves count, time sum, value sums, minima and maxima of the window. |
| `SoakTail.ProductsAfterSecondPass` | benchmarks/scripts/check_reliability_soak.py:3710-3727 | The second pass leaves the regression numerator and denominator about the window means and alters nothing else. |
| `SoakTail.PassesComputeTail` | benchmarks/scripts/check_reliability_soak.py:3673-3741 | The two passes report the growth and the least-squares slope that the list formula gives on that window, for windows of any length. |
| `SoakTail.IncreasingTimesGiveFiniteSlope` | benchmarks/scripts/check_reliability_soak.py:2253-2263 | Strictly increasing times make the regression denominator positive, so the infinite branch is unreachable for two or more samples. |
| `SoakAgreement.ScenarioAgrees` | benchmarks/scripts/check_reliability_soak.py:3800-4000 | Every check and the summary of one scenario agree between retained state and event list. |
| `SoakAgreement.HashesAgree` | benchmarks/scripts/check_reliability_soak.py:3744-3755 | The bounded hash observation is the golden singleton exactly when the set of successful hashes is. |
| `SoakAgreement.BoundariesCounted` | benchmarks/scripts/check_reliability_soak.py:2095-2122 | In every admitted prefix each scenario has the start and end count that the machine state says, never more than one. |
| `SoakAgreement.TotalIsCount` | benchmarks/scripts/check_reliability_soak.py:2332-2350 | Counting tagged events scenario by scenario counts the whole log, because each has exactly one owner. |
| `SoakAgreement.OutcomesOfAllScenarios` | benchmarks/scripts/check_reliability_soak.py:2332-2350 | The outcome counter accumulated over scenarios is that of all requests. |
| `SoakAgreement.MaximaOfAllScenarios` | benchmarks/scripts/check_reliability_soak.py:3586-3604 | Counter maxima taken scenario by scenario are the maxima in log order. |
| `SoakAgreement.ReportsAgree` | benchmarks/scripts/check_reliability_soak.py:3758-4179 | On accepted logs, for any plateau figures, the report from retained facts has the same verdict, the same result for every named check, and the same summaries and observations as the list report; a passing report is identical. |
| `SoakAgreement.PlateausAgree` | benchmarks/scripts/check_reliability_soak.py:3730-3741 | The tail statistics give the plateau figures that the list gives for every scenario. |
| `SoakAgreement.PassesAgree` | benchmarks/scripts/check_reliability_soak.py:3758-4179 | On accepted logs what the three passes leave gives the list's time bounds and a report that agrees with the list's. |
| `SoakAgreement.AcceptedTails` | benchmarks/scripts/check_reliability_soak.py:3673-3727 | On accepted logs both tail passes succeed and hold every scenario's plateau statistics. |
| `SoakAgreement.ReduceLog` | benchmarks/scripts/check_reliability_soak.py:3251-3608 | The first pass yields the reduction exactly on accepted logs. |
| `SoakAgreement.Replay` | benchmarks/scripts/check_reliability_soak.py:4188-4297 | The three-pass replay yields a report exactly when `evaluate` does, for every log, manifest and threshold set, and the two reports agree as above. |
| `SoakWitness.LogIsAccepted` | benchmarks/scripts/check_reliability_soak.py:2046-2250 | A concrete log of two scenarios is accepted, for any two scenario names. |
| `SoakWitness.FlatSlope` | benchmarks/scripts/check_reliability_soak.py:2253-2263 | Two samples with equal measure have regression slope zero. |
| `SoakWitness.SomeReportPasses` | benchmarks/scripts/check_reliability_soak.py:2270-2545 | That log's report passes every check, so what passing reports imply is never said of nothing. |
| `Utf8.LinesOfText` | benchmarks/scripts/check_reliability_soak.py:3103-3121 | Cutting the UTF-8 bytes of a text at newlines gives the bytes of the text's newline-separated lines. |
| `Utf8.StrippedLine` | benchmarks/scripts/check_reliability_soak.py:3088-3089 | Dropping a trailing carriage return of the bytes drops that of the text. |
| `Utf8.CharSpells` | benchmarks/scripts/check_reliability_soak.py:3088-3099 | A character's bytes hold its bits as RFC 3629 lays them out, in the shortest form and with continuation bytes from 0x80 to 0xBF. |
| `Utf8.EncodeInjective` | benchmarks/scripts/check_reliability_soak.py:3088-3099 | Different texts have different bytes, so that the assumed decoder can exist. |
| `SoakPipeline.DecodeLines` | benchmarks/scripts/check_reliability_soak.py:3083-3101 | Decoding line by line gives all events, or fails exactly when some line is none. |
| `SoakPipeline.EventsAgree` | benchmarks/scripts/check_reliability_soak.py:268-290 | On plain text within the line cap the stream and the list path decode the same events, or both refuse. |
| `SoakPipeline.ReplayMember` | benchmarks/scripts/check_reliability_soak.py:3073-3126 | The event member streamed, decoded and replayed gives the verdict of evaluating its decoded lines. |
| `SoakPipeline.ReplayArchive` | benchmarks/scripts/check_reliability_soak.py:4188-4297 | Archive verification, line cutting, decoding and replay composed: no report without a verified archive, otherwise the verdict on the event member. |
| `SoakPipeline.ReplayMeansListVerdict` | benchmarks/scripts/check_reliability_soak.py:4188-4297 | A report only for the canonical writer's output of the expected length and digest; on plain events within the cap it is the list path's verdict on the payload that was written. |
| `SoakPipeline.EventsMemberName` | benchmarks/scripts/check_reliability_soak.py:59-62 | The member replayed is `events.jsonl`. |
| `TextLines.ReadersAgreeIffPlain` | benchmarks/scripts/check_reliability_soak.py:268-290 | The list reader's `splitlines()` and the stream's newline splitting give the same lines if and only if the text has no other line boundary than newlines and carriage returns that end a line. |
| `TextLines.ReadersCanDiffer` | benchmarks/scripts/check_reliability_soak.py:3083-3099 | A text with U+2028 on which the two readers differ. |
| `TextLines.BreaksAre` | benchmarks/scripts/check_reliability_soak.py:268-290 | The list reader's line boundaries are exactly the ten code points of `str.splitlines`. |
| `Jsonl.CutLines` | benchmarks/scripts/check_reliability_soak.py:3103-3117 | Cutting complete lines off the pending buffer yields exactly the next lines of the stream, or fails only if some line exceeds the cap. |
| `Jsonl.IterateLines` | benchmarks/scripts/check_reliability_soak.py:3073-3126 | For every way the host cuts the member into reads, exactly its newline-separated lines come out, a non-empty last line included; it fails exactly when some line exceeds the cap or there is none. |
| `Jsonl.LinesSpellData` | benchmarks/scripts/check_reliability_soak.py:3103-3121 | Joining the lines with newlines gives the member back, up to a final newline. |
| `Jsonl.LinesHoldNoNewline` | benchmarks/scripts/check_reliability_soak.py:3103-3121 | No line holds a newline. |
| `UstarFormat.OctalRoundTrip` | benchmarks/scripts/check_reliability_soak.py:610-619 | Octal fields read back as the number written, for every number that fits. |
| `UstarFormat.HeaderRoundTrip` | benchmarks/scripts/check_reliability_soak.py:610-619 | A canonical header parses to its name and size and is never the zero block. |
| `UstarFormat.PosixFaithful` | benchmarks/scripts/check_release_performance.py:2931-2940 | The canonical header writer and reader satisfy what both verifiers rely on, for all valid names and sizes. |
| `UstarLayout.HeaderIsPosix` | benchmarks/scripts/check_reliability_soak.py:610-619 | The written header is the one block with the fields of the ustar standard as literal bytes: padded name, mode 0000644, zero owner, group and time, the size in eleven octal digits, type flag 0, magic and version, zeros elsewhere, and six octal digits for the sum of all bytes with the checksum field read as eight blanks. |
| `UstarLayout.PosixHeaderReads` | benchmarks/scripts/check_reliability_soak.py:3000-3010 | Every block with these fields reads as its name and size. |
| `UstarVerifier.ScanSound` | benchmarks/scripts/check_reliability_soak.py:2980-3044 | Everything the member scan passes is exactly the written members of the payloads its locations slice out. |
| `UstarVerifier.ScanComplete` | benchmarks/scripts/check_reliability_soak.py:2980-3044 | The scan passes the written members of every bounded payload list and slices out exactly those payloads. |
| `UstarVerifier.VerifiedIffCanonical` | benchmarks/scripts/check_reliability_soak.py:2945-3070 | An archive is verified with given payload slices if and only if it is the writer's image of those payloads, in inventory order, within bounds, with a listing that binds all others. |
| `UstarVerifier.ImageInjective` | benchmarks/scripts/check_release_performance.py:2943-2958 | The writer's image determines the payloads. |
| `UstarReaders.PreadExact` | benchmarks/scripts/check_reliability_soak.py:2856-2874 | For every pattern of short reads the loop returns exactly the range, or fails exactly when the file ends inside it. |
| `UstarReaders.StreamRange` | benchmarks/scripts/check_reliability_soak.py:2877-2942 | Chunked streaming hands the digest exactly the bytes of the range, in order. |
| `UstarReaders.CheckMember` | benchmarks/scripts/check_reliability_soak.py:2985-3044 | The positioned-read member check decides as the scan function and returns the member's bytes. |
| `UstarReaders.ScanInventory` | benchmarks/scripts/check_reliability_soak.py:2980-3044 | The member loop locates the complete inventory and keeps every member's digest, or fails as the scan does. |
| `UstarReaders.ListingFromDigests` | benchmarks/scripts/check_reliability_soak.py:3057-3070 | The listing rebuilt from retained digests is the writer's listing of the payloads. |
| `UstarReaders.VerdictFromScan` | benchmarks/scripts/check_reliability_soak.py:3045-3070 | After a scan, footer and listing comparison decide the verdict. |
| `UstarReaders.VerifySoakArchive` | benchmarks/scripts/check_reliability_soak.py:2945-3070 | The soak verifier, under any short reads, returns the common outcome: locations exactly for archives of the expected length and digest that are canonical. |
| `UstarStream.Descriptor.Read` | benchmarks/scripts/check_release_performance.py:3200-3217 | A sequential read advances by what the host returns and feeds exactly those bytes to the archive digest. |
| `UstarStream.Consume` | benchmarks/scripts/check_release_performance.py:3242-3270 | Consuming a region returns its bytes, or fails exactly when the file ends or a region that must be zero is not. |
| `UstarStream.FooterAgrees` | benchmarks/scripts/check_release_performance.py:3387-3412 | Two zero blocks plus record fill, met in parts, are exactly the footer that the soak verifier reads at once. |
| `UstarStream.StreamHeader` | benchmarks/scripts/check_release_performance.py:3372-3470 | One turn of the header loop: end of archive, refusal, or the next inventory member with its data. |
| `UstarStream.VerifyPerformanceArchive` | benchmarks/scripts/check_release_performance.py:3334-3486 | The sequential verifier returns the same outcome as the soak verifier would under the same policy. |
| `UstarPolicies.ImageLength` | benchmarks/scripts/check_release_performance.py:3031-3039 | The archive length is the canonical size rounded up to 10,240. |
| `UstarPolicies.CanonicalSizeExactIff` | benchmarks/scripts/check_release_performance.py:3031-3039 | The function's result is the exact archive length if and only if two end blocks, one header block per member and the members' data blocks make a multiple of twenty blocks. |
| `UstarPolicies.CanonicalSizeFallsShort` | benchmarks/scripts/check_release_performance.py:3106-3119 | On the receipt inventory with receipts of one byte each the formula gives 36,864 and the archive has 40,960 bytes. |
| `UstarPolicies.EndsAgree` | benchmarks/scripts/check_python_free_release_e2e.py:349-357 | For every data end the end-to-end checker's rounded size is the data end plus the footer that both archive verifiers demand. |
| `UstarPolicies.MaximumRefusesNoCanonicalArchive` | benchmarks/scripts/check_reliability_soak.py:64-77 | The archive size bound is large enough for every canonical archive. |
| `UstarPolicies.ArchivesAcceptedIffWritten` | benchmarks/scripts/check_release_performance.py:337-373 | For the soak inventory and for the performance inventory: accepted exactly when written by the canonical writer, and the size bound refuses none. |
| `UstarContents.ImageIsLaidOut` | benchmarks/scripts/check_reliability_soak.py:2597-2614 | A file is the writer's image if and only if each member stands at its place as standard header, data and zeros to the next block, followed by at least two zero blocks up to the first possible record boundary. |
| `UstarContents.ListingIs` | benchmarks/scripts/check_reliability_soak.py:2597-2600 | The checksum listing is, for every other member in inventory order, digest, two blanks, name and newline. |
| `UstarContents.VerifiersAcceptFaultless` | benchmarks/scripts/check_release_performance.py:2931-3055 | Both verifiers accept, and slice out these payloads, exactly for such files whose first member is that listing. |
| `Publication.ApplyKeeps` | ci/release/bind_raw_c02_soak_v4.py:681-741 | Every step of any binder (start, lock, check, replay, create, short write, verify, link, confirm, fail, crash) keeps the protocol invariant. |
| `Publication.CheckKeeps` | ci/release/bind_raw_c02_soak_v4.py:600-631 | The preflight order establishes absence of all three names while the lock is held. |
| `Publication.CreateKeeps` | ci/release/provenance_v2_common.py:2058-2112 | Exclusive creation gives the creator a fresh empty file behind its own name and touches no other. |
| `Publication.LinkKeeps` | ci/release/provenance_v2_common.py:2126-2213 | The create-only hard link makes the marker the intent's inode. |
| `Publication.MarkersAreCompleteInEveryRun` | ci/release/bind_raw_c02_soak_v4.py:588-741 | In every reachable state of any number of interleaving, failing and crashing binders, a visible `.complete` shares its inode with a visible `.intent`, its text binds the digest of the visible manifest, and one invocation made all. |
| `Publication.OneWinnerPerName` | ci/release/bind_raw_c02_soak_v4.py:681-741 | At most one invocation per manifest name ever succeeds. |
| `Publication.ExistingOutputBarsLaterRuns` | ci/release/bind_raw_c02_soak_v4.py:600-631 | Once any of the three names exists, no invocation that had not passed its preflight ever gets past it, in every continuation. |
| `Publication.SettledOutputsNeverChange` | ci/release/bind_raw_c02_soak_v4.py:681-741 | Once the publisher is out by success, failure or crash, no continuation changes any of the three names or their contents. |
| `Publication.OutputsHaveOneMaker` | ci/release/bind_raw_c02_soak_v4.py:600-631 | In every reachable state all existing outputs of a name were made by one invocation, whether its publication is in flight, finished or broken off. |
| `Publication.OnlyTheMakerChangesOutputs` | ci/release/bind_raw_c02_soak_v4.py:681-741 | From the first output on the maker stays the maker in every continuation, and a continuation without its steps leaves all three names and their contents as they are. |
| `Publication.LaterInvocationsFailAndChangeNothing` | ci/release/bind_raw_c02_soak_v4.py:666-741 | In every reachable state with an output, publisher in flight or not, and after every continuation: no step of an invocation that had not passed its preflight by then, or begins later, changes any of the three names or gets it past its preflight. |
| `Publication.LeafTextsDiffer` | ci/release/bind_raw_c02_soak_v4.py:121-133 | For `.json` manifest names the three leaf names of all manifests are pairwise different texts. |
| `PublicationProgress.InvocationCanPublish` | ci/release/bind_raw_c02_soak_v4.py:681-741 | From every state with a free lock and free names, for every document, an invocation's own fifteen steps succeed and leave exactly three names and two files: the document, and the marker that binds it under both other names; lock, other names, files and invocations are as before. |
| `PublicationProgress.EveryRunCanGoOnToPublish` | ci/release/bind_raw_c02_soak_v4.py:681-741 | After every run, a new invocation on free names has a continuation in which it succeeds with its document, by its own steps when the lock is free and otherwise after the holder gave up. |
| `PublicationProgress.HeldLockFails` | ci/release/bind_raw_c02_soak_v4.py:588-597 | An invocation that finds the lock held fails at once and changes nothing else. |
| `PublicationProgress.PreflightFindsOutput` | ci/release/bind_raw_c02_soak_v4.py:600-631 | With any of the three outputs in place an invocation fails within its three checks, releases the lock, and changes no name and no file. |
| `PublicationProgress.CrashAtAnyMoment` | ci/release/bind_raw_c02_soak_v4.py:681-741 | An invocation that is not out can crash at any moment; its lock is then free and no name and no file has changed. |
| `PublicationProgress.ShortWriteAppends` | ci/release/provenance_v2_common.py:2058-2112 | A short write adds the next bytes of the text, as many as asked for or left. |
| `PublicationProgress.ShortWritesAddUp` | ci/release/provenance_v2_common.py:2058-2112 | Two short writes have the effect of one of their joint length. |
| `ExtensionRegistry.SpellInjective` | ci/check_extension_gates.py:25-29 | Registry, artifact, runtime-source and other paths are told apart by their text. |
| `ExtensionRegistry.ArtifactPaths` | ci/check_extension_gates.py:1733-1756 | The four artifact paths of an identifier, as text. |
| `ExtensionRegistry.SuffixIs` | ci/check_extension_gates.py:674-675 | A path's suffix is what its last component has from the last dot on, unless nothing stands before or after that dot. |
| `ExtensionRegistry.NoSuffix` | ci/check_extension_gates.py:674-675 | A path whose last component has no dot has no suffix. |
| `ExtensionRegistry.WellFormedIff` | ci/check_extension_gates.py:1688-1831 | A snapshot is well formed if and only if its registry reads as entries with the approved status, an allowed class, exactly their own existing artifact paths, a declared flag and valid artifacts; identifiers ascend strictly as texts; every file below an artifact directory belongs to an entry (an implementation to a linked one); and no flag is approved twice. |
| `ExtensionRegistry.TransitionFromOtherBases` | ci/check_extension_gates.py:1536-1560 | Over a base without registry a transition is accepted exactly when the new registry is empty; an unreadable base registry or one with a repeated identifier accepts nothing. |
| `ExtensionRegistry.CheckEntries` | ci/check_extension_gates.py:1714-1772 | The first pass accepts exactly entries with valid fields, canonical existing paths and distinct identifiers; its duplicate-path check never fires. |
| `ExtensionRegistry.CheckArtifacts` | ci/check_extension_gates.py:1794-1831 | The second pass accepts exactly when all artifacts pass and no flag is declared twice. |
| `ExtensionRegistry.ValidateRepository` | ci/check_extension_gates.py:1688-1835 | Returns the number of approved extensions exactly for a well-formed snapshot with, when a base is given, an accepted transition. |
| `ExtensionRegistry.NoAdmissionWithLink` | ci/check_extension_gates.py:1567-1592 | No accepted transition both admits and links. |
| `ExtensionRegistry.TransitionKinds` | ci/check_extension_gates.py:1527-1685 | Between well-formed snapshots a transition is accepted if and only if it is quiet, admits one unlinked entry where exactly the registry and its three artifacts differ, or links one entry where exactly its approved flag is new in the runtime sources; quiet and linking transitions leave every registered field and the bytes of every registered file equal, field by field and file by file. |
| `ExtensionRegistry.HistoryKeepsEntries` | ci/check_extension_gates.py:1562-1646 | Along every accepted history each entry of the first registry is still there with the same identifier, status, track, class and three paths; its proposal, plan and benchmark contract, and its implementation once linked, exist in both snapshots with equal bytes. |
| `ExtensionRegistry.HistoryGrowsByOne` | ci/check_extension_gates.py:1648-1685 | Entries plus links never shrink and grow by at most one per transition. |
| `ExtensionRegistry.FlagsAreApproved` | ci/check_extension_gates.py:1578-1592 | Every flag in the current sources was in the first sources or is the approved flag of a linked extension. |
| `ExtensionRegistry.LostFlagNeverReturns` | ci/check_extension_gates.py:1578-1592 | A linked extension's flag that has left the sources never comes back. |
| `RustLexer.TokenAt` | ci/check_extension_gates.py:503-584 | A token to blank always has a positive length inside the text, so the scanner terminates. |
| `RustLexer.EveryPositionExplained` | ci/check_extension_gates.py:503-585 | Every output character is a blanked one, or unchanged code that the scanner visited. |
| `RustLexer.CleaningOnlyBlanks` | ci/check_extension_gates.py:496-499 | Length and line breaks stay in place and a character changes only into a space. |
| `RustLexer.NoOpenersSurvive` | ci/check_extension_gates.py:503-584 | No double quote, line-comment opener or block-comment opener is left. |
| `RustLexer.CleaningIsIdempotent` | ci/check_extension_gates.py:489-585 | Cleaning cleaned text never raises and changes nothing. |
| `RustLexer.DepthCountsNesting` | ci/check_extension_gates.py:511-524 | Counting depth closes each level exactly where recursive descent does. |
| `RustLexer.BlockCommentsNest` | ci/check_extension_gates.py:511-527 | A block comment is blanked to its matching close, or raises when it has none. |
| `RustLexer.StringEndsAtFirstClose` | ci/check_extension_gates.py:549-568 | A string ends at its first quote after an even run of backslashes, or raises when there is none. |
| `RustLexer.CharLiteralsEndAtFirstClose` | ci/check_extension_gates.py:569-583 | A quote opens a literal exactly when one plain character and a quote follow, or a backslash, one character and then a first quote on the same line; the literal ends there, and every other quote stays. |
| `RustTokens.TokensAre` | ci/check_extension_gates.py:503-584 | Blanked from a position up to an end if and only if a line comment, nested block comment, raw string, string or character literal with exactly these characters begins there and ends there; kept exactly where none begins; everything else raises. |
| `RustTokens.CleanIffDivided` | ci/check_extension_gates.py:489-585 | Cleaning gives a text if and only if the source divides from left to right into such tokens, blanked but for their line breaks, and single characters of code, unchanged; without a division it raises. |
| `RustLexer.SkipBlockComment` | ci/check_extension_gates.py:512-522 | The depth loop computes the comment end. |
| `RustLexer.SkipString` | ci/check_extension_gates.py:551-564 | The escape loop computes the string end. |
| `RustLexer.SkipChar` | ci/check_extension_gates.py:570-582 | The character-literal lookahead computes the literal's end, or none for a lifetime. |
| `RustLexer.BlankRange` | ci/check_extension_gates.py:496-499 | Blanks exactly the range in place and keeps its line breaks. |
| `RustLexer.CleanInPlace` | ci/check_extension_gates.py:489-585 | The in-place scanner succeeds exactly when the text has a cleaning, and leaves it in the array. |
| `HttpChunked.HexRoundTrip` | benchmarks/scripts/check_python_free_release_e2e.py:953-956 | Every size has a hexadecimal spelling that reads back. |
| `HttpChunked.HexDigitIs` | benchmarks/scripts/check_python_free_release_e2e.py:953-956 | The digits are the sixteen of each case with their places as values. |
| `HttpChunked.EncodingDecodes` | benchmarks/scripts/check_python_free_release_e2e.py:946-966 | The encoding of every list of non-empty chunks decodes to their concatenation. |
| `HttpChunked.DecodedIsEncoding` | benchmarks/scripts/check_python_free_release_e2e.py:946-966 | Every accepted body is such an encoding of its result. |
| `HttpChunked.DecodesIffEncoded` | benchmarks/scripts/check_python_free_release_e2e.py:946-966 | Accepted with a result if and only if it encodes that result, up to the spelling of sizes. |
| `HttpChunked.DecodeChunked` | benchmarks/scripts/check_python_free_release_e2e.py:946-966 | The cursor loop computes the decoding and terminates on every body. |
| `ModelManifest.PrintIgnoresOrder` | benchmarks/scripts/check_python_free_release_e2e.py:251-272 | The printed manifest does not depend on the order in which the directory is walked. |
| `ModelManifest.ParseManifest` | benchmarks/scripts/check_python_free_release_e2e.py:279-301 | The parsing loop with its dictionary and previous path computes the parse. |
| `ModelManifest.SortedNamesAscend` | benchmarks/scripts/check_python_free_release_e2e.py:256 | Sorted distinct paths ascend strictly, which is what the parser demands. |
| `ModelManifest.PrintedParses` | benchmarks/scripts/check_python_free_release_e2e.py:251-301 | Print then parse: a manifest of distinct safe paths within the cap parses to exactly their digests by path. |
| `ModelManifest.ParsesIffListed` | benchmarks/scripts/check_python_free_release_e2e.py:279-301 | A text parses to a table if and only if it is ASCII within the cap, ends in a newline, and its lines are digest, two blanks and path of entries with strictly ascending safe paths that the table holds. |
| `ModelManifest.UnsafeIff` | benchmarks/scripts/check_python_free_release_e2e.py:293-295 | A path is unsafe exactly when it begins with a slash or has two dots between slashes or ends. |
| `ModelManifest.NameCharIs` | benchmarks/scripts/check_python_free_release_e2e.py:289 | The path alphabet. |
| `ModelManifest.HexCharIs` | benchmarks/scripts/check_python_free_release_e2e.py:289 | The digest alphabet. |
| `TextOrder.BeforeIff` | benchmarks/scripts/check_python_free_release_e2e.py:296 | One text comes before another exactly when it is a proper beginning of it or has the smaller letter where they part. |
| `Timestamps.TimestampsKeepOrder` | benchmarks/scripts/check_reliability_soak.py:1143-1170 | Nanoseconds order valid timestamps exactly as calendar, clock and fraction do. |
| `Timestamps.EpochIsItsReading` | benchmarks/scripts/check_reliability_soak.py:1143-1170 | The soak checker reads 1 January 1970 as the constant by which the two clocks differ. |
| `Timestamps.RunnerIsDockerShifted` | benchmarks/scripts/check_release_performance.py:2055-2067 | The performance checker's nanoseconds are the soak checker's less that constant, so spans and orders agree. |
| `Timestamps.ClockStartsAtZero` | benchmarks/scripts/check_reliability_soak.py:1143-1170 | 1 January of year 1 is zero. |
| `Timestamps.ClockSteps` | benchmarks/scripts/check_reliability_soak.py:1143-1170 | A second, a minute and an hour more add as many nanoseconds. |
| `Timestamps.CalendarSteps` | benchmarks/scripts/check_reliability_soak.py:1163-1165 | The day after, over the end of a month and of a year, adds 86,400 seconds. |
| `Timestamps.MonthLengths` | benchmarks/scripts/check_reliability_soak.py:1149-1160 | The months' lengths, with the Gregorian leap rule. |
| `Timestamps.NineDigits` | benchmarks/scripts/check_reliability_soak.py:1161-1162 | Nine fraction digits are milli-, micro- and nanoseconds. |
| `Timestamps.TrailingZero` | benchmarks/scripts/check_reliability_soak.py:1161-1162 | A shorter fraction is one with zeros behind it. |
| `Timestamps.OnlyZeroTimeRefused` | benchmarks/scripts/check_release_performance.py:2055-2059 | The performance checker refuses the zero time and no other valid timestamp. |
| `Safetensors.CoverTiles` | benchmarks/scripts/check_python_free_release_e2e.py:392-396 | Sorted intervals that hold every byte once are laid end to end. |
| `Safetensors.TilesCover` | benchmarks/scripts/check_python_free_release_e2e.py:392-396 | Intervals laid end to end hold every byte exactly once. |
| `Safetensors.AcceptedIffPartition` | benchmarks/scripts/check_python_free_release_e2e.py:388-396 | Accepted if and only if the list is non-empty, all intervals are non-empty and in range, and every data byte lies in exactly one, in whatever order they are listed. |
| `Safetensors.ValidateRanges` | benchmarks/scripts/check_python_free_release_e2e.py:371-396 | The header loop accepts exactly well-formed entries whose tensors partition the data section. |
| `DependencyGraph.Search.Visit` | ci/check_workspace_boundaries.py:895-907 | A visit finishes everything below the package and restores the stack, or there is a cycle. |
| `DependencyGraph.OrderExcludesCycles` | ci/check_workspace_boundaries.py:895-910 | A complete finishing order excludes cycles. |
| `DependencyGraph.BackEdge` | ci/check_workspace_boundaries.py:898-900 | Meeting a package that is being visited exhibits a cycle. |
| `DependencyGraph.CheckAcyclic` | ci/check_workspace_boundaries.py:895-910 | The search succeeds if and only if the graph is acyclic. |
| `DependencyGraph.Closure` | ci/check_workspace_boundaries.py:1089-1099 | The worklist computes exactly the transitive closure of the direct dependencies, on cyclic graphs too. |
| `DependencyGraph.PolicyClosesLookups` | ci/check_workspace_boundaries.py:495-514 | The policy's closure checks make every later lookup succeed. |
| `DependencyGraph.CheckClosure` | ci/check_workspace_boundaries.py:1089-1104 | The final comparison succeeds if and only if every approved package is reachable. |
| `Quantile.SortBelow` | benchmarks/scripts/check_native_profile_pair.py:825 | Raising observations raises every order statistic. |
| `Quantile.R7IgnoresOrder` | benchmarks/scripts/check_native_profile_pair.py:822-841 | The quantile does not depend on the order of observations. |
| `Quantile.R7WithinRange` | benchmarks/scripts/check_native_profile_pair.py:822-841 | Refused exactly without observations or outside the unit interval; otherwise the quantile never leaves any bounds of the observations. |
| `Quantile.R7AtEnds` | benchmarks/scripts/check_native_profile_pair.py:822-841 | Probabilities 0 and 1 give the least and the greatest observation. |
| `Quantile.R7Monotone` | benchmarks/scripts/check_native_profile_pair.py:822-841 | Raising the probability or any observation never lowers the quantile. |
| `Quantile.R7IsTypeSeven` | benchmarks/scripts/check_native_profile_pair.py:822-841 | The quantile is the observation `k` steps up the sorted list, or the mean of it and the next with weights `1 - f` and `f`, where the steps are `k + f`. |
| `Quantile.RankIs` | benchmarks/scripts/check_native_profile_pair.py:834 | The steps are `(n - 1) p`. |
| `ReducerRank.SlotOrderIsPermutation` | benchmarks/scripts/check_routing_fuzz_receipt.py:192-198 | A slot order is accepted exactly when it is a permutation of the slots. |
| `ReducerRank.ZeroIffIdentity` | benchmarks/scripts/check_routing_fuzz_receipt.py:244-249 | The inversion count is zero exactly for the identity. |
| `ReducerRank.SwapRemovesOne` | benchmarks/scripts/check_routing_fuzz_receipt.py:244-249 | Swapping an adjacent inverted pair removes exactly one inversion. |
| `ReducerRank.SwapsReachIdentity` | benchmarks/scripts/check_routing_fuzz_receipt.py:244-249 | The inversion count is the length of a chain of such swaps to the identity. |
| `ReducerRank.DescentEnds` | benchmarks/scripts/check_routing_fuzz_receipt.py:252-260 | No sequence of ranks falls forever. |
| `ReducerRank.LessIffLower` | benchmarks/scripts/check_routing_fuzz_receipt.py:396-397 | On valid descriptors the tuple order is the order of one natural number. |
| `ReducerRank.ShrinkingChainIsShort` | benchmarks/scripts/check_routing_fuzz_receipt.py:252-260 | A strictly shrinking chain of valid descriptors has at most 798 members. |
| `ReducerRank.ReductionsLowerRank` | benchmarks/scripts/check_routing_fuzz_receipt.py:252-260 | Fewer slots, no cancellation, an earlier one, and an adjacent inverted swap in either order each lower the rank. |
| `ReducerRank.RankCompares` | benchmarks/scripts/check_routing_fuzz_receipt.py:252-260 | A rank that is not lower has at least as many slots, with equal slots no missing or earlier cancellation, and with equal cancellations no fewer inversions. |
| `RawDerivation.CompactIsFull` | benchmarks/scripts/check_release_performance.py:3489-3626 | The derivation from compact rows equals the one from full payloads in every shared field and every refusal. |
| `RawDerivation.SameColumns` | benchmarks/scripts/check_release_performance.py:1752-1775 | Picking values per run and joining gives what joining the requests and picking gives. |
| `RawDerivation.PayloadOrderIsIrrelevant` | benchmarks/scripts/check_release_performance.py:1660-1802 | Both derivations are invariant under permuting the payloads. |
| `RawDerivation.ReorderedIdentity` | benchmarks/scripts/check_native_profile_pair.py:681-691 | Request indices exactly 0..n-1 leave one identity list, whatever the order of the requests. |
| `RawDerivation.RequestOrderIsIrrelevant` | benchmarks/scripts/check_native_profile_pair.py:642-647 | Both derivations are invariant under permuting the requests inside each run, up to the recorded digests. |
| `RawDerivation.DerivedFields` | benchmarks/scripts/check_release_performance.py:1660-1802 | Over five payloads in pair order a result is derived if and only if all runs are valid candidates with different ids, share source, environment, workload and identity, and the result holds these, the two sums of five, the 0.95 quantiles of time to first token and per token, the medians of latency over all requests and of the five throughputs, and the listed runs. |
| `RawDerivation.DerivedHasOrder` | benchmarks/scripts/check_release_performance.py:1660-1700 | Nothing is derived from payloads whose pair indices are not 1 to 5. |
| `RawDerivation.IdentityAt` | benchmarks/scripts/check_native_profile_pair.py:681-691 | The identity of a valid run lists each request at its index. |

## Left out

- JSON, TOML and regular-expression parsing, closed-key checks, literal fields and the Docker,
  GPU, proposal, contract and implementation documents: each check is settled by one branch.
  Their results enter as decoded values or as one predicate (`batchShapesValid`, `artifactsOk`, `fieldsOk`).
- The batch-shape table inside a sample is one decoded fact, and so is whether a child process
  looks like Python.
- The threshold column of report rows and the report fields copied from bound documents.
- Floating-point rounding: means, slopes, ratios and quantiles are over reals.
- File modes, link counts, symbolic links, `fstat` stability, `fsync` and directory durability;
  held descriptors read one unchanging file. The digest re-check of members that are read again
  is therefore always satisfied and not modelled.
- The UTF-8 decoder is a parameter that inverts the encoding; what it does on other bytes is left
  open. The digest check at the end of the line pass is not modelled.
- Header number spellings other than octal digits: such headers are unreadable in the model. They
  are refused in any case, because both verifiers compare the header with the canonical one.
- UstarReaders.VerifySoakArchive: re-reads the checksum listing where the source keeps the bytes it
  has streamed.
- UstarStream.VerifyPerformanceArchive: re-reads the checksum listing in the same way.
- Publication: processes that ignore the lock. The classification of an error after the link became
  visible is not modelled; such an invocation is failed in the model.
- SoakAgreement.Replay: is stated for manifests that passed manifest validation (distinct scenario
  ids, positive durations, a hexadecimal golden digest, a tail fraction in (0, 1]).
- ExtensionRegistry: a snapshot is a clean checkout, so tracked files and files on disk coincide.
- ExtensionRegistry.ValidateRepository: sorting of identifiers is compared pairwise, which is what
  equality with the sorted set of distinct identifiers means.
- DependencyGraph.CheckAcyclic: asks for a closed graph; the source has by then compared every
  dependency set with the reviewed one.
- RustLexer: decoding the bytes, and the search for test declarations in the cleaned text.
- Timestamps: the regular expressions that cut a timestamp into its fields.
- The chunked comparison of two archive members and directory walking.
- `benchmarks/live`, the v2 binder, packaging wrappers and the bundle builder.
