# Canvas Agent: verified models

This project models the parts of Canvas Agent whose correctness does not show in any
one function, and proves what the parts promise together. Each module follows one
component of the repository:

- **Codex context pipeline.** `CommittedContext` renders a committed working set into a
  bundle and traces, `CodexPrompt` prints it, `CodexReconstruction` reads the prompt
  back, `CodexCwd` settles what the working directory can do to that, and
  `ContextParity` compares what the model saw with what was intended. `JsonText` holds
  JSON string quoting (section 7 of RFC 8259), `StableJson` the canonical text under the
  request and bundle hashes, `SourceReference` the percent-encoding (section 2.1 of RFC
  3986) of UTF-8 (section 3 of RFC 3629) behind source references. `RenderLaws`,
  `ReconstructionLaws` and `ParityLaws` say on the data itself what is rendered, joined
  and reported, and `JsonReader` reads the canonical text back.
- **Live-binding checkpoint protocol.** `LiveDriver` is the driver as an object with a
  failure possible at every await; `LiveLog` is the strict accounting of its log,
  `LiveProjection` the lenient per-run reader, `LiveProtocol` what each append keeps,
  `LiveTransport` the one-shot transport of a call, `CarriedRemovals` the pair
  fingerprints and the composition basis, `Dose` the dose projection and aggregation of
  the recorded rows, `UnknownReasons` the merge of their unknown-reason counts.
  `LiveLogLaws` and `ProjectionLaws` state both readers on the log, `DoseLaws` the dose
  on the rows.
- **Worker dispatch.** `Worker` is the dispatch as a step machine: a step runs from one
  await to the next, dispatches interleave freely and signals abort at any moment.
  `ClaimStores` is the claim store object. `WorkerAnswers` reads the result of a
  dispatch off the answers it was given.
- **Local CLI runner.** `LocalCli` holds the output accumulator, the line observer and
  the termination machine as objects; `ToolBudget` is the tool-call budget on top.
- **Offline adjudicator.** `SignFlip`, `Analysis`, `Adjudication` and
  `AdjudicationLaws`, over exact integers and reals. `Medians` says what a median is,
  `DecisionLaws` when each decision is made.
- **Duplicate-read policy.** `DuplicateRead` is the policy, `DuplicateScan` the scanner
  that feeds it; `DuplicateReadLaws` and `DuplicateScanLaws` state both on the messages.

`Texts` (JavaScript strings as UTF-16 code units), `Sequences`, `Sorting`, `Sums`,
`Filters` and `Wrappers` are the shared vocabulary.

Modelling conventions. A thrown error is `None` or `Err`; where the model keeps which
error it is, the constructor says so. SHA-256 is a function parameter, injective where a
result needs it. Git, the file system, clocks, providers, the sink and the tool executor
are adversarial: their answers are arbitrary inputs. Loops over mutable state are methods
proved equal to a specification function; the results are lemmas about that function and
invariants of the objects. The modules whose names end in `Laws`, with `WorkerAnswers`,
`JsonReader` and `Medians`, state what those functions compute in other terms: on the
entries, messages, log events, rows, pairs or answers themselves.

Four promises fail of the code as written, and each is settled with its condition:

- The working directory is printed before the context. Prompts are read back exactly, for
  every bundle, if and only if the working directory does not contain the context marker
  line (`CwdDecides`). One that does can hide every section (`CwdCanHideContext`) or replace
  the contents the reader returns (`CwdCanForgeContext`); a single bundle may still happen
  to be read back, but no two bundles with the same traces are (`CwdConfuses`). No working
  directory without a newline contains the marker (`NewlineFreeCwd`). Given that, a prompt
  is read back exactly when no source reference contains a line terminator
  (`ReconstructsExactly`).
- `stableStringify` prints an `undefined` array element as nothing. Two well-formed values
  share a text exactly when they become the same value once every `[undefined]` array is
  emptied (`StableExactly`); so the text is a complete invariant of the values without such
  an array (`StableCanonical`), JSON values among them, and every value with one collides
  with a different one (`UndefinedElementCollides`).
- White space that `trim` drops and JSON refuses hides a tool event from the budget but
  not from the report (`ForeignSpaceEvadesBudget`). The streamed ids cover the reported
  ones, whatever the JSON parser does beyond the grammar, if and only if every line is
  spaced as JSON allows, is blank, or has a copy in the output that is
  (`CoverageExactly`); for one parser, line by line, `LineCovered` says when.
- The merge of unknown-reason counts starts from an ordinary object, so a reason named
  like a property every object inherits turns into a text and the aggregation throws
  (`InheritedReasonRejects`). A projected leg is aggregated if and only if none of its
  reasons is such a name (`LegDose`).

Two boundaries are stated beside the results they limit: an empty chunk would set the
truncation flag with nothing cut, which a child's output stream never delivers
(`EmptyChunkTruncates`), and the policy would drop both of two reads that anchor each
other (`MutualAnchorsLoseBoth`), which the real scanner never returns: it gives one entry
per path, anchored at the newest duplicated read, so with its entries every dropped read
leaves a copy in the target (`CopyAlwaysSurvives`).

## Model

| member | source | states |
|---|---|---|
| `CodexPrompt.BuildPrompt` | packages/worker-runtime/src/codex-agent-adapter.ts:362-395 | pushing the lines one by one and joining them gives preamble, context line, one quoted section per item and the trailer |
| `JsonText.QuoteRoundTrip` | packages/worker-runtime/src/codex-agent-adapter.ts:379-382 | every string, lone surrogates included, is read back from its JSON quoting |
| `JsonText.QuotePrefix` | packages/worker-runtime/src/codex-agent-adapter.ts:379-382 | a quoted string determines where it ends: equal continuations mean equal strings and equal rests |
| `JsonText.EscapeExact` | packages/worker-runtime/src/codex-agent-adapter.ts:379-382 | a unit is quoted by its two-unit escape where one names it, as itself where it is printable and no surrogate, and by its code otherwise |
| `CodexReconstruction.HeaderRoundTrip` | packages/codex-context-integration/src/codex-prompt-reconstruction.ts:63-84 | the header expression recovers position, type, authority, priority and source reference of every printable item |
| `CodexReconstruction.SectionRoundTrip` | packages/codex-context-integration/src/codex-prompt-reconstruction.ts:63-102 | a printed section parses back to its segment whatever its content is |
| `CodexReconstruction.SplitBody` | packages/codex-context-integration/src/codex-prompt-reconstruction.ts:104-121 | splitting the body at section openings finds exactly the printed sections, fake headers in contents notwithstanding |
| `CodexReconstruction.StartFound` | packages/codex-context-integration/src/codex-prompt-reconstruction.ts:104-121 | the context marker is found where it was printed if and only if the working directory does not contain it |
| `CodexReconstruction.CwdCanHideContext` | packages/codex-context-integration/src/codex-prompt-reconstruction.ts:104-121 | a working directory opening with both markers makes parsing fail for every list of items |
| `CodexReconstruction.EndFound` | packages/codex-context-integration/src/codex-prompt-reconstruction.ts:104-121 | the end marker is found right after a body without blank lines |
| `CodexReconstruction.PromptRoundTrip` | packages/codex-context-integration/src/codex-prompt-reconstruction.ts:104-121 | parsing a printed prompt returns every section with its content, in order |
| `CodexReconstruction.ReconstructModelVisibleContext` | packages/codex-context-integration/src/codex-prompt-reconstruction.ts:147-200 | the reconstruction as code equals the specification, error cases included |
| `CodexReconstruction.CollectEntries` | packages/codex-context-integration/src/codex-prompt-reconstruction.ts:161-188 | the loop over segments with its set of seen positions equals the recursive collection |
| `CodexReconstruction.TraceMapSize` | packages/codex-context-integration/src/codex-prompt-reconstruction.ts:147-160 | the position map keeps every trace exactly when trace positions are distinct |
| `ReconstructionLaws.FromSegmentsExact` | packages/codex-context-integration/src/codex-prompt-reconstruction.ts:147-200 | parsed sections are joined with traces exactly when trace positions are distinct, no section repeats a position, lacks a trace or differs from it in one of four fields, and there are as many of each; otherwise the error is that of the first failure |
| `ReconstructionLaws.JoinedExactly` | packages/codex-context-integration/src/codex-prompt-reconstruction.ts:161-200 | the entries of an accepted reconstruction are its sections, each joined with its own trace and content, sorted by position |
| `CodexReconstruction.ReconstructPrinted` | packages/codex-context-integration/src/codex-prompt-reconstruction.ts:147-200 | reconstruction of a printed prompt returns the described entries in position order |
| `CodexReconstruction.ReconstructNeedsPlainRefs` | packages/codex-context-integration/src/codex-prompt-reconstruction.ts:63-200 | any successful reconstruction, of any text, had traces whose source references hold no line terminator |
| `CodexReconstruction.ReconstructsExactly` | packages/codex-context-integration/src/codex-prompt-reconstruction.ts:147-200 | a printed prompt is reconstructed if and only if no source reference holds a line terminator, and then exactly |
| `CodexCwd.NewlineFreeCwd` | packages/codex-context-integration/src/codex-prompt-reconstruction.ts:104-121 | a working directory without a newline does not contain the marker |
| `CodexCwd.CwdCanForgeContext` | packages/codex-context-integration/src/codex-prompt-reconstruction.ts:104-200 | a working directory carrying a context of its own makes the reader return that context for every list of items |
| `CodexCwd.InterludeFails` | packages/codex-context-integration/src/codex-prompt-reconstruction.ts:63-121 | a body that runs over the lines between working directory and context cannot be parsed |
| `CodexCwd.MisreadOrIgnored` | packages/codex-context-integration/src/codex-prompt-reconstruction.ts:104-121 | with the marker in the working directory a prompt fails to parse or parses the same whatever its sections are |
| `CodexCwd.CwdConfuses` | packages/codex-context-integration/src/codex-prompt-reconstruction.ts:104-200 | with the marker in the working directory no two bundles with the same traces are both read back |
| `CodexCwd.CwdDecides` | packages/codex-context-integration/src/codex-prompt-reconstruction.ts:104-200 | every printable bundle is read back exactly if and only if the working directory does not contain the marker |
| `CommittedContext.SortedEntries` | packages/codex-context-integration/src/codex-committed-context-adapter.ts:97-123 | entries come back sorted by position, or the position error, as specified |
| `CommittedContext.RenderCommitted` | packages/codex-context-integration/src/codex-committed-context-adapter.ts:184-234 | the rendering as code equals the specification, each refusal included; what that is on the entries is `RenderExact`, `RenderAccepts` and `RenderRefuses` |
| `CommittedContext.RenderAll` | packages/codex-context-integration/src/codex-committed-context-adapter.ts:187-218 | the loop pushing items and traces equals the recursive rendering and stops at the first refusal |
| `CommittedContext.RenderShape` | packages/codex-context-integration/src/codex-committed-context-adapter.ts:125-234 | a plan has one item and one agreeing trace per entry, printable words, and the committed contents |
| `RenderLaws.RenderExact` | packages/codex-context-integration/src/codex-committed-context-adapter.ts:125-234 | every item and trace of a plan has the type, authority and reference that the resolver gave its entry, the priority, token estimate, content and provenance of the entry, and the hash of the content; entries stand at positions 0, 1, 2 and so on |
| `RenderLaws.RenderAccepts` | packages/codex-context-integration/src/codex-committed-context-adapter.ts:97-234 | a working set is rendered if and only if it has 1 to 256 entries at the positions from 0 on, each with its source version, materialized content and known metadata, one a TASK_INSTRUCTION at P0, in at most 4 MiB of canonical text |
| `RenderLaws.RenderRefuses` | packages/codex-context-integration/src/codex-committed-context-adapter.ts:97-234 | otherwise the error is that of negative or repeated positions, of the first entry in position order that is refused, or of the bundle |
| `CommittedContext.RenderedPlanReconstructs` | packages/codex-context-integration/src/codex-prompt-reconstruction.ts:147-200 | every rendered plan, printed, is reconstructed exactly when its references are plain, with every content in order |
| `CommittedContext.RoundTripParity` | packages/codex-context-integration/src/codex-prompt-reconstruction.ts:147-221 | render, print, reconstruct: every content is shown in position order and parity against the intended context passes, whatever the contents hold |
| `CommittedContext.PassMeansSameContents` | packages/context-conformance/src/canonical.ts:110-168 | with an injective hash a passing comparison means the observed contents are the intended ones, in order |
| `ContextParity.CompareContextParity` | packages/context-conformance/src/canonical.ts:193-289 | the mismatches pushed by the code are those of the specification, and it passes exactly when counts and entries agree; which mismatches these are is `MismatchesExact` |
| `ContextParity.CompareEntries` | packages/context-conformance/src/canonical.ts:236-283 | the index loop pushes the mismatches of each position in order |
| `ContextParity.PassExactly` | packages/context-conformance/src/canonical.ts:193-289 | parity passes if and only if the payload counts, when both given, are equal and the entries are equal in every field |
| `ParityLaws.MismatchesExact` | packages/context-conformance/src/canonical.ts:193-289 | a mismatch is reported if and only if it is the difference of the two entries at one index, by source, representation, position or rendering, or one of too few, too many and reordered |
| `ParityLaws.OrderExact` | packages/context-conformance/src/canonical.ts:220-235 | for identities free of the joining separator, reordered means the same identities in another order |
| `StableJson.StableCanonical` | packages/worker-runtime/src/validation.ts:69-89 | two well-formed values without an `[undefined]` array have equal canonical text if and only if they are equal up to key order and undefined-valued keys, at every depth |
| `StableJson.StableExactly` | packages/worker-runtime/src/validation.ts:69-89 | any two well-formed values have equal text if and only if they are the same once every `[undefined]` array is emptied |
| `StableJson.CollapseStable` | packages/worker-runtime/src/validation.ts:69-89 | emptying `[undefined]` arrays at any depth leaves the text unchanged |
| `StableJson.SameStable` | packages/worker-runtime/src/validation.ts:69-89 | reordering keys and dropping undefined-valued ones leaves the text unchanged |
| `StableJson.StablePrefix` | packages/worker-runtime/src/validation.ts:69-89 | a canonical text determines where it ends and which value it is |
| `JsonReader.StableReadsBack` | packages/worker-runtime/src/validation.ts:69-89 | the canonical text of a JSON value is JSON without white space: read by the grammar it is the same value, nothing is left over, and the keys of every object are in ascending order |
| `StableJson.UndefinedElementCollides` | packages/worker-runtime/src/validation.ts:69-89 | every value that holds an `[undefined]` array has the text of a different value, and only such a value differs from its emptied form |
| `SourceReference.Utf8RoundTrip` | packages/contracts/src/source-reference.ts:17-29 | every scalar value is read back from its UTF-8 octets |
| `SourceReference.DecodeEncode` | packages/contracts/src/source-reference.ts:17-29 | decoding undoes component encoding for every text that encodes |
| `SourceReference.EncodableExactly` | packages/contracts/src/source-reference.ts:17-22 | a text encodes if and only if its surrogates are paired |
| `SourceReference.DecodeEncodePath` | packages/contracts/src/source-reference.ts:17-29 | segment-wise encoding of a path is undone by segment-wise decoding |
| `SourceReference.ParsePrint` | packages/contracts/src/source-reference.ts:87-128 | a printed expressible reference parses back to itself |
| `SourceReference.ParseInvertsPrint` | packages/contracts/src/source-reference.ts:87-128 | a string parses to a reference if and only if the reference is expressible and the string is its printed form |
| `SourceReference.OneSpelling` | packages/contracts/src/source-reference.ts:98-128 | no reference has two accepted spellings |
| `SourceReference.PrintSpells` | packages/contracts/src/source-reference.ts:87-96 | the three kinds of reference are printed under `task-spec://`, `node://` and `repo://` |
| `SourceReference.CanonicalExactly` | packages/contracts/src/source-reference.ts:8-15 | a path is canonical if and only if, followed segment by segment from the root, it leads to itself, and it has no drive, backslash or NUL |
| `LiveLog.DeriveCalls` | research/context-benchmarks/src/c1-call-accounting.ts:25-85 | the acceptor loop accepts and rejects exactly as specified and yields the same call records; on the log itself that is `AccountExact` |
| `LiveLogLaws.AccountExact` | research/context-benchmarks/src/c1-call-accounting.ts:25-85 | a log is accepted if and only if its ordinals have no gap and every event fits what the log before it says of its call; the calls are then the permitted ones, in order, with the receipt, tools and record of the log |
| `LiveLogLaws.TotalsExact` | research/context-benchmarks/src/c1-call-accounting.ts:106-135 | each of the eight totals is the sum of its own quantity over the calls |
| `LiveLog.TotalsSplit` | research/context-benchmarks/src/c1-call-accounting.ts:106-135 | every total of all calls is the sum over completed and incomplete legs |
| `LiveLog.AccountedToolsFit` | research/context-benchmarks/src/c1-call-accounting.ts:60-72 | in every accepted log each recorded tool answers its own request, once, after a receipt |
| `LiveLog.ExecutionsWithinRequests` | research/context-benchmarks/src/c1-call-accounting.ts:86-135 | recorded tool executions never exceed tool requests |
| `LiveProjection.ProjectCheckpoints` | research/context-benchmarks/src/c1-e0-live-binding.ts:958-1032 | the projection as code equals the specification |
| `LiveProjection.ScanCheckpoints` | research/context-benchmarks/src/c1-e0-live-binding.ts:962-1005 | the grouping loop with its three counters equals the fold over the log |
| `LiveProjection.SplitGroups` | research/context-benchmarks/src/c1-e0-live-binding.ts:1006-1023 | the pass over sorted groups separates recorded from partial calls |
| `LiveProjection.Agreement` | research/context-benchmarks/src/c1-e0-live-binding.ts:958-1005 | on every accepted log of the driver's shape the groups of a run are its accounted calls, in order and field by field |
| `LiveProjection.ReadersAgree` | research/context-benchmarks/src/c1-e0-live-binding.ts:958-1071 | permits, receipts, tool events, tool requests, tool executions and recorded calls of the projection equal the strict totals, and its incomplete ordinals are the sorted unrecorded ones |
| `ProjectionLaws.ProjectionExact` | research/context-benchmarks/src/c1-e0-live-binding.ts:958-1032 | on every log, accepted or not: completed and partial calls are the touched calls with and without recorded evidence, each by ascending ordinal, and hold exactly what the events of the call say |
| `ProjectionLaws.CountersExact` | research/context-benchmarks/src/c1-e0-live-binding.ts:969-1005 | the three counters are the numbers of permit, receipt and tool events of the run |
| `LiveProtocol.PermitStep` | research/context-benchmarks/src/c1-live-binding.ts:1237-1244 | an acknowledged permit is accepted by the accounting exactly while the opened run ids stay distinct |
| `LiveProtocol.CallEventStep` | research/context-benchmarks/src/c1-live-binding.ts:1319-1416 | receipt, tool and recorded events step the call that the accounting holds last |
| `LiveProtocol.GapRejected` | research/context-benchmarks/src/c1-live-binding.ts:541-542 | if a failed append were followed by an acknowledged one the log would be rejected, whatever follows |
| `LiveDriver.ValidateModelResponse` | research/context-benchmarks/src/c1-live-binding.ts:259-333 | the validation loops accept exactly responses with distinct stable requests and distinct executions that match them |
| `LiveDriver.CommitCarry` | research/context-benchmarks/src/c1-live-binding.ts:1418-1441 | the carry after a call holds an id exactly when it is not bound and was carried or removed as a pair; it fails exactly on an ambiguous pair |
| `LiveDriver.Driver.AppendCheckpoint` | research/context-benchmarks/src/c1-live-binding.ts:1113-1131 | the ordinal always advances; the log grows by the checkpoint exactly when the sink acknowledges, the file also when the line was written before the failure |
| `LiveDriver.Driver.RecordTool` | research/context-benchmarks/src/c1-live-binding.ts:1325-1348 | succeeds exactly for a new execution of a matching request that is acknowledged, and keeps the log acceptable |
| `LiveDriver.Driver.RecordReports` | research/context-benchmarks/src/c1-live-binding.ts:509-557 | all reports are recorded in order or the first failure ends the loop |
| `LiveDriver.Driver.RecordTools` | research/context-benchmarks/src/c1-live-binding.ts:1349-1407 | with a tool executor a call that gets past this has one recorded execution per request |
| `LiveDriver.Driver.RunCall` | research/context-benchmarks/src/c1-live-binding.ts:1172-1441 | a call succeeds if and only if its environment goes through and every append is acknowledged; it adds exactly one recorded call, whose receipt says the usage, requests, removed and bound keys, hashes and change flag that were answered, carries both keys of every unrestored pair of the carry, and records each execution once |
| `LiveDriver.Driver.RunLeg` | research/context-benchmarks/src/c1-live-binding.ts:1133-1508 | every failure inside the try block latches the study; a throw before it changes nothing; a latched study appends nothing; under an acknowledging sink a leg completes if and only if some call asks to stop and all before it go on, and then adds exactly its recorded calls, each as it was answered |
| `LiveDriver.CompletedCharges` | research/context-benchmarks/src/c1-live-binding.ts:1237-1441 | a completed leg adds to the accounting exactly the tokens its responses reported, their tool requests, and the executions of its calls |
| `LiveDriver.ModelCallIdsApart` | research/context-benchmarks/src/c1-live-binding.ts:1186-1200 | two calls of a leg have different model call ids |
| `LiveDriver.GoodReconciles` | research/context-benchmarks/src/c1-call-accounting.ts:25-135 | a driver's log is accepted, within its requests and read alike by both readers, incomplete ordinals included, if and only if the run ids of its opened legs are distinct |
| `LiveDriver.RunStudy` | research/context-benchmarks/src/c1-live-binding.ts:1077-1508 | for every sequence of legs and every failure pattern the acknowledged log and the durable file, at most one line ahead, are gap-free, each is accepted if and only if the run ids opened in it are distinct, and distinct run ids suffice for both |
| `LiveTransport.Transport.Send` | research/context-benchmarks/src/c1-live-binding.ts:738-799 | every attempt consumes the capture; a request goes out exactly with messages, envelope, no kill switch and budget, and attempts are sent plus blocked |
| `LiveTransport.Transport.Attach` | research/context-benchmarks/src/c1-live-binding.ts:705-736 | attaches exactly once, to a pending capture, with the frozen envelope |
| `LiveTransport.Transport.TakeCapture` | research/context-benchmarks/src/c1-live-binding.ts:690-703 | takes a valid capture exactly when none is pending |
| `LiveTransport.CaptureAndSend` | research/context-benchmarks/src/c1-live-binding.ts:650-804 | however often it is sent, one capture gives at most one request, with its own messages |
| `CarriedRemovals.ToolPairFingerprint` | research/context-benchmarks/src/c1-carried-removals.ts:13-35 | the counting filter hashes exactly the pair's messages and refuses anything but one call and one result |
| `CarriedRemovals.FingerprintSurvivesGrowth` | research/context-benchmarks/src/c1-carried-removals.ts:13-35 | a conversation that goes on without touching the pair keeps its fingerprint |
| `CarriedRemovals.CompositionBasis` | research/context-benchmarks/src/c1-carried-removals.ts:38-66 | accepts exactly removals that are restored or untouched and proven, and carries both keys of each unrestored pair |
| `CarriedRemovals.BasisExact` | research/context-benchmarks/src/c1-carried-removals.ts:38-66 | the basis is accepted if and only if each removed pair is retained with both keys, or with neither while its transition is named and its fingerprint unchanged; the carried keys are those of removed pairs that are not retained |
| `CarriedRemovals.BasisFeedsCarry` | research/context-benchmarks/src/c1-carried-removals.ts:43-65 | the carried keys are whole pairs of the carry, none retained, exactly the unrestored ones |
| `Dose.LifecyclePairIds` | research/context-benchmarks/src/c1-e0-live-binding.ts:431-457 | accepts exactly key lists whose tool keys come with their partners, and returns one id per pair |
| `Dose.ProjectDose` | research/context-benchmarks/src/c1-e0-live-binding.ts:467-525 | the loop with its set of seen removals equals the specification |
| `Dose.CarrySeen` | research/context-benchmarks/src/c1-live-binding.ts:1418-1441 | whatever the driver carries was removed by an earlier row of the leg |
| `Dose.TwoKeysPerPair` | research/context-benchmarks/src/c1-e0-dose.ts:82-95 | there are two keys per removed pair exactly when nothing but pairs is removed |
| `Dose.ProjectionAccepts` | research/context-benchmarks/src/c1-e0-dose.ts:20-113 | for every leg without initial carry the projection accepts exactly rows that remove whole pairs and have well-formed hashes agreeing with the change flag and well-formed unknown-reason counts, under a non-empty pair id; subset and disjointness never reject |
| `Dose.AggregateDose` | research/context-benchmarks/src/c1-e0-dose.ts:194-289 | accepts exactly the observations specified and returns their summary, every counter, ratio and merged reason included |
| `Dose.SummaryAccepted` | research/context-benchmarks/src/c1-e0-dose.ts:136-190 | for valid observations the summary schema rejects only when the distinct keys are not two per distinct pair or a reason is an inherited name; sizes, ratios and doubled exposures never reject |
| `Dose.AggregatePermutes` | research/context-benchmarks/src/c1-e0-dose.ts:194-289 | the aggregate does not depend on the order of the observations |
| `Dose.PeakIsLargest` | research/context-benchmarks/src/c1-e0-dose.ts:131-134 | the peak exists exactly when there are values and all are available, is one of them and none is above it |
| `Dose.InheritedReasonRejects` | research/context-benchmarks/src/c1-e0-dose.ts:256-261 | a valid observation with a reason named `toString` cannot be aggregated |
| `UnknownReasons.MergeUnknowns` | research/context-benchmarks/src/c1-e0-dose.ts:256-261 | the nested loop over rows and entries equals the fold over rows |
| `UnknownReasons.MergeExact` | research/context-benchmarks/src/c1-e0-dose.ts:256-261 | the merge holds exactly the mentioned reasons, each with its total over the rows unless the name is inherited |
| `UnknownReasons.MergeAccepted` | research/context-benchmarks/src/c1-e0-dose.ts:256-289 | the schema accepts the merge of accepted records exactly when no reason is an inherited name |
| `Dose.NewCallsCountPairs` | research/context-benchmarks/src/c1-e0-dose.ts:211-229 | in any accepted aggregation the new-removal calls are as many as the distinct first-removed pairs |
| `Dose.LegDose` | research/context-benchmarks/src/c1-e0-dose.ts:194-289 | the aggregation accepts a projected leg exactly when no unknown reason is an inherited name, and its new-removal calls equal the number of distinct removed pairs |
| `DoseLaws.ObservationExact` | research/context-benchmarks/src/c1-e0-live-binding.ts:467-525 | every observation of an accepted projection says what its row says: which pairs it removes, which of them no earlier row removed, which it carries, and every hash, flag and count |
| `DoseLaws.LegSummary` | research/context-benchmarks/src/c1-e0-dose.ts:194-289 | the summary of a leg holds exactly the pairs some row removed and counts each as a new removal once, two keys and two exposures per pair |
| `DoseLaws.SumsOfLeg` | research/context-benchmarks/src/c1-e0-dose.ts:230-289 | calls, changed calls, carried removals, exposures, rehydrations, protections, conflicts and the exposure ratio are sums over the rows |
| `DoseLaws.UnknownsOfLeg` | research/context-benchmarks/src/c1-e0-dose.ts:256-261 | each unknown reason of a leg is counted with its total over the calls |
| `DoseLaws.PeakOfLeg` | research/context-benchmarks/src/c1-e0-dose.ts:126-134 | the peak is the largest number of pairs a row leaves out; tokens and bytes are unavailable |
| `ClaimStores.ClaimStore.Claim` | packages/worker-runtime/src/claim.ts:12-18 | grants exactly ids that the operations so far do not leave claimed, and leaves the id claimed |
| `ClaimStores.ClaimStore.Release` | packages/worker-runtime/src/claim.ts:19-21 | reports whether the operations so far left the id claimed and leaves it unclaimed |
| `ClaimStores.ClaimStore.IsClaimed` | packages/worker-runtime/src/claim.ts:22-24 | answers for the whole history: the last claim or release of the id was a claim |
| `ClaimStores.GrantsNeedRelease` | packages/worker-runtime/src/claim.ts:9-26 | between two granted claims of one id there is a release of it |
| `Worker.StartDispatch` | packages/worker-runtime/src/worker.ts:94-139 | the first step taken on the store object is the first step of the machine |
| `Worker.AdvanceStep` | packages/worker-runtime/src/worker.ts:232-391 | every step of the main section keeps the outcome invariant and only raises the outcome |
| `Worker.ResumeFrame` | packages/worker-runtime/src/worker.ts:133-209 | only the dispatch that was granted the claim touches its recovery record and its worktree |
| `Worker.StepKeeps` | packages/worker-runtime/src/worker.ts:91-457 | every event of every dispatch keeps the global invariant |
| `Worker.SingleOwner` | packages/worker-runtime/src/worker.ts:133-139 | in every interleaving at most one dispatch per execution request ever gets past the claim |
| `Worker.RecoveryExact` | packages/worker-runtime/src/worker.ts:393-456 | a dispatch that returns after its running record leaves and returns the recovery record exactly when it did not succeed, with the same cleanup flag, and leaves its worktree exactly when cleanup did not succeed |
| `WorkerAnswers.OutcomeExact` | packages/worker-runtime/src/worker.ts:224-456 | by the answers a dispatch was given and nothing else: it is cancelled exactly when the last check saw an abort or the agent was cancelled; it succeeds exactly when not and the agent and the export did not throw, HEAD, branch, staging and diff check were good, every command ran in time and the agent claimed no changes it did not make; its reason is the last answer that spoke against it, its patch the exported one, its recovery flag the answer of the cleanup |
| `WorkerAnswers.EarlyExact` | packages/worker-runtime/src/worker.ts:91-209 | a dispatch that never reached its main section returns what its last answer says |
| `WorkerAnswers.RejectsExact` | packages/worker-runtime/src/worker.ts:91-457 | a dispatch rejects exactly when the last await it was told about threw and is not caught |
| `WorkerAnswers.ClaimExact` | packages/worker-runtime/src/worker.ts:133-139 | a claim is granted only for a free request that no other dispatch is granted, and refused only when one of the two fails |
| `Worker.RunFollows` | packages/worker-runtime/src/worker.ts:224-391 | over any run the outcome of a dispatch only moves up from succeeded to partial to cancelled |
| `Worker.AbortCancels` | packages/worker-runtime/src/worker.ts:273-391 | an abort at any moment of the main section means cancelled if the dispatch returns |
| `LocalCli.OutputAccumulator.AppendChunk` | packages/worker-runtime/src/local-cli-runner.ts:43-60 | the buffer is the first min(cap, total) bytes of everything that arrived, and the flag is as specified |
| `LocalCli.TruncatedExactly` | packages/worker-runtime/src/local-cli-runner.ts:43-60 | for non-empty chunks truncated holds if and only if more than cap bytes arrived |
| `LocalCli.EmptyChunkTruncates` | packages/worker-runtime/src/local-cli-runner.ts:47-51 | an empty chunk after exactly cap bytes sets the flag although nothing was cut |
| `Texts.SplitExtend` | packages/worker-runtime/src/local-cli-runner.ts:181-197 | more text extends only the last part of a split |
| `LocalCli.Drain` | packages/worker-runtime/src/local-cli-runner.ts:191-196 | the cutting loop yields the split of the buffer |
| `LocalCli.LineObserver.EmitLines` | packages/worker-runtime/src/local-cli-runner.ts:181-197 | lines passed on plus residue are the split of everything fed, unless more than the cap was fed |
| `LocalCli.ObserverSeesAll` | packages/worker-runtime/src/local-cli-runner.ts:178-202 | while stdout is not truncated nothing overflows and lines plus residue reassemble the decoded stream, whatever the chunk boundaries |
| `LocalCli.CliRun.OnStdout` | packages/worker-runtime/src/local-cli-runner.ts:199-202 | buffers the chunk and feeds the observer with the newly decoded text |
| `LocalCli.CliRun.OnError` | packages/worker-runtime/src/local-cli-runner.ts:207-217 | resolves with the reason while terminating, rejects otherwise |
| `LocalCli.CliRun.OnClose` | packages/worker-runtime/src/local-cli-runner.ts:231-249 | resolves with the reason while terminating, without one otherwise |
| `LocalCli.CliRun.OnForcedTimer` | packages/worker-runtime/src/local-cli-runner.ts:160-168 | the forced timer settles only once armed and only if nothing has settled |
| `LocalCli.SettlesAsReference` | packages/worker-runtime/src/local-cli-runner.ts:105-260 | for every order of events the promise settles at most once, with the settlement and the output that a left-to-right reading of the events gives |
| `LocalCli.FirstReasonWins` | packages/worker-runtime/src/local-cli-runner.ts:105-260 | the result carries exactly the first of abort and deadline before the settlement, never both, and rejects only without one |
| `LocalCli.RunEvents` | packages/worker-runtime/src/local-cli-runner.ts:75-260 | the object driven by any events is in the state of the machine and has settled at most once |
| `ToolBudget.StreamCounter.OnLine` | packages/worker-runtime/src/codex-agent-adapter.ts:126-148 | the counter is the number of distinct tool ids seen, the budget flag says exactly that it passed the limit, and it throws exactly on a null item |
| `ToolBudget.ParseToolIds` | packages/worker-runtime/src/codex-agent-adapter.ts:407-464 | the final parse finds the ids of the specification or fails on the same lines |
| `ToolBudget.StreamedExactly` | packages/worker-runtime/src/codex-agent-adapter.ts:126-148 | streaming counts exactly the ids of items that are none of the four other kinds, whatever the event |
| `ToolBudget.ReportedExactly` | packages/worker-runtime/src/codex-agent-adapter.ts:407-464 | the final parse accepts exactly outputs whose lines are blank or parse to objects, and finds the tools of item events |
| `ToolBudget.NullItemAccepted` | packages/worker-runtime/src/codex-agent-adapter.ts:135-136 | the line on which the observer throws is accepted by the final parse and counts nothing |
| `ToolBudget.LineCovered` | packages/worker-runtime/src/codex-agent-adapter.ts:128-148 | for a line the final parse accepts, streaming covers its ids exactly when no foreign space surrounds it or it has none |
| `ToolBudget.CoverageExactly` | packages/worker-runtime/src/codex-agent-adapter.ts:126-148 | over every parser that keeps the JSON grammar, streamed ids cover reported ids if and only if each line is JSON-spaced, blank, or has a JSON-spaced copy in the output |
| `ToolBudget.ReportedWithinBudget` | packages/worker-runtime/src/codex-agent-adapter.ts:205-231 | for newline-terminated output with JSON spacing and no budget stop, reported ids are streamed ids and their number is within the budget |
| `ToolBudget.RunWithinBudget` | packages/worker-runtime/src/codex-agent-adapter.ts:152-231 | the same for a whole untruncated process run |
| `ToolBudget.ForeignSpaceEvadesBudget` | packages/worker-runtime/src/codex-agent-adapter.ts:128-148 | a no-break space before any tool event keeps it from the budget and not from the report |
| `SignFlip.SignFlipPValue` | research/context-benchmarks/src/c1-analysis.ts:375-395 | the bit enumeration gives the recursive count over sign vectors, nothing for no deltas and the error above eight |
| `SignFlip.EnumerationCounts` | research/context-benchmarks/src/c1-analysis.ts:382-393 | enumerating bit patterns counts every sign vector once |
| `SignFlip.PValueRange` | research/context-benchmarks/src/c1-analysis.ts:375-395 | the p-value lies in [1/2^n, 1] |
| `SignFlip.NegationLaw` | research/context-benchmarks/src/c1-analysis.ts:375-395 | p(d) + p(-d) = 1 + ties/2^n |
| `SignFlip.SignFlipPermutes` | research/context-benchmarks/src/c1-analysis.ts:375-395 | the p-value does not depend on the order of the deltas |
| `Analysis.ValidateStudy` | research/context-benchmarks/src/c1-analysis.ts:351-373 | accepts exactly studies with distinct pair ids and well-formed pairs |
| `Analysis.MedianPermutes` | research/context-benchmarks/src/c1-analysis.ts:256-266 | the median does not depend on the order of the values |
| `Medians.MedianExact` | research/context-benchmarks/src/c1-analysis.ts:256-266 | the median is the value in the middle, or the mean of the two values in the middle, in order of size by counting; it exists exactly when there are values |
| `Medians.MedianHalves` | research/context-benchmarks/src/c1-analysis.ts:256-266 | at least half of the values are at most the median and at least half are at least it |
| `Analysis.PrimaryForStratum` | research/context-benchmarks/src/c1-analysis.ts:422-469 | the collecting loop equals the specification of the primary endpoint |
| `Analysis.PrimaryPartition` | research/context-benchmarks/src/c1-analysis.ts:429-468 | eligible plus excluded equals observed |
| `Analysis.PrimaryPValue` | research/context-benchmarks/src/c1-analysis.ts:454-468 | a p-value exists exactly when a pair is eligible, and lies in (0, 1] |
| `Analysis.SecondaryForMetric` | research/context-benchmarks/src/c1-analysis.ts:471-536 | the collecting loop equals the specification of a secondary endpoint |
| `Adjudication.PairsByStratum` | research/context-benchmarks/src/c1-analysis.ts:948-950 | the partition loop yields the pairs of each stratum in order |
| `Adjudication.PairReductions` | research/context-benchmarks/src/c1-analysis.ts:771-781 | the loop yields the reductions of the eligible pairs |
| `Adjudication.AdjudicateStudy` | research/context-benchmarks/src/c1-analysis.ts:946-1036 | the adjudication as code equals the specification, input errors included; its decision, stated on the pairs, is `DecisionExact` |
| `DecisionLaws.DecisionExact` | research/context-benchmarks/src/c1-analysis.ts:743-1012 | BETTER, WORSE and TRADE_OFF each hold if and only if their conditions on the pairs do: sizes, lost legs, failed tasks, coverage, median savings, their significance, and material increases of protected metrics |
| `DecisionLaws.AdjudicatedExactly` | research/context-benchmarks/src/c1-analysis.ts:351-395 | a study is adjudicated exactly when its pairs are valid and no stratum has more than eight comparable ones |
| `DecisionLaws.ReportTold` | research/context-benchmarks/src/c1-analysis.ts:422-468 | counts, medians, p-values and coverage flags of every stratum and of the pool are those of the pairs |
| `DecisionLaws.ClassificationExact` | research/context-benchmarks/src/c1-analysis.ts:676-735 | each failure classification holds under its condition on the study and its legs |
| `DecisionLaws.FewerTokensSave` | research/context-benchmarks/src/c1-analysis.ts:422-468 | a comparable pair contributes a positive reduction if and only if Runtime used fewer input tokens |
| `AdjudicationLaws.PermutationInvariant` | research/context-benchmarks/src/c1-analysis.ts:946-1036 | permuting the pairs makes both adjudications throw or leaves decision, medians, p-values, counts and flags unchanged |
| `AdjudicationLaws.StrataPartition` | research/context-benchmarks/src/c1-analysis.ts:948-954 | every pair of a valid study is counted in exactly one stratum |
| `AdjudicationLaws.PooledCounts` | research/context-benchmarks/src/c1-analysis.ts:743-781 | the pooled eligible count is the number of pooled reductions, and each stratum's eligible and excluded pairs are its observed ones |
| `AdjudicationLaws.ChooseMonotone` | research/context-benchmarks/src/c1-analysis.ts:833-939 | more Runtime failures never turn the ladder to BETTER and never away from WORSE |
| `AdjudicationLaws.RuntimeFailureNeverHelps` | research/context-benchmarks/src/c1-analysis.ts:783-1012 | turning one completed Runtime leg from success to failure never creates BETTER and never leaves WORSE |
| `AdjudicationLaws.TradeOffHasBothSides` | research/context-benchmarks/src/c1-analysis.ts:909-939 | TRADE_OFF implies a qualifying primary together with a protected regression or an extra Runtime failure |
| `DuplicateRead.CountIds` | research/context-benchmarks/src/c1-duplicate-read-policy.ts:25-35 | the count map holds the occurrences of every tool call id |
| `DuplicateRead.FindEligible` | research/context-benchmarks/src/c1-duplicate-read-policy.ts:42-92 | the loop over adjacent messages finds exactly the isolated targeted read pairs |
| `DuplicateRead.ApplyDuplicateReadPolicy` | research/context-benchmarks/src/c1-duplicate-read-policy.ts:20-129 | the policy as code equals the specification; what it drops is `DroppedExact` |
| `DuplicateReadLaws.EligibleExact` | research/context-benchmarks/src/c1-duplicate-read-policy.ts:25-92 | a read is eligible if and only if two adjacent messages are its isolated call of a relative path and its plain text result, no other message mentions the id, and both keys are targeted |
| `DuplicateReadLaws.DroppedExact` | research/context-benchmarks/src/c1-duplicate-read-policy.ts:93-111 | a read is dropped if and only if an entry lists it under an eligible anchor with an equal fingerprint and both its keys are committed and neither verification nor recent evidence |
| `DuplicateReadLaws.SignalExact` | research/context-benchmarks/src/c1-duplicate-read-policy.ts:106-128 | every added signal supersedes a dropped key and refers to an entry that anchors its read |
| `DuplicateReadLaws.SegmentsSplit` | research/context-benchmarks/src/c1-duplicate-read-policy.ts:66-75 | the segments of a path are free of slashes and, joined by slashes, are the path |
| `DuplicateRead.ExclusionIsSafe` | research/context-benchmarks/src/c1-duplicate-read-policy.ts:97-111 | no protected, uncommitted or untargeted key is ever newly excluded |
| `DuplicateRead.ExclusionIsPairwise` | research/context-benchmarks/src/c1-duplicate-read-policy.ts:110-111 | a call key is excluded if and only if its result key is |
| `DuplicateRead.TargetShrinksByExclusions` | research/context-benchmarks/src/c1-duplicate-read-policy.ts:113-128 | the target loses and the exclusions gain exactly the newly excluded keys |
| `DuplicateRead.DroppedHasAnchor` | research/context-benchmarks/src/c1-duplicate-read-policy.ts:94-112 | every dropped read has an eligible anchor with an equal fingerprint, which stays in the target exactly when it is not dropped itself |
| `DuplicateRead.CopySurvives` | research/context-benchmarks/src/c1-duplicate-read-policy.ts:94-128 | if no anchor is a duplicate of any entry, every dropped read leaves a copy in the target |
| `DuplicateRead.MutualAnchorsLoseBoth` | research/context-benchmarks/src/c1-duplicate-read-policy.ts:94-112 | two entries that anchor each other's duplicate drop both copies |
| `DuplicateScan.ScanDuplicateReads` | packages/pi-context-integration/src/extension/active-rewrite-extension.ts:722-812 | the scanner as code equals the specification; on the messages that is `EntryExact`, `PathListed` and `EntriesOrdered` |
| `DuplicateScan.GroupCalls` | packages/pi-context-integration/src/extension/active-rewrite-extension.ts:722-780 | the loop over calls collects the reads and the edits of every path in call order |
| `DuplicateScan.SweepPath` | packages/pi-context-integration/src/extension/active-rewrite-extension.ts:781-809 | the pairwise sweep of a path yields its older duplicates and its anchor as specified |
| `DuplicateScanLaws.EntryExact` | packages/pi-context-integration/src/extension/active-rewrite-extension.ts:722-812 | the duplicates of an entry are, in order, exactly the read calls of its path that a later read with an equal result hash repeats without an edit or write of the path in between; its anchor is the newest read that repeats another |
| `DuplicateScanLaws.PathListed` | packages/pi-context-integration/src/extension/active-rewrite-extension.ts:781-812 | a path has an entry if and only if one of its reads is repeated |
| `DuplicateScanLaws.EntriesOrdered` | packages/pi-context-integration/src/extension/active-rewrite-extension.ts:760-812 | entries come in the order of the first reads of their paths, one for each path |
| `DuplicateScan.AnchorIsLast` | packages/pi-context-integration/src/extension/active-rewrite-extension.ts:781-809 | the anchor of a path has no later duplicate |
| `DuplicateScan.EntriesApart` | packages/pi-context-integration/src/extension/active-rewrite-extension.ts:781-809 | an anchor whose call id is used once is a duplicate of no entry |
| `DuplicateScan.CopyAlwaysSurvives` | packages/pi-context-integration/src/extension/active-rewrite-extension.ts:722-812 | with the scanner's own entries every dropped read leaves an eligible read with an equal fingerprint in the target |
| `DuplicateRead.PolicyIdempotent` | research/context-benchmarks/src/c1-duplicate-read-policy.ts:20-129 | for any scanner result, applying the policy twice is applying it once |

## Left out

- Worker dispatch is modelled on values as a step machine, so that dispatches interleave: update in place of its local variables is not captured. Artifact files and their hashes are not part of the model, nor is the text of a reason.
- A verification command's non-zero exit code does not enter the model, because the dispatch outcome does not depend on it.
- Worktrees and recovery files are identified by their execution request id; path joining is not modelled.
- A dispatch whose promise rejects may leave any recovery record; the results about records are about dispatches that return.
- The claim store is modelled without other parties releasing claims; `dispatch` itself never releases one.
- CodexReconstruction.ReconstructModelVisibleContext: the logical hash attached to the result is not modelled, because nothing reads it back.
- ContextParity.CompareContextParity: mismatch kinds and positions are kept, message texts are not.
- Positions are exact integers: `Number` rounding of a position of more than fifteen digits is not modelled.
- StableJson: a number is its `Number::toString` text; the conversion itself is not modelled. Values with accessors, symbols or cycles are not JSON values and are left out.
- The fields of schemas that the modelled code only passes on (titles, hashes, provider names, endpoints) are not modelled.
- LiveDriver.Driver.RunCall: the leg executor is an answer whose capture carries the leg's study, run and model call ids and whose carried keys are both keys of the carry minus the restored pairs; its own composition is not modelled. `CarriedRemovals` shows that the composition basis gives such keys; the driver takes the outcome of `LiveTransport` as one answer.
- LiveDriver.Driver.RecordReports: a tool executor is its reports and its return value; as in the sandbox executor, a failing callback escapes it. `GapRejected` shows what an executor that swallowed one would cause.
- LiveDriver.Driver.AppendCheckpoint: a torn line, of which only a part reached the file, is not a checkpoint and is not modelled.
- LiveDriver.CommitCarry: the carried fingerprint and transition id are not kept, only whether the pair is unambiguous.
- Source keys are represented by kind and id; keys with neither tool prefix are one kind.
- Dose.ProjectDose: the rehydration, protected-removal and conflict counts of a call are given per call ordinal; reading them off decision kinds and reason codes is not modelled.
- UnknownReasons.MergeUnknowns: counts are exact numbers, and a reason named `__proto__`, which the schema library treats apart, is not modelled.
- LocalCli.CliRun.OnClose: the exit signal name, stdin and the kill of the process tree are not modelled. A signal aborted before the call returns a cancelled result without a process and never reaches the machine.
- LocalCli.CliRun.OnStdout: the decoder is any function of the bytes so far that only grows and yields no more code units than bytes; UTF-8 decoding with replacement is not modelled.
- ToolBudget.StreamCounter.OnLine: reading the id of a null item throws in the data handler; the model reports it and keeps the counters, and does not model the process ending.
- ToolBudget.ParseToolIds: the turn, usage and message fields of the final parse are left out, because they do not touch the tool ids.
- Analysis: floating-point rounding and Fisher's combined p-value numerics are left out; Fisher is a function of the four stratum p-values in order. Exclusion lists are multisets, and the texts of reasons are left out.
- DuplicateRead.ApplyDuplicateReadPolicy: the scanner's entries, the content hash and the evidence reference are parameters; `DuplicateScan` gives the entries.
- DuplicateScan.ScanDuplicateReads: the path of a call, the text of a result and its hash are parameters, the tool names are the default ones, and the list of triggering reads is left out.
- Git, process spawning, network, databases, schemas of commands and messages, study runners, canaries, report writers and provider selection are not modelled.
