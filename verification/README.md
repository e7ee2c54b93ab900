# Verified model of the code-intel run engine and its validators

This project models, in Dafny, the parts of the code-intel command line that decide what a run did and whether a record
may be believed, and proves what those parts promise. It has two groups of modules.

**The run engine.** A run specification is a directed acyclic graph of nodes. The coordinator starts ready nodes in
batches bounded by `max_concurrency`, records outcomes, and propagates blocking until nothing more is blocked. A run can
be checkpointed and resumed, and a budgeted loop adds two kinds of refusal: nodes skipped as oversize and nodes never
dispatched because the budget stopped the run.

- `Lexical`, `Text`: ordered iteration of sets and maps of strings, and the shared text predicates.
- `Acyclicity`, `Specification`, `Identity`: the checks on a specification, and the identity it gives a run.
- `States`, `Blocking`, `Operations`: node states, the propagation fixpoint, and what every operation keeps.
- `Evaluation`: a recursive evaluator over the graph that says what every node must end as, from any starting state.
- `Resumption`, `Coordination`: checkpoints, resume, and the coordinator as a class over a mutable state map.
- `Budgeting`, `BudgetedDispatch`, `ManifestContract`: the budget with its wrap-around arithmetic, the budgeted loop, and
  the manifest it emits against the validator that reads it.

**Independent cores.**

- `JsonScan`, `JsonTree`: the duplicate-key scanner, and JSON trees with their renderings.
- `Calendar`, `Timestamps`: the three separately written calendar conversions, run stamps and RFC 3339 text.
- `Octets`, `Fips180`, `Sha256`: SHA-256 as FIPS 180-4 defines it, and the one-shot and streaming implementations.
- `RootsOfPrimes`, `KnownAnswer`: its constants as roots of the first primes, and one digest worked through.
- `LineRanges`, `EvalArms`: merging of line ranges, coverage of golden spans, and what the windows cost.
- `Json`, `Bags`, `KeyedLists`: JSON values, multisets, and lists read into maps by key.
- `Authority`, `AuthorityLaw`: authority transitions in batches and chains of batches, and the policy spelled out.
- `Capability`, `CapabilityExec`: the execution of one capability request, the registry it consults, and the envelope it emits
  against the check every envelope must pass.
- `DecisionGap`, `DecisionGapLaw`, `DecisionGapOrder`: the decision-gap detector, what it reports, and its independence of order.
- `DeclaredPins`: the digest-pin rewriter and the spans it must not touch.
- `InventoryMirror`: the create and cleanup stack of the inventory mirror.

Code that updates state is a class or a method with loops, proved equal to a function of its inputs or of the old state;
what the code promises is then proved of that function. `dafny verify dfyconfig.toml` checks everything.

## Where the code and its documentation differ

The model follows the code in each case.

- The comment on `OversizePolicy::new` rejects thresholds of 0 and 100; the code accepts 100 (`Budgeting.NewPolicy`).
- The comment on oversize skips says the run outcome is not rewritten; the loop replaces a completed outcome when a node
  was skipped (`BudgetedDispatch.HonestOutcome`).
- A coordinator's own manifest says completed even when nodes were skipped or refused (`BudgetedDispatch.RefusedOverclaims`,
  `BudgetedDispatch.SkippedOverclaims`). It is right exactly when neither happened (`BudgetedDispatch.SatisfiedExactly`);
  only the budgeted loop corrects it.
- Nodes that timed out do not count as executed when a stopped run chooses between budget-stopped and failed.
- A stop in the middle of a batch leaves the dispatches already accepted in it running, and the manifest of such a run
  does not pass the manifest check (`ManifestContract.StopMidBatchRefused`); a stopped run's manifest passes exactly when the
  batch had accepted nothing (`ManifestContract.StoppedAdmitted`). With one slot this cannot happen
  (`BudgetedDispatch.SerialStopsClean`).
- A block list is a snapshot: when a second dependency blocks later, the list is not extended, and resuming from the
  run's own checkpoint is refused (`Resumption.ShortcutRefused`, `Resumption.ShortcutExists`). Resume succeeds exactly
  when no list has fallen behind (`Resumption.OwnCheckpointAccepted`).
- The byte test of the budget wraps in 64 bits. It is right exactly for limits that leave headroom for one more admitted
  estimate (`Budgeting.ByteTestExactIff`), which includes every limit up to half the range and the built-in one.
- The terminal recheck of the budgeted loop on an empty batch never succeeds (`BudgetedDispatch.EmptyBatchStaysUnfinished`).
- The duplicate-key scanner accepts text that is not JSON (`JsonTree.AcceptsNonJson`); what it promises holds for every
  rendering of a JSON value.
- An empty span (its end before its start) is reported uncovered exactly when no single range reaches across it
  (`LineRanges.EmptySpansDepart`).
- A digest just written by a resync is rewritten again when a later replacement names it as the old digest
  (`DeclaredPins.WrittenDigestRewritten`). What each digest ends as can be read off the list of replacements beforehand
  (`DeclaredPins.TokenChased`, `DeclaredPins.RefreshedExactly`).
- Run stamps sort by time through the year 9999 and stop doing so one second later (`Timestamps.StampsStopSorting`).

## Modelling choices

- A run identity is the canonical sorted specification document instead of its digest, so two identities are equal
  exactly when the documents are; `Fips180.IdentityAdmitted` covers the text form.
- An executor is a function from a dispatch to an outcome; estimates and elapsed seconds are functions too. Executors that
  panic and threads are not modelled; a batch is executed by applying the function to each dispatch.
- Results of a batch are recorded in dispatch order, which is id order, so sorting them by id changes nothing.
- Unsigned 64-bit arithmetic is written out where it can wrap, as an optimised build computes it.
- Error texts are constructors of a datatype and the reason texts of refused nodes are shortened constants.
- Ordered maps and sets are maps and sets visited in ascending order (`Lexical.Ascend`).
- Decoding a JSON string literal, parsing an integration object, and digesting an authority event are parameters.
- Bytes are the integers 0 to 255; words are 32-bit vectors.

## Model

| member | source | states |
|---|---|---|
| Acyclicity.ValidateAcyclic | crates/code-intel-cli/src/dag_coordinator.rs:1126-1158 | The counting check accepts exactly the relations that have a rank, a rejection comes with an actual cycle, and no pending count goes below zero |
| Acyclicity.AcyclicIffNoCycle | crates/code-intel-cli/src/dag_coordinator.rs:1126-1158 | A rank exists exactly when no closed walk along dependencies does |
| Specification.ValidateNodes | crates/code-intel-cli/src/dag_coordinator.rs:1075-1092 | Nodes are accepted exactly when each is well formed and no id repeats; the first defect decides the error |
| Specification.ValidateEdges | crates/code-intel-cli/src/dag_coordinator.rs:1093-1121 | Edges are accepted exactly when both ends exist and none repeats; the dependency lists hold exactly the sources, sorted |
| Specification.ValidateSpec | crates/code-intel-cli/src/dag_coordinator.rs:1062-1124 | A specification is accepted exactly when header, nodes, edges and acyclicity hold; the error kind names the first failing check and a cycle error has a cycle |
| Specification.PlanSays | crates/code-intel-cli/src/dag_coordinator.rs:1062-1124 | The plan holds each declared node under its id and, as its dependencies in id order, exactly the sources of its edges |
| Identity.IdentityIgnoresOrderOnly | crates/code-intel-cli/src/dag_coordinator.rs:93-105 | Two valid specifications share a run identity exactly when they have the same contents in some order |
| Fips180.IdentityAdmitted | crates/code-intel-cli/src/dag_coordinator.rs:1160-1163 | The prefix and the digest of any document form a run identity that validators accept |
| Text.DigestMakesRunIdentity | crates/code-intel-cli/src/content_contract.rs:230-244 | A 64-digit lowercase digest behind the prefix satisfies the run identity predicate |
| Blocking.PropagateExact | crates/code-intel-cli/src/dag_coordinator.rs:1029-1059 | Propagation is the least fixpoint: a pending node ends blocked exactly when a blocking node reaches it through pending nodes, and nothing else changes |
| Blocking.PropagateIdempotent | crates/code-intel-cli/src/dag_coordinator.rs:1029-1059 | Propagating twice changes nothing more |
| Blocking.PropagateBlockLists | crates/code-intel-cli/src/dag_coordinator.rs:1029-1059 | Block lists stay non-empty, sorted and made of blocking dependencies only |
| Blocking.BlockedTraces | crates/code-intel-cli/src/dag_coordinator.rs:414-429 | Every blocked node traces back along dependencies, through blocked nodes, to one that failed, timed out or was skipped as oversize |
| Operations.ApplyInv | crates/code-intel-cli/src/dag_coordinator.rs:696-862 | Every operation keeps: at most the allowed number running, started nodes have succeeded dependencies, stored artifacts bound to the snapshot, block lists sound; and terminal states never change |
| Operations.ApplySettled | crates/code-intel-cli/src/dag_coordinator.rs:696-862 | After every operation no pending node has a blocking dependency |
| Operations.RunSafe | crates/code-intel-cli/src/dag_coordinator.rs:583-862 | The same over every sequence of operations from any state that satisfies the invariant |
| Operations.UnstartedStable | crates/code-intel-cli/src/dag_coordinator.rs:583-596 | A new coordinator satisfies the invariant |
| Operations.InputsBound | crates/code-intel-cli/src/dag_coordinator.rs:759-800 | Every artifact handed to an executor is bound to the snapshot of the specification |
| Operations.DispatchDelivers | crates/code-intel-cli/src/dag_coordinator.rs:759-800 | A dispatch carries the node's own capability and request, and every artifact of every dependency, dependency after dependency |
| Operations.BatchFills | crates/code-intel-cli/src/dag_coordinator.rs:759-800 | After a batch is started every slot is taken or nothing is ready, and whatever is still ready comes later in id order |
| Evaluation.FinishedIsFate | crates/code-intel-cli/src/dag_coordinator.rs:888-925 | A finished run has given every node the status of the recursive evaluator, and none was stuck |
| Evaluation.NoWorkMeansStuck | crates/code-intel-cli/src/dag_coordinator.rs:888-925 | Running out of schedulable work means that something was running or refused before the run began |
| Evaluation.LoyalNoneStuck | crates/code-intel-cli/src/dag_coordinator.rs:759-925 | With nothing left over from before, an executor that answers only with artifacts of the snapshot brings every node to a final status |
| Evaluation.SettlesExactly | crates/code-intel-cli/src/dag_coordinator.rs:802-862 | An answer can be recorded exactly when every artifact it carries is bound to the snapshot |
| Evaluation.RecordedAs | crates/code-intel-cli/src/dag_coordinator.rs:802-862 | A recorded node holds its answer, verdict and artifacts, failure kind and diagnostic; a refused answer changes nothing |
| Evaluation.FaithfulAnswers | crates/code-intel-cli/src/dag_coordinator.rs:696-862 | In any run from a new coordinator every executed node holds the executor's answer to the dispatch its dependencies now make |
| Evaluation.StuckBelow | crates/code-intel-cli/src/dag_coordinator.rs:888-925 | In a settled state without ready or running nodes every pending node waits, through pending nodes, on a refused one |
| Evaluation.FateIgnoresConcurrency | crates/code-intel-cli/src/dag_coordinator.rs:759-925 | The concurrency bound has no influence on what any node ends as |
| Evaluation.RecordStep | crates/code-intel-cli/src/dag_coordinator.rs:802-862 | Recording an answer keeps the run in agreement with the evaluator; an answer that is refused belongs to a stuck node |
| Evaluation.FaithfulRun | crates/code-intel-cli/src/dag_coordinator.rs:696-862 | From any start with nothing running, through every sequence of operations whose recorded outcomes are the executor's own, each executed node has the status the evaluator gives it |
| Resumption.OwnCheckpointAccepted | crates/code-intel-cli/src/dag_coordinator.rs:598-687 | A run's own checkpoint is accepted exactly when every blocked node's list equals all its blocking dependencies |
| Resumption.OtherWorkRefused | crates/code-intel-cli/src/dag_coordinator.rs:600-607 | A checkpoint is accepted by no specification with other contents than the one it was made for |
| Resumption.ReorderedAccepts | crates/code-intel-cli/src/dag_coordinator.rs:600-607 | Specifications that differ in declaration order accept the same checkpoints |
| Resumption.ResumedStable | crates/code-intel-cli/src/dag_coordinator.rs:598-687 | Any accepted checkpoint resumes in a state that satisfies the run invariant, with nothing running |
| Resumption.CheckpointRoundTrip | crates/code-intel-cli/src/dag_coordinator.rs:598-687 | Resuming a run's own checkpoint brings every status back exactly when nothing was running, refused or skipped |
| Resumption.ResumeKeepsFate | crates/code-intel-cli/src/dag_coordinator.rs:598-687 | Interrupting anywhere and resuming changes no node's final status, whether the run began new or resumed |
| Resumption.InterruptedKeepsFate | crates/code-intel-cli/src/dag_coordinator.rs:598-687 | However often a run is interrupted and resumed, its state stays sound and every node keeps its final status |
| Resumption.ResumedRunEndsAlike | crates/code-intel-cli/src/dag_coordinator.rs:598-687 | After any number of interruptions a run has an end exactly when the uninterrupted run has one, with the same status for every node; with an executor that keeps to the snapshot it has one |
| Resumption.ShortcutRefused | crates/code-intel-cli/src/dag_coordinator.rs:1006-1022 | On every chain with a shortcut, the checkpoint taken after its first node times out is refused |
| Resumption.ShortcutExists | crates/code-intel-cli/src/dag_coordinator.rs:1006-1022 | A valid three-node specification of that shape |
| Coordination.Coordinator.New | crates/code-intel-cli/src/dag_coordinator.rs:583-596 | A coordinator is made exactly from the valid specifications, with every node pending |
| Coordination.Coordinator.Resume | crates/code-intel-cli/src/dag_coordinator.rs:598-687 | A resume succeeds exactly on an accepted checkpoint of the same specification, and its state is the restored one propagated; a checkpoint of other work is refused as an identity mismatch |
| Coordination.RestoreState | crates/code-intel-cli/src/dag_coordinator.rs:617-684 | Executed states are checked and kept; every other state starts over |
| Coordination.Coordinator.ValidateCheckpointHistory | crates/code-intel-cli/src/dag_coordinator.rs:983-1027 | History holds exactly when executed nodes have succeeded dependencies and block lists equal all blocking dependencies |
| Coordination.Coordinator.PropagateBlocked | crates/code-intel-cli/src/dag_coordinator.rs:1029-1059 | The round-by-round loop computes the fixpoint |
| Coordination.Coordinator.NextBatch | crates/code-intel-cli/src/dag_coordinator.rs:759-800 | The first ready nodes in id order that the bound allows are started, each with its own capability and request and with every artifact of its dependencies, all succeeded, in order |
| Coordination.Coordinator.Record | crates/code-intel-cli/src/dag_coordinator.rs:802-862 | It succeeds exactly for a running node and artifacts of the snapshot; then the node holds the answer: a success with its verdict and artifacts, a failing verdict as a domain failure, a failure as what it was with its diagnostic; otherwise nothing changes |
| Coordination.Coordinator.RecordNotDispatched | crates/code-intel-cli/src/dag_coordinator.rs:696-714 | A running node becomes refused, and no other node changes |
| Coordination.Coordinator.RecordSkippedOversize | crates/code-intel-cli/src/dag_coordinator.rs:722-746 | A running node becomes skipped with its sizes, and its dependents are blocked |
| Coordination.Coordinator.MarkPendingNotDispatched | crates/code-intel-cli/src/dag_coordinator.rs:748-757 | Exactly the pending nodes become refused |
| Coordination.Coordinator.RunToCompletion | crates/code-intel-cli/src/dag_coordinator.rs:888-925 | The loop ends; with nothing left over and an executor that keeps to the snapshot it succeeds; in general it succeeds exactly when no node is stuck from the start, and then every status is the evaluator's; an error is a leftover from before the run, or names a node for which the executor answered with a foreign artifact; from a new coordinator every executed node holds the answer to its final dispatch, and the answers decide the outcome |
| Coordination.OutcomeFromAnswers | crates/code-intel-cli/src/dag_coordinator.rs:927-968 | The outcome of a finished run is decided by the answers to the final dispatches: timeouts, process failures, domain failures and unknown verdicts in that rank, and completed exactly when every dispatch was answered with a success and a known verdict |
| Coordination.ResumeAndFinish | crates/code-intel-cli/src/dag_coordinator.rs:598-687 | Resuming the checkpoint of a run interrupted any number of times and running on succeeds exactly when the checkpoint is accepted and the uninterrupted run would end, with the uninterrupted run's status for every node |
| Budgeting.AdmittedBound | crates/code-intel-cli/src/budget_dispatch.rs:82-110 | Under every accepted threshold the oversize gate lets through exactly the estimates up to a bound that lies below the limit |
| Budgeting.NoLimitNoGate | crates/code-intel-cli/src/budget_dispatch.rs:100-112 | Without a byte limit nothing is oversize |
| Budgeting.AffordsExactly | crates/code-intel-cli/src/budget.rs:105-112 | Where neither sum overflows, an estimate passes exactly when the budget can be estimated and time and bytes both stay within their limits |
| Budgeting.ByteTestExactIff | crates/code-intel-cli/src/budget.rs:105-112 | The byte test equals the unbounded comparison for every admitted estimate exactly when the limit leaves headroom for the largest one |
| Budgeting.HalfRangeExact | crates/code-intel-cli/src/budget.rs:21-26 | Every limit up to half the range and the built-in limit leave that headroom under every threshold |
| Budgeting.TopOfRangeInexact | crates/code-intel-cli/src/budget.rs:105-112 | At the top of the range two estimates are both let through although their sum exceeds the limit |
| BudgetedDispatch.EmptyBatchMeansLeftOver | crates/code-intel-cli/src/budget_dispatch.rs:186-200 | An empty batch with unfinished nodes is possible only when something was running or refused before the run |
| BudgetedDispatch.EmptyBatchStaysUnfinished | crates/code-intel-cli/src/budget_dispatch.rs:186-200 | An empty batch leaves an unfinished run unfinished, so the terminal recheck never succeeds |
| BudgetedDispatch.AdmitOne | crates/code-intel-cli/src/budget_dispatch.rs:206-234 | Oversize is tested first, then the remaining budget; what is accepted is charged to the projection |
| BudgetedDispatch.PaidAccept | crates/code-intel-cli/src/budget.rs:105-121 | Charging a dispatch that passed both tests adds exactly its estimate and stays within the limit, when the limit leaves headroom |
| BudgetedDispatch.InestimableAcceptsNone | crates/code-intel-cli/src/budget.rs:105-112 | A budget that cannot be estimated accepts nothing: it stops a batch exactly when some dispatch in it is not oversize |
| BudgetedDispatch.AdmitBatch | crates/code-intel-cli/src/budget_dispatch.rs:201-237 | A batch is admitted up to the first dispatch that is neither oversize nor within what the accepted ones before it leave; the accepted estimates fit what is left |
| BudgetedDispatch.TurnedOnce | crates/code-intel-cli/src/budget_dispatch.rs:201-237 | Whether and where admission stops is decided by the batch, the account and the estimates |
| BudgetedDispatch.AcceptedWithinLimits | crates/code-intel-cli/src/budget_dispatch.rs:201-237 | What a batch accepts leaves the projected time and bytes within both limits |
| BudgetedDispatch.StopBatch | crates/code-intel-cli/src/budget_dispatch.rs:219-231 | From the stopping dispatch on the batch is refused, and so is everything still pending |
| BudgetedDispatch.ExecuteAccepted | crates/code-intel-cli/src/budget_dispatch.rs:238-265 | Accepted dispatches are executed and recorded in order, charged exactly their estimated bytes, and in time what each took but one second at least |
| BudgetedDispatch.ClockCharges | crates/code-intel-cli/src/budget_dispatch.rs:238-265 | Unless the word overflows, the charge is at least a second an execution and at least what they took, so a run that took more than its limit has exceeded it |
| BudgetedDispatch.RunTurn | crates/code-intel-cli/src/budget_dispatch.rs:186-266 | Each turn stops the run or executes work and leaves fewer pending nodes |
| BudgetedDispatch.RunToCompletion | crates/code-intel-cli/src/budget_dispatch.rs:174-351 | The loop ends, without error when nothing was left over and the executor keeps to the snapshot; each node executes once on its final inputs; bytes charged are the estimates of what executed and stay within the limit, time charged is what each execution took, one second at least; what was skipped was oversize on its final inputs and nothing executed was; it stops exactly where an estimate no longer fits, leaving running exactly the dispatches accepted before it in that batch; from a new coordinator completed means every node was answered with a success and a known verdict |
| BudgetedDispatch.SerialStopsClean | crates/code-intel-cli/src/budget_dispatch.rs:219-237 | With one slot a stop leaves nothing running |
| BudgetedDispatch.SatisfiedExactly | crates/code-intel-cli/src/dag_coordinator.rs:927-968 | Every node succeeded with a known verdict exactly when the coordinator says completed and no node was refused or skipped |
| BudgetedDispatch.HonestOutcome | crates/code-intel-cli/src/budget_dispatch.rs:267-309 | The reported outcome is completed exactly when every node succeeded with a known verdict |
| BudgetedDispatch.OutcomeReported | crates/code-intel-cli/src/budget_dispatch.rs:267-309 | After a stop, or when skipped nodes would pass for completed, the outcome is budget stopped if a node ran to an end other than a timeout and failed otherwise; else it is the coordinator's |
| BudgetedDispatch.ReportSays | crates/code-intel-cli/src/budget_dispatch.rs:310-350 | The report shows the states, accounts and limits as they are, whether one was passed, and every skipped node with its sizes in id order |
| BudgetedDispatch.RefusedOverclaims | crates/code-intel-cli/src/dag_coordinator.rs:927-968 | In every plan, refusing everything before the first batch leaves a manifest that says completed |
| BudgetedDispatch.SkippedOverclaims | crates/code-intel-cli/src/dag_coordinator.rs:927-968 | In every plan of one node, starting it and skipping it as oversize leaves a manifest that says completed |
| BudgetedDispatch.LoneExists | crates/code-intel-cli/src/dag_coordinator.rs:927-968 | A valid specification of one node |
| ManifestContract.ValidateRunManifest | crates/code-intel-cli/src/artifact_ref.rs:1728-1862 | The node-by-node check accepts exactly the manifests of the required shape |
| ManifestContract.ReportAdmitted | crates/code-intel-cli/src/artifact_ref.rs:1728-1917 | A manifest reported by the budgeted loop passes the check exactly when no node in it is running |
| ManifestContract.StateWords | crates/code-intel-cli/src/dag_coordinator.rs:431-480 | Each state, verdict and failure kind has its own word in the document, and sizes are kept |
| ManifestContract.LoopReports | crates/code-intel-cli/src/budget_dispatch.rs:310-350 | The budgeted loop's report satisfies what the check relies on |
| ManifestContract.StoppedAdmitted | crates/code-intel-cli/src/artifact_ref.rs:1728-1917 | After a stop the manifest passes the check exactly when the stopped batch had accepted nothing |
| ManifestContract.RunStopping | crates/code-intel-cli/src/budget_dispatch.rs:186-237 | A run whose first batch does not fit the budget stops in that batch and reports the states it leaves |
| ManifestContract.StopMidBatchRefused | crates/code-intel-cli/src/budget_dispatch.rs:219-237 | The loop, run on a valid specification of two nodes with a budget for one, returns a manifest that the check refuses, with the first node running |
| JsonScan.JsonKeyScanner.ScanDocument | crates/code-intel-cli/src/content_contract.rs:56-65 | The cursor stays within the text and the scan ends where, or fails as, the recursive definition says |
| JsonScan.JsonKeyScanner.Value | crates/code-intel-cli/src/content_contract.rs:66-88 | Depth first, then whitespace, then by the first byte |
| JsonScan.JsonKeyScanner.Object | crates/code-intel-cli/src/content_contract.rs:89-115 | Members until a closing brace; the first repeated decoded name is the error |
| JsonScan.JsonKeyScanner.Array | crates/code-intel-cli/src/content_contract.rs:116-132 | Elements until a closing bracket |
| JsonScan.JsonKeyScanner.String | crates/code-intel-cli/src/content_contract.rs:133-156 | Escapes are skipped, the literal is decoded whole, and unterminated literals fail |
| JsonScan.RejectDuplicateJsonKeysWithin | crates/code-intel-cli/src/content_contract.rs:36-48 | Longer texts are refused unread; others are accepted exactly when the scan succeeds |
| JsonTree.DocumentScans | crates/code-intel-cli/src/content_contract.rs:36-174 | The scan of every rendering of a tree decides acceptability of the tree |
| JsonTree.FineExactly | crates/code-intel-cli/src/content_contract.rs:23-48 | Acceptability is bounded nesting, decodable strings and no repeated decoded name in any object |
| JsonTree.ScanRejectsDuplicates | crates/code-intel-cli/src/content_contract.rs:36-174 | For every value tree and every rendering with insignificant whitespace, the scan accepts exactly when nesting is at most 128 levels, all strings decode and no object repeats a decoded name |
| JsonTree.NumbersAreScalars | crates/code-intel-cli/src/content_contract.rs:66-88 | Every byte of a number or literal name may stand in a scalar |
| JsonTree.AcceptsNonJson | crates/code-intel-cli/src/content_contract.rs:66-132 | A text that is no JSON document is accepted |
| Calendar.DayNumberCounts | crates/code-intel-cli/src/capability.rs:1071-1083 | The day count starts at the epoch and grows by one from each date to the next |
| Calendar.DayNumberOrders | crates/code-intel-cli/src/capability.rs:1071-1083 | Dates are ordered as their day counts, so no two dates share one |
| Calendar.ConversionsAgree | crates/code-intel-cli/src/codenexus_lite.rs:505-516 | Truncated and floored division give the same date for every day, before and after the epoch |
| Calendar.StampAgrees | crates/code-intel-cli/src/artifacts.rs:429-452 | The run stamp's inline conversion gives that date too |
| Calendar.ConversionExact | crates/code-intel-cli/src/capability.rs:1071-1083 | The result is the one valid proleptic Gregorian date with that day count |
| Calendar.ConversionRoundTrip | crates/code-intel-cli/src/codenexus_lite.rs:505-516 | Converting the day count of any valid date gives the date back |
| Timestamps.StampsSort | crates/code-intel-cli/src/artifacts.rs:429-452 | A later second has a stamp that sorts strictly later, through the year 9999 |
| Timestamps.StampsStopSorting | crates/code-intel-cli/src/artifacts.rs:429-452 | The next second breaks the order |
| Timestamps.GeneratedTimestampAccepted | crates/code-intel-cli/src/capability.rs:832-866 | A generated timestamp passes the validator exactly in the years 1 to 9999 |
| Timestamps.RenderingsAgree | crates/code-intel-cli/src/codenexus_lite.rs:492-503 | The evidence writer's text is the registry's text for the same second, with milliseconds added |
| Timestamps.TimestampReadsBack | crates/code-intel-cli/src/capability.rs:1059-1070 | A timestamp in a year of four digits reads back, field by field and by the calendar's day count, as the second it was made from |
| Timestamps.StampReadsBack | crates/code-intel-cli/src/artifacts.rs:429-452 | A run stamp through the year 9999 reads back as the second it was made from |
| Fips180.ZeroBytes | crates/code-intel-cli/src/authority.rs:425-431 | The padding is the smallest number of zero bytes that leaves room for exactly the length field |
| Fips180.PaddingInjective | crates/code-intel-cli/src/authority.rs:425-431 | No two messages of any length have the same padded form |
| Fips180.BlocksAppend | crates/code-intel-cli/src/authority.rs:442-479 | Hashing a prefix of whole blocks first makes no difference |
| Fips180.HexOfEight | crates/code-intel-cli/src/authority.rs:480-480 | The text of a hash is 64 lowercase hexadecimal digits |
| RootsOfPrimes.PrimesListed | crates/code-intel-cli/src/authority.rs:413-424 | The prime table holds exactly the primes up to 311 |
| RootsOfPrimes.PrimesRise | crates/code-intel-cli/src/authority.rs:413-424 | The prime table rises and has 64 entries |
| RootsOfPrimes.ConstantsAreRoots | crates/code-intel-cli/src/authority.rs:413-424 | The constant of each round is the first 32 fractional bits of the cube root of its prime, as section 4.2.2 of FIPS 180-4 says |
| RootsOfPrimes.InitialRoots | crates/code-intel-cli/src/authority.rs:432-441 | The initial hash value is made of the first 32 fractional bits of the square roots of the first eight primes, as section 5.3.3 says |
| KnownAnswer.AbcDigest | crates/code-intel-cli/src/capability.rs:1093-1098 | The digest of "abc" is ba7816bf8f01cfea414140de5dae2223b00361a396177a9cb410ff61f20015ad, as the program's own test demands |
| Sha256.Pad | crates/code-intel-cli/src/authority.rs:425-431 | The padding loop builds the padded message |
| Sha256.Schedule | crates/code-intel-cli/src/authority.rs:443-454 | The in-place schedule holds the recursively defined words |
| Sha256.CompressInto | crates/code-intel-cli/src/authority.rs:442-479 | The round loop and the final additions compute the compression function of one block |
| Sha256.Sha256Hex | crates/code-intel-cli/src/authority.rs:412-481 | The one-shot digest is the FIPS 180-4 digest in lowercase hexadecimal |
| Sha256.Hasher.Update | crates/code-intel-cli/src/content_contract/sha256.rs:29-50 | Absorbing a piece extends the absorbed message by exactly that piece, wherever the pieces are cut |
| Sha256.Hasher.UpdateFramed | crates/code-intel-cli/src/content_contract/sha256.rs:54-57 | A framed record is its length as eight bytes followed by the record |
| Sha256.Hasher.Finish | crates/code-intel-cli/src/content_contract/sha256.rs:61-74 | The streaming digest is the FIPS 180-4 digest of everything absorbed |
| Sha256.StreamedHex | crates/code-intel-cli/src/content_contract/sha256.rs:128-132 | The streaming implementation used in one shot gives the same digest as the other one |
| Sha256.PiecesHex | crates/code-intel-cli/src/content_contract/sha256.rs:3-8 | Chunk boundaries never change the result |
| Sha256.HashFinishes | crates/code-intel-cli/src/content_contract/sha256.rs:61-74 | Terminator, zeros and length fall in one last block or two, as the fill of the buffer decides |
| Sha256.FramedInjective | crates/code-intel-cli/src/content_contract/sha256.rs:52-57 | Different sequences of records are absorbed as different bytes |
| Sha256.FrameSays | crates/code-intel-cli/src/content_contract/sha256.rs:52-57 | A frame is eight bytes that say the record's length, and the record |
| LineRanges.MergeRanges | eval/arms.py:80-89 | The loop that extends the last piece computes the merge |
| LineRanges.MergeKeepsLines | eval/arms.py:80-89 | Merging covers exactly the lines of its input, in pieces with at least one uncovered line between any two |
| LineRanges.MergeCanonical | eval/arms.py:80-89 | Ranges that cover the same lines merge to the same pieces, whatever their order and overlap |
| LineRanges.SpanCoveredLineByLine | eval/arms.py:92-93 | A proper span is reported covered exactly when every line of it is |
| LineRanges.SpanCoveredExactly | eval/arms.py:80-93 | After merging, a span with lines is covered exactly when each line is, and a span without lines exactly when a single input range reaches across it |
| LineRanges.EmptySpansDepart | eval/arms.py:80-93 | Coverage departs from its line-by-line reading exactly for spans without lines that no range reaches across |
| LineRanges.WindowsReadOnce | eval/arms.py:96-105 | Reading merged pieces costs the bytes of the covered lines of the file, each counted once |
| EvalArms.GroupByFile | eval/arms.py:233-239 | Each file gets the windows of exactly its own pointers, in order |
| EvalArms.Search | eval/arms.py:201-218 | Kinds are consulted in order until one matches, and only those consulted are paid for |
| EvalArms.SearchSays | eval/arms.py:201-218 | The search takes the matches of the first kind that has any and pays for the artifacts up to it, or for all |
| EvalArms.ArmAAnswer | eval/arms.py:194-275 | Without pointers nothing is covered; otherwise coverage and cost are those of the merged windows of every file |
| EvalArms.CoveredMeansNear | eval/arms.py:257-261 | A question is covered exactly when every line of each golden span lies in a window around a pointer into its file, or, for a span without lines, one window reaches across it |
| EvalArms.NearIsDistance | eval/arms.py:233-240 | A line is near exactly when it is a line and at most the window away from a pointer into its file |
| EvalArms.ReachedIsDistance | eval/arms.py:233-240 | A window reaches across a span without lines exactly when the span starts at a line and both its ends are at most the window away |
| EvalArms.WideningNeverLoses | eval/harness.py:104-112 | A wider window can only gain coverage, whatever the spans |
| EvalArms.BytesCountedOnce | eval/arms.py:241-255 | No line's bytes are counted twice |
| EvalArms.WideningCosts | eval/arms.py:241-255 | A wider window costs at least as much and never more than the files themselves |
| Json.ReadIdSet | crates/code-intel-cli/src/authority.rs:496-511 | The loop reads the set or fails at the first bad or repeated id |
| Json.IdsExactly | crates/code-intel-cli/src/authority.rs:496-511 | An array is read as a set exactly when its ids are non-empty and pairwise distinct, and nothing is lost |
| Authority.EventAcceptedExactly | crates/code-intel-cli/src/authority.rs:281-335 | An event is accepted exactly when it is approved by a named approver, rests on distinct known evidence that includes all required, is in force, carries a matching attestation if any, and its id was not consumed; the id is what is returned |
| Authority.Duplicates | crates/code-intel-cli/src/authority.rs:513-522 | Exactly the values that occur more than once |
| Authority.EvaluateBatch | crates/code-intel-cli/src/authority.rs:45-98 | The batch loop computes the outcomes, their counts and the new consumed set, whose meaning the rows below state |
| AuthorityLaw.BatchExactly | crates/code-intel-cli/src/authority.rs:157-187 | A batch is evaluated exactly when it has its five fields, each of its kind, with distinct ids and a branch |
| AuthorityLaw.BranchExactly | crates/code-intel-cli/src/authority.rs:189-269 | Validation accepts exactly the branches that are well formed, follow an edge of the policy on distinct known evidence, are not an advisory source creating facts or models, and carry an authorising unconsumed event exactly on protected edges |
| AuthorityLaw.AcceptedExactly | crates/code-intel-cli/src/authority.rs:45-155 | A branch of a batch is accepted exactly when it is lawful and shares its branch id, output id and event id with no other branch |
| AuthorityLaw.OutcomeReports | crates/code-intel-cli/src/authority.rs:100-155 | An accepted outcome reports the branch's own kinds, ids and event |
| AuthorityLaw.CountsAccepted | crates/code-intel-cli/src/authority.rs:80-98 | The accepted count is the number of accepted outcomes |
| Authority.AcceptedFollowsPolicy | crates/code-intel-cli/src/authority.rs:189-269 | An accepted transition follows an edge of the policy on known evidence, and carries an approved event in force that covers its evidence exactly when the edge is protected |
| Authority.AcceptedDistinct | crates/code-intel-cli/src/authority.rs:101-155 | Within a batch accepted branches share no branch id, output id or authority event |
| Authority.ConsumesExactly | crates/code-intel-cli/src/authority.rs:78-98 | A batch consumes exactly the events of its accepted branches, none consumed before |
| Authority.ConsumedGrows | crates/code-intel-cli/src/authority.rs:78-98 | Along a chain of batches the consumed set only grows |
| Authority.EventAuthorisesOnce | crates/code-intel-cli/src/authority.rs:45-155 | Over a whole chain each authority event authorises at most one accepted transition |
| Authority.OrderIrrelevant | crates/code-intel-cli/src/authority.rs:45-98 | Reordering a batch changes neither the decision on any branch nor what is consumed |
| KeyedLists.ReadAll | crates/code-intel-cli/src/decision_gap.rs:301-335 | A list is read into a map until the first bad element or repeated key |
| KeyedLists.ReadExactly | crates/code-intel-cli/src/decision_gap.rs:301-335 | Reading succeeds exactly when every element is well formed and no key repeats, and the map holds exactly the elements |
| KeyedLists.ReadUnordered | crates/code-intel-cli/src/decision_gap.rs:301-375 | What is read depends on the elements and not on their order |
| DecisionGap.VisitBlocker | crates/code-intel-cli/src/decision_gap.rs:94-191 | One blocker is parsed, checked and recorded in exactly one place, or is the error |
| DecisionGap.Detect | crates/code-intel-cli/src/decision_gap.rs:61-227 | The nested loops over running maps compute the findings of all blockers and the report of every branch |
| DecisionGap.BlockerFound | crates/code-intel-cli/src/decision_gap.rs:94-191 | Every listed blocker is found under its id, as facts to discover exactly when some of its facts are unresolved |
| DecisionGap.BlockersPartitioned | crates/code-intel-cli/src/decision_gap.rs:61-227 | Each blocker of an accepted request is in exactly one of gaps and fact discovery, and nothing else is |
| DecisionGap.BranchesToldExactly | crates/code-intel-cli/src/decision_gap.rs:194-213 | Each branch gets exactly the ids that affect it, and no gap or fact goes untold |
| DecisionGapLaw.FindingSays | crates/code-intel-cli/src/decision_gap.rs:82-192 | Every blocker's finding says what the blocker says: facts to discover exactly when a check says missing or the blocker names one, with exactly those facts; otherwise the decision with its facts, options and recommendation; and the branches it affects |
| DecisionGapLaw.AssessExactly | crates/code-intel-cli/src/decision_gap.rs:89-150 | A blocker is accepted exactly when its kind is known and it has missing facts, or is a choice with checked facts, two options, a known recommendation and an affected branch |
| DecisionGapLaw.StatusTold | crates/code-intel-cli/src/decision_gap.rs:194-213 | A branch is blocked by a gap that affects it, else waits for facts that do, else keeps its status |
| DecisionGapLaw.BranchesRead | crates/code-intel-cli/src/decision_gap.rs:62-80 | The branches read are those listed, each with its status and blockers |
| DecisionGapOrder.BlockersAlike | crates/code-intel-cli/src/decision_gap.rs:241-299 | A blocker with its facts, options or ids reordered parses alike |
| DecisionGapOrder.DetectionUnordered | crates/code-intel-cli/src/decision_gap.rs:61-227 | Reordering branches, blockers, options, facts and ids changes neither acceptance nor the result |
| DeclaredPins.ReplaceOutside | crates/code-intel-cli/src/declared_pins.rs:256-274 | The buffer loop computes the replacement of every match that does not start in a protected span |
| DeclaredPins.RewriteKeeps | crates/code-intel-cli/src/declared_pins.rs:256-274 | With digests of equal length the text keeps its length and every byte outside a replaced match |
| DeclaredPins.RewriteReplaces | crates/code-intel-cli/src/declared_pins.rs:256-274 | Every match outside the protected spans holds the new digest afterwards |
| DeclaredPins.StartsInside | crates/code-intel-cli/src/declared_pins.rs:256-274 | A digest that touches a protected span starts in it, because the span opens with a brace |
| DeclaredPins.SpansSurvive | crates/code-intel-cli/src/declared_pins.rs:449-481 | Through a whole sequence of replacements every protected span keeps its bytes at its offsets |
| DeclaredPins.ResyncRecord | crates/code-intel-cli/src/declared_pins.rs:459-477 | A resync finds the spans once and then makes every replacement in turn |
| DeclaredPins.TokenChased | crates/code-intel-cli/src/declared_pins.rs:449-480 | Wherever a digest stands by itself outside the protected spans, the resynced text holds what the list of replacements turns it into |
| DeclaredPins.SurvivesExactly | crates/code-intel-cli/src/declared_pins.rs:473-475 | A digest standing by itself stays through the whole list exactly when no replacement declares it |
| DeclaredPins.RefreshedExactly | crates/code-intel-cli/src/declared_pins.rs:473-475 | A stale pin ends with its file's digest exactly when the later replacements lead that digest back to itself, as they do when none declares it |
| DeclaredPins.WrittenStays | crates/code-intel-cli/src/declared_pins.rs:255-274 | In any surroundings a digest stays when no digest replaced later occurs in an overlapping place |
| DeclaredPins.WrittenDigestRewritten | crates/code-intel-cli/src/declared_pins.rs:473-475 | A record of two stale pins, the second declaring what the first file has become: the first digest written is rewritten, and both pins end alike and ambiguous |
| DeclaredPins.FindUnpairedSpans | crates/code-intel-cli/src/declared_pins.rs:210-253 | The byte loop computes the walk |
| DeclaredPins.WalkQuoted | crates/code-intel-cli/src/declared_pins.rs:220-232 | Brackets and escaped quotes inside a string are passed over |
| DeclaredPins.WalkElements | crates/code-intel-cli/src/declared_pins.rs:210-253 | On a well-formed array the walk finds exactly the elements that are objects and cannot be paired, where they lie |
| DeclaredPins.ElementSpansOrdered | crates/code-intel-cli/src/declared_pins.rs:210-253 | The spans found are in order, disjoint, and run from brace to brace |
| DeclaredPins.UnpairedUntouched | crates/code-intel-cli/src/declared_pins.rs:449-481 | A resync of a registry with a well-formed array leaves every unpaired integration byte for byte where it was |
| DeclaredPins.Audit | crates/code-intel-cli/src/declared_pins.rs:338-397 | A digest stated for several paths of a record is ambiguous; otherwise the file named decides |
| DeclaredPins.StateExactly | crates/code-intel-cli/src/declared_pins.rs:338-397 | A pin is ambiguous exactly when its record states its digest for another path too; otherwise it is missing, fresh or stale as the file named decides |
| DeclaredPins.StaleDigestsDiffer | crates/code-intel-cli/src/declared_pins.rs:338-397 | No two distinct pins of a record that state one digest are rewritten |
| InventoryMirror.Directories | crates/code-intel-cli/src/capability_inventory.rs:443-454 | Exactly the proper ancestors of the paths are collected |
| InventoryMirror.Mirror.Create | crates/code-intel-cli/src/capability_inventory.rs:441-468 | A mirror is completed exactly when no path is the root's and none is needed as a directory by another; otherwise nothing is left of it |
| InventoryMirror.Mirror.CreateDirectories | crates/code-intel-cli/src/capability_inventory.rs:454-463 | Creating by depth always finds the parent standing |
| InventoryMirror.Mirror.CreateEntry | crates/code-intel-cli/src/capability_inventory.rs:512-543 | An object is created and pushed exactly when its place is free and its parent is a directory |
| InventoryMirror.ParentsPrecede | crates/code-intel-cli/src/capability_inventory.rs:441-468 | On the stack every object comes after the directory it stands in |
| InventoryMirror.LastRemovable | crates/code-intel-cli/src/capability_inventory.rs:545-566 | The object popped still stands, and a directory is empty when it is reached |
| InventoryMirror.Mirror.Cleanup | crates/code-intel-cli/src/capability_inventory.rs:545-566 | Undisturbed, cleanup removes everything without failures; disturbed, it removes only what was created and changes nothing else |
| Capability.NewExactly | crates/code-intel-cli/src/capability.rs:998-1028 | Lists of effects, digests and ids pass exactly when their texts are admitted and pairwise distinct |
| Capability.FindDeclaration | crates/code-intel-cli/src/capability.rs:535-565 | The loop over the registry computes the search, its first faulty entry deciding the error |
| Capability.ReadExactly | crates/code-intel-cli/src/capability.rs:535-565 | A registry reads exactly when every declaration has an id and none is declared twice; the search finds the declaration and adapter that are there, or that there is none |
| Capability.FoundOnce | crates/code-intel-cli/src/capability.rs:535-565 | At most one declaration and adapter is registered under an id |
| CapabilityExec.FailureAccepted | crates/code-intel-cli/src/capability.rs:900-932 | Whatever the request, even one no check admits, a failure envelope passes the envelope check exactly for the five failure exits, the two determinism words and a clock in the years 1 to 9999 |
| CapabilityExec.FailureBoundExactly | crates/code-intel-cli/src/capability.rs:900-932 | A failure names its request's capability, implementation, snapshot and effects exactly when none of them had to be replaced |
| CapabilityExec.OutputDecides | crates/code-intel-cli/src/capability.rs:663-830 | A completed result passes both result checks exactly when the adapter's output is admissible: contained artifact paths, distinct known effects within the request's, and no diagnostic without a fail verdict |
| CapabilityExec.SucceedsExactly | crates/code-intel-cli/src/capability.rs:208-341 | An execution exits 0 or 10 exactly when every check passes and the adapter's output is admissible, 10 exactly for a fail verdict; otherwise it exits with a failure exit |
| CapabilityExec.EmitsValid | crates/code-intel-cli/src/capability.rs:208-341 | For every request, registry, file set and adapter the emitted envelope carries the outcome's exit code, says completed exactly for exits 0 and 10, and passes the check, except for failures reported outside the years 1 to 9999 |
| CapabilityExec.InProcessTransparent | crates/code-intel-cli/src/capability.rs:135-167 | The in-process caller refuses an envelope only for a failure reported outside the years 1 to 9999, and then it does |
| CapabilityExec.EffectsRegistered | crates/code-intel-cli/src/capability.rs:648-685 | Every effect an emitted envelope reports is allowed by the registered declaration |
| CapabilityExec.CompletedReports | crates/code-intel-cli/src/capability.rs:262-320 | A completed envelope lists every artifact with the digest of its bytes, and the effects and verdict the adapter returned |
| CapabilityExec.CompletedMatches | crates/code-intel-cli/src/capability.rs:648-685 | A completed envelope is for the declared capability, implementation and determinism, on the request's snapshot |
| CapabilityExec.FailureExits | crates/code-intel-cli/src/capability.rs:216-230 | Without a declaration the first thing wrong decides the exit: 64, 69, 65, 65 or 64 |
| CapabilityExec.DeclaredExits | crates/code-intel-cli/src/capability.rs:231-340 | With one, each failing check and each adapter error has its exit |

## Left out

- Threads, process spawning, timeouts and panics of executors: an executor is a function, so a panic's error is not modelled.
- The text of error messages, diagnostics and refusal reasons: constructors and shortened constants stand for them.
- JSON serialisation and parsing of specifications, manifests and checkpoints, and size limits of those texts.
- The digest behind a run identity: the canonical document stands for it, so digest collisions are not modelled.
- `OversizePolicy` and cost estimates in the program's own estimator, which reads artifact sizes: estimates are a parameter.
- Artifact references beyond the fields the validators read; paths, kinds and sizes are checked as fields only.
- The other closed-object validators of artifacts, adapters and discovery: field checks that one branch settles.
- Filesystem, Git, ripgrep and handle calls. The inventory mirror works on an abstract tree with identities, so links, paths
  that are not plain component lists, and failures of the operating system are not modelled; nor is the search for a free
  root name.
- InventoryMirror.Mirror.CreateDirectories: the order within one depth is free, because any order there keeps parents first.
- Sha256.CompressInto: the word functions are called by name where the program writes the rotations out in the loop.
- Timestamps.GeneratedTimestampAccepted: says nothing of which other texts the validator accepts.
- DeclaredPins.UnpairedUntouched: the array walked must be well formed; on other text the walk is only known to stay within it.
- DeclaredPins.ResyncRecord: one record; reading and writing the record files and visiting the records is left out.
- DeclaredPins.TokenChased: digests run together with other hexadecimal digits are covered only by `WrittenStays`.
- Discovering pins in parsed records and rendering findings.
- Authority: the attestation digest is a parameter, and the policy document rendered for readers is left out.
- DecisionGap: loading and validating the rule table file; result arrays are maps, which the program emits in key order.
- EvalArms: searching artifact texts for keywords, the exclusion of corpus paths, and the naive arm.
- CapabilityExec: reading request and registry files, argument parsing, and the checks of input artifacts, whose outcome is a
  parameter; paths are those of systems with `/` as the only separator, and error texts are shortened.
- Relative paths of evidence files and the loop that picks a free staging directory: they would add easy members only.
- Reports, Markdown and help text, MCP, environment registries and the Python drivers.
