# Kailua: a verified model of the proving and disputing core

Kailua proves and disputes OP Stack state transitions. A range of L2 blocks is cut into proving jobs whose proofs are
stitched into one journal; the data a proof needs is recorded on the host and replayed in the zkVM; proposals published
in blobs are tracked, judged and, if wrong, disputed at their first wrong output. This project models that logic in
Dafny 4.11 and proves what it is for. `dafny verify dfyconfig.toml` checks everything.

| file | models |
|---|---|
| `Prover.dfy`, `ProverArrivals.dfy`, `Division.dfy` | the divide-and-conquer scheduler over block ranges, as a step system and as the program's loops, and what each arrival does to it |
| `ExecutionTasks.dfy`, `Executions.dfy` | the nested scheduler over execution traces, trace hashes, stitching of traces |
| `Attempts.dfy`, `JobReports.dfy` | one proving job: its attempts, the nested scheduler between them, and exactly when it reports what to the outer one |
| `Stitching.dfy`, `Journal.dfy` | folding boot records into one journal, and the packed journal |
| `VecOracle.dfy`, `OracleReplay.dfy`, `OracleFinalize.dfy`, `OracleClient.dfy`, `Preimages.dfy` | the witness oracle: validation, destructive reads, finalisation, streaming |
| `WitnessFrames.dfy` | recording on the host, framing, and loading in the guest |
| `Blobs.dfy`, `Precondition.dfy`, `Publications.dfy` | publishing outputs in blobs, loading them, and validating derived outputs against them |
| `Proposals.dfy` | judging a proposal, locating its fault, requesting the fault proof |
| `SyncState.dfy`, `SyncHistory.dfy`, `SyncRounds.dfy`, `SyncAgent.dfy` | the agent: canonical chain, eliminations, delayed games, resolution, pruning |
| `SyncOutcomes.dfy`, `SyncPruning.dfy`, `SyncQueue.dfy` | exactly when a game is judged, passed over or put off, what pruning forgets, and in which order games wait |
| `SyncProgress.dfy` | that the agent learns the outputs it needs, and passes every game that it can judge |
| `SyncOutputs.dfy`, `SyncWinners.dfy` | its known outputs, the tournaments on chain, and that the proposals it finds canonical are their winners |
| `CachedExecutor.dfy` | execution behind a cache, recovering a trace, the execution-only check |
| `L1Headers.dfy` | the L1 header cache |
| `Common.dfy`, `BigEndian.dfy`, `Sorting.dfy` | shared helpers |

Assumptions shared by several components are parameters with a named predicate: the L2 chain (`Coherent`, `Distinct`),
the wrapped executor (`Coherent`, `Committed`), the L1 header oracle
(`WellNumbered`), the factory (`GoodGames`), and what the contracts have resolved and whom they have eliminated
(`FairWorld`). "The journal is proven" is a predicate on encoded journals.
Nothing is assumed of the hash functions: where a collision matters, the result says which two values collide. Machine
integers are unbounded unless a type (`U64`, `B256`) or a `requires` bounds them.

Results about the code that its documentation does not mention:

- A proposal with the blobs that an honest proposer publishes, whose intermediate outputs fill them completely (output
  count minus one a positive multiple of 4096), can never pass the validity precondition on its last output, because that
  output's index lies one past the last blob; all other honest ones can (`Precondition.HonestProposalProvableIff`,
  `Precondition.HonestAcceptedIff`). The smallest such proposal has 4097 outputs (`Precondition.FullBlobUnprovable`).
- Finalising a valid recorded store gives a store that validates again exactly if no hashed key was recorded with two
  different values (`OracleFinalize.RevalidatesIffSingleValued`).
- The nested scheduler covers a trace exactly if no chunk boundary before its end carries the claimed output; distinct
  agreed outputs do not suffice (`ExecutionTasks.ReturningTraceGetsOneTask` is a trace of three blocks with one task).
- The outer chunk loop ends exactly if the end of one of the chunks, the start included, has the claimed output
  (`Prover.ChunkLoopEndsIff`). So it ends on every true claim if chunks are not empty, on no claim but the agreed output
  if the chunk size, which is not validated, is zero (`Prover.ZeroChunksEndIff`), and it runs forever on false claims
  such as `Prover.FalseClaimRunsForever`. When it ends it has covered the whole range exactly if no earlier boundary
  carries the claimed output.
- Of the outcomes that the outer loop calls unreachable, one never arrives, and the block count error arrives exactly if
  the derivation-only run misses its cache more often than the limit allows (`Attempts.BlockCountEscapesIff`), which a
  replay of the recorded calls does not (`Attempts.ReplayedRunFits`). A job that has to divide its work although no block
  was executed panics and reports nothing (`Attempts.SilentIff`, `Attempts.SilentJob`), and then the outer loop waits
  forever unless an error stops it (`Attempts.SilentJobBlocks`). The unreachable arms of the nested loop are not taken
  (`Attempts.PossibleRun`).
- A delayed proposal that comes into reach makes the synchronization fail as soon as it is stored, because what follows
  up on it looks under the next index (`SyncRounds.StoredDelayedFails`). If it is canonical, it is not made the tip and no
  canonical chain is left; otherwise the chain stays (`SyncState.PassedKeepsChainIff`, with the state
  `SyncState.DelayedChildBreaks`). While every child of a winner is below the safe block when it is met, no delayed
  proposal is ever stored (`SyncRounds.RoundFair`); a winner that is met above it is passed over for good
  (`SyncRounds.DelayedWinnerMissed`).
- The agent fetches outputs only if it lags by more than a span, and then no further than one proposal's blocks. So with a
  single output per proposal it never fetches any (`SyncProgress.FetchesIff`), and never stores a proposal but the treasury
  (`SyncProgress.SingleOutputStalls`). With more, in a fair world, each synchronization passes every game that loads,
  has complete blobs, and is not above the outputs (`SyncProgress.SyncAchieves`), and once factory and rollup have settled
  all games are passed in as many synchronizations as there are spans up to the highest
  (`SyncAgents.SyncAgent.SyncRepeatedly`).
- A delayed game is taken off the queue before it is processed. If the loop stops at it, because it fails to load or is to be
  tried again when more outputs are known, it is not put back, and no later synchronization looks at it
  (`SyncQueue.StoppedIsGone`, `SyncQueue.GoneStays`).
- A zero block span never reaches the remainder that would divide by it, and the arm for an index past the output count
  is unreachable (`Precondition.PublishedIndexInRange`).

## Model

| member | source | states |
|---|---|---|
| Prover.CutIntoJobs | crates/prover/src/prove.rs:125-194 | the chunk loop, or the single job without providers, produces the initial schedule of the step system |
| Prover.ChunkLoopEndsIff | crates/prover/src/prove.rs:144-185 | the loop ends iff the end of one of the chunks, the start included, has the claimed output |
| Prover.ChunkLoopEnds | crates/prover/src/prove.rs:144-185 | on a true claim and a positive chunk size the loop ends |
| Prover.ZeroChunksEndIff | crates/prover/src/prove.rs:144-185 | with a chunk size of zero the loop ends iff agreed and claimed output are equal |
| Prover.FalseClaimRunsForever | crates/prover/src/prove.rs:144-185 | a false claim of two blocks on which the loop never ends |
| Prover.WholeRangeIff | crates/prover/src/prove.rs:144-185 | the jobs reach the claimed block iff no earlier boundary carries the claimed output |
| Prover.InitialCovers | crates/prover/src/prove.rs:144-185 | the queued chunks are honest, non-empty, counted, and tile the range up to the last boundary |
| Prover.HandleResult | crates/prover/src/prove.rs:230-355 | the body of the waiting loop is the step of the model: results, midpoint splits, forced attempts, each error |
| Prover.ReceiveKeepsBalance | crates/prover/src/prove.rs:230-355 | every arrival keeps results + queued + in flight = num_proofs, makes no empty half, and lowers the work left |
| Prover.ReceiveKeepsCover | crates/prover/src/prove.rs:304-355 | every arrival, splits included, keeps the tiling of the range by honest jobs |
| Prover.WaitKeeps | crates/prover/src/prove.rs:197-397 | for every sequence of arrivals: never waiting with nothing outstanding, balance and tiling kept, at most as many results as there was work |
| Prover.FoldBackward | crates/kona/src/client/stitching.rs:470-503 | folding linked segments in descending order takes the backward branch each time and ends at the first agreed root |
| Prover.CompleteRunProvesRange | crates/prover/src/prove.rs:402-451 | from any balanced, covering, finished state the sorted results compose to the whole range, or are the one proof of it |
| Prover.EveryRunProvesRange | crates/prover/src/prove.rs:144-437 | for every interleaving and split pattern that finishes with all proofs, the final journal has the original agreed root, claimed root and block number |
| Prover.Prove | crates/prover/src/prove.rs:197-451 | the program's loops follow the step system to its end within the initial work, whatever the workers report |
| Prover.OfflineRunIsOneProof | crates/prover/src/prove.rs:186-231 | without a provider there is one job for the whole range, never split, and its proof is the report |
| ProverArrivals.FailureSplits | crates/prover/src/prove.rs:304-394 | with a node, a size or execution error of a job of more than one block keeps the loop running: its span among the outstanding ones is replaced by the two that meet at its middle block |
| ProverArrivals.StopsIff | crates/prover/src/prove.rs:248-355 | exactly which reports of a job stop the loop, and with which exit: other errors, outcomes that cannot be, and failures that no division helps |
| ProverArrivals.ArrivalSettles | crates/prover/src/prove.rs:230-303 | every other report takes its job out of flight, as a result with or without a proof, or as one proof less to wait for |
| ProverArrivals.RunStops | crates/prover/src/prove.rs:197-397 | a run that stops was stopped by its last arrival, which is such a report, and no arrival before it was |
| ProverArrivals.ChunkSizes | crates/prover/src/prove.rs:144-185 | every chunk but the last has exactly as many blocks as allowed, and the last no more |
| ProverArrivals.JournalFields | crates/prover/src/prove.rs:402-437 | which argument of a job is which field of the journal it proves |
| ProverArrivals.FinishCases | crates/prover/src/prove.rs:402-451 | when a finished run composes nothing, panics for want of a proof, or returns its only proof |
| Stitching.StitchBootInfo | crates/kona/src/client/stitching.rs:454-506 | the loop computes the fold of the model, failing where an assertion of the source fails; the result keeps the context it was called with |
| Stitching.StitchOneIff | crates/kona/src/client/stitching.rs:470-503 | a link is accepted iff it is admissible and meets the journal at either end, and extends it there, at the front if it meets both |
| Stitching.RequiredFields | crates/kona/src/client/stitching.rs:478-488 | a link must have been proven with its own transition, in the context of the journal |
| Stitching.FoldForward | crates/kona/src/client/stitching.rs:494-503 | links that follow one another behind the claimed root, without a return to the agreed one, move the claim to the end of the last |
| Stitching.StitchingIsOnePath | crates/kona/src/client/stitching.rs:462-505 | base and list, each used once, form one contiguous path from the final agreed to the final claimed root; every link makes progress on the base's L1 head and was proven |
| Stitching.StitchingIsSound | crates/kona/src/client/stitching.rs:462-505 | if every link is a valid transition, so is the stitched result |
| Journal.DecodeEncodePacked | crates/kona/src/journal.rs:101-147 | decoding an encoded journal gives it back |
| Journal.EncodePackedInjective | crates/kona/src/journal.rs:101-147 | different journals have different encodings |
| Journal.PackedLayout | crates/kona/src/journal.rs:101-113 | which bytes of the packed form are which field |
| BigEndian.MostSignificantFirst | crates/kona/src/journal.rs:101-113 | numbers are encoded with the most significant byte first |
| Executions.TraceHashBinds | crates/kona/src/executor.rs:480-501 | two traces with one hash agree in length and every committed word, or their encodings are a SHA-256 collision |
| Executions.ExecutionLayout | crates/kona/src/executor.rs:480-494 | which bytes that the trace hash commits to are which word of an execution |
| Executions.StitchExecutions | crates/kona/src/client/stitching.rs:335-402 | the checks accept exactly the traces that are non-empty, consistent with their headers, and whose journal is proven |
| Executions.TraceJournalFields | crates/kona/src/client/stitching.rs:369-393 | a trace must have been proven without an L1 head, with its hash as the precondition, from its first agreed root to the claim and number of its last block |
| Executions.MismatchRefused | crates/kona/src/client/stitching.rs:348-369 | one execution with a wrong receipts root or gas, or with requests, has its whole trace refused |
| ExecutionTasks.CreatedTask | crates/prover/src/tasks.rs:486-538 | the cached execution task created for two positions of the cache carries exactly the executions between them |
| ExecutionTasks.QueueTasks | crates/prover/src/tasks.rs:294-336 | the chunk loop queues and counts the tasks of the model |
| ExecutionTasks.ChunksCover | crates/prover/src/tasks.rs:294-336 | the queued tasks are honest and tile the trace up to where the loop stops |
| ExecutionTasks.ChunksReachEndIff | crates/prover/src/tasks.rs:294-336 | the tasks reach the end of the trace iff no boundary before it carries the claimed output |
| ExecutionTasks.ReturningTraceGetsOneTask | crates/prover/src/tasks.rs:294-336 | a linked trace of three blocks with distinct agreed outputs, and a claim other than the first of them, for which one task is queued |
| ExecutionTasks.HandleResult | crates/prover/src/tasks.rs:338-437 | the body of the waiting loop is the step of the model, with all changes to the counter |
| ExecutionTasks.ReceiveKeeps | crates/prover/src/tasks.rs:338-437 | every arrival keeps counter and tiling, halves are never empty, and the work falls |
| ExecutionTasks.WaitKeeps | crates/prover/src/tasks.rs:338-437 | for every sequence of arrivals: never waiting in vain, invariant kept, at most as many results as there was work |
| ExecutionTasks.FailedTaskHalved | crates/prover/src/tasks.rs:378-437 | a size or execution error of a task of more than one block keeps the loop running, with the tasks for the two halves of its blocks in its place |
| ExecutionTasks.TaskStopsIff | crates/prover/src/tasks.rs:338-437 | exactly which reports of an honest task stop the loop, and how |
| ExecutionTasks.ChunkTaskSizes | crates/prover/src/tasks.rs:294-336 | every queued task but the last has exactly as many blocks as allowed, and the last no more |
| ExecutionTasks.CompleteRunReassembles | crates/prover/src/tasks.rs:438-448 | sorted by claimed block the traces of a finished state concatenate to the covered part of the cache |
| ExecutionTasks.EveryRunReassembles | crates/prover/src/tasks.rs:294-448 | the cache that the guest splits off the stitched traces of a finished run is exactly the whole trace iff no boundary before its end carries the claimed output; every task's journal is the one stitching rebuilds |
| ExecutionTasks.StitchingAcceptsRun | crates/kona/src/client/stitching.rs:348-393 | stitching accepts all traces of a finished run, given their proofs |
| ExecutionTasks.ProveExecutions | crates/prover/src/tasks.rs:290-483 | the program's loops follow the step system to its end within the initial work; the exits for a disabled division and an empty cache; the tasks that it hands over are in order, have matching journals, and have traces from which the guest splits off the whole cache iff no boundary before its end carries the claimed output |
| Attempts.TaskReportsExactly | crates/prover/src/tasks.rs:541-652 | a task can report exactly these outcomes: a proof or an execution error if proofs are awaited, that none is awaited if not, a witness too big unless forced, any other error |
| Attempts.PossibleRun | crates/prover/src/tasks.rs:338-437 | on what tasks can report, the nested loop never panics, stops only with an error that no split helps, and ends with all proofs or with none |
| Attempts.NestedReports | crates/prover/src/tasks.rs:290-459 | what the nested scheduler returns under which flags; it panics only on an empty trace |
| Attempts.ComputeFpvmProof | crates/prover/src/tasks.rs:190-483 | the complete attempt, the derivation-only run, the nested scheduler and the final attempt follow one another as in the model |
| Attempts.SilentIff | crates/prover/src/tasks.rs:240-299 | a job panics iff it divides its work although no block was executed |
| Attempts.SilentJob | crates/prover/src/tasks.rs:240-299 | flags and attempts on which a job panics: execution proofs only, and nothing executed |
| Attempts.BlockCountEscapesIff | crates/prover/src/prove.rs:331-336 | a block count error reaches the outer loop iff the derivation-only run executes more uncached blocks than allowed |
| Attempts.BlockCountEscapes | crates/prover/src/prove.rs:331-336 | attempts on which the error reaches the outer loop |
| Attempts.JobReports | crates/prover/src/tasks.rs:190-483 | a job never lacks a proof without an error, never reports that no proof was sought, and skipped proofs only under their flags |
| JobReports.SoughtExactly | crates/prover/src/tasks.rs:541-652 | what an attempt that seeks a proof comes to, for each answer of its stages |
| JobReports.UnsoughtExactly | crates/prover/src/tasks.rs:254-279 | what an attempt that seeks none comes to |
| JobReports.TooMuchIff | crates/prover/src/tasks.rs:213-245 | exactly when the complete attempt is to be divided |
| JobReports.ProvenIff | crates/prover/src/tasks.rs:190-483 | a job reports a proof iff its complete attempt makes one, or all tasks are proven and then the final attempt is |
| JobReports.NotAwaitedIff | crates/prover/src/tasks.rs:190-483 | exactly when a job reports that its proof is not awaited |
| JobReports.DerivationSkippedIff | crates/prover/src/tasks.rs:449-459 | exactly when a job reports execution proofs without derivation |
| JobReports.ExecutionErrorIff | crates/prover/src/tasks.rs:190-483 | a job reports a failed execution iff one of its proving stages does |
| JobReports.WitnessSizeIff | crates/prover/src/tasks.rs:254-279 | a job reports a witness too big iff that of its derivation-only run is |
| JobReports.OtherErrorIff | crates/prover/src/tasks.rs:190-483 | a job reports any other error iff the stage it got to met one, or division is disabled |
| JobReports.NestedReturns | crates/prover/src/tasks.rs:438-459 | on arrivals that finish the nested loop, the job goes on with the proven tasks in order, or reports what was skipped |
| Attempts.ReplayedRunFits | crates/prover/src/tasks.rs:254-279 | a derivation-only run that repeats the recorded calls executes no uncached block |
| Attempts.StitchingIsOneAttempt | crates/prover/src/tasks.rs:213-245 | composing proofs onto an instruction without blocks is never divided |
| Attempts.JobsRun | crates/prover/src/prove.rs:197-397 | on what jobs can report, the outer loop panics only for want of a node to split with, and ends with a proof for every required job, or with none if proofs are skipped |
| Attempts.SilentJobBlocks | crates/prover/src/prove.rs:197-247 | while an outstanding job is silent, no arrivals complete the loop, and the job stays outstanding |
| Attempts.AllReportEnds | crates/prover/src/prove.rs:197-247 | if every job reports, their reports end the loop |
| Attempts.EveryJobsRunProvesRange | crates/prover/src/prove.rs:144-437 | every finished run on what jobs can report proves the whole range, if the proofs delivered are those of their jobs |
| VecOracle.Validate | crates/kona/src/oracle/vec.rs:135-159 | the loop accepts iff every entry is accepted, else reports the first rejected one |
| Preimages.ValidatedIff | crates/kona/src/oracle/mod.rs:78-100 | a value is accepted iff its key is no hash or is its own; the two unsupported kinds of key panic |
| VecOracle.ValidationSound | crates/kona/src/oracle/vec.rs:135-159 | whatever the pointers, in an accepted store every value that needs it is the preimage of its key, though only pointer-free ones are hashed |
| VecOracle.ServeRemovesLast | crates/kona/src/oracle/vec.rs:342-382 | a read removes exactly the last entry with its key across all shards, returns its value, and keeps the others in order |
| OracleReplay.ServedInFull | crates/kona/src/oracle/vec.rs:342-382 | a list of reads is served in full iff the store holds enough copies of each key, and the rest stays |
| OracleReplay.ServedByHistory | crates/kona/src/oracle/vec.rs:342-382 | in any order, the reads of a key return its values from the last stored one on |
| OracleReplay.AnyOrderDrains | crates/kona/src/oracle/vec.rs:342-382 | any reordering of the recorded keys is served in full and empties the store |
| OracleFinalize.ShardsAreGreedy | crates/kona/src/oracle/vec.rs:245-262 | a shard exceeds the limit only as empty values followed by one oversized value, and is closed only when the next value does not fit |
| OracleFinalize.LastBeforeIsNearest | crates/kona/src/oracle/vec.rs:263-275 | a pointer goes to the nearest earlier occurrence of its key |
| OracleFinalize.FinalizeReverses | crates/kona/src/oracle/vec.rs:236-275 | finalising reverses the recorded accesses, and without pointers the entries themselves |
| OracleFinalize.RecordReplay | crates/kona/src/oracle/vec.rs:236-382 | any recorded access sequence, finalised with any shard size, is answered with its values in order and drains the store |
| OracleFinalize.RevalidatesIffSingleValued | crates/kona/src/oracle/vec.rs:135-275 | a valid recorded store validates again after finalisation iff no hashed key was recorded with two values |
| OracleFinalize.SingleValuedOrCollision | crates/kona/src/oracle/mod.rs:78-100 | a valid store is single-valued, or two of its values are a hash collision |
| OracleFinalize.ShardsAcceptedAlone | crates/kona/src/oracle/vec.rs:342-360 | without pointers each shard is valid on its own, as streaming requires |
| OracleClient.Oracle.PreimageCount | crates/kona/src/oracle/vec.rs:163-165 | the number of entries in all shards |
| OracleClient.Oracle.InsertPreimage | crates/kona/src/oracle/vec.rs:204-220 | a valid preimage is pushed onto the last shard, an invalid one changes nothing |
| OracleClient.PushedAppends | crates/kona/src/oracle/vec.rs:204-220 | pushing appends to the flat store and keeps it valid and pointer-free |
| OracleClient.ShardEntries | crates/kona/src/oracle/vec.rs:245-262 | the loop with its running size computes the greedy sharding |
| OracleClient.Oracle.FinalizePreimages | crates/kona/src/oracle/vec.rs:236-275 | finalises a valid store in place and leaves an invalid one |
| OracleClient.Oracle.AddPointers | crates/kona/src/oracle/vec.rs:263-275 | the pass with its cache of positions links every entry to the nearest earlier one of its key |
| OracleClient.Oracle.Get | crates/kona/src/oracle/vec.rs:342-402 | reading streamed shards on demand answers as one store with all shards in memory would, and leaves the queue empty; an exhausted read leaves everything in the queue, and a later read starts with it |
| OracleClient.Oracle.GetAll | crates/kona/src/oracle/vec.rs:342-402 | a list of reads, one after the other, is answered as by the store in memory, whatever is left in the queue at the start |
| WitnessFrames.RecordedGet | crates/prover/src/client/witgen.rs:177-207 | what is fetched is returned and recorded at the end of the store |
| WitnessFrames.ShardWitnessData | crates/prover/src/client/proving.rs:334-345 | the shards are moved out in order, empty ones stay behind |
| WitnessFrames.EncodeWitnessFrames | crates/prover/src/client/proving.rs:312-332 | an emptied main frame, the oracle's shards in order, the streamed shards reversed |
| WitnessFrames.LoadExtensionShards | build/risczero/kona/src/main.rs:32-48 | the guest fills each empty shard of the main frame with the next frame |
| WitnessFrames.LoadedRestores | build/risczero/kona/src/main.rs:32-48 | loading the frames of a store gives the store back and leaves the streamed frames |
| WitnessFrames.PreloadedReplays | crates/prover/src/client/witgen.rs:109-114 | the preloaded oracle is restored and answers the recorded accesses in order until empty; the guest accepts it iff no hashed key was answered in two ways |
| WitnessFrames.RejectionShowsCollision | crates/prover/src/client/witgen.rs:109-114 | if the guest rejects a valid recording, two recorded values are a hash collision |
| WitnessFrames.ReplayPreloaded | crates/kona/src/oracle/vec.rs:342-402 | an oracle object that holds the preloaded store answers the recorded list and ends empty |
| WitnessFrames.ReplayStreamed | crates/kona/src/oracle/vec.rs:342-402 | a guest oracle object over the streamed frames answers the recorded list and ends empty |
| WitnessFrames.StreamedReplays | crates/prover/src/client/proving.rs:312-332 | every streamed frame is accepted on its own, and the frames answer the recorded accesses in order until empty |
| Blobs.FieldElements | crates/kona/src/blobs.rs:263-277 | the loop returns the elements of the range, or fails iff one of them is not reduced |
| Blobs.HashToFeIff | crates/kona/src/blobs.rs:290-292 | a number is the element of a hash iff it is below the modulus and differs from the hash by a multiple of it |
| Blobs.CreateSidecar | crates/sync/src/proposal.rs:540-558 | the loop produces full blobs and a zero-padded last one |
| Blobs.SidecarFe | crates/sync/src/proposal.rs:540-558 | the k-th element stands at k mod 4096 of blob k div 4096 |
| Blobs.LoadBlobs | crates/sync/src/proposal.rs:376-393 | the blob loop computes intermediate outputs and trail, or fails on an invalid element |
| Blobs.SidecarRoundTrip | crates/sync/src/proposal.rs:369-393 | loading a published sidecar gives back exactly the elements and a trail of zeros of the length that is left |
| Precondition.ValidatePrecondition | crates/kona/src/precondition.rs:324-413 | the loop with its early exits computes the check of the model |
| Precondition.ValidationComposes | crates/kona/src/precondition.rs:338-413 | validating two consecutive segments equals validating them together |
| Precondition.SegmentsCompose | crates/kona/src/precondition.rs:338-413 | the same for any cut into any number of segments |
| Precondition.AcceptedIff | crates/kona/src/precondition.rs:338-411 | accepted iff the outputs end within the proposal and agree at every published block; at the last one the index lies in the last blob and zeros follow |
| Precondition.PublishedIndexInRange | crates/kona/src/precondition.rs:366-409 | within the range the span is positive, the index does not underflow and stays below the output count |
| Precondition.PanicsIffBlobMissing | crates/kona/src/precondition.rs:366-409 | the check of an output panics iff the output is published and the blobs do not reach it |
| Precondition.ValidatePanicsIff | crates/kona/src/precondition.rs:338-411 | validation panics iff it meets such an output before anything that it rejects |
| Precondition.HonestAcceptedIff | crates/kona/src/precondition.rs:358-401 | honest blobs pass on honest outputs of any sub-range, except where it reaches the last output of a proposal that fills its blobs |
| Precondition.HonestProposalProvableIff | crates/kona/src/precondition.rs:391-401 | a whole honest proposal passes iff the output count is one or, minus one, not a multiple of 4096 |
| Precondition.FullBlobUnprovable | crates/kona/src/precondition.rs:391-401 | honest blobs of 4097 outputs do not pass on the honest outputs |
| Publications.LoadedIsAll | crates/sync/src/proposal.rs:376-393 | loading keeps every element of the blobs in order, the first count - 1 as outputs |
| Publications.ProvableIff | crates/kona/src/precondition.rs:358-401 | the validity proof accepts a loaded proposal iff all elements are right, the trail is zero and the last index lies in the last blob |
| Publications.ElementAcceptedIff | crates/kona/src/precondition.rs:374-391 | a published element passes iff it is congruent to the derived output modulo the BLS modulus |
| Publications.AgentAgreesWithProof | crates/sync/src/agent.rs:577-642 | the agent finds a judged proposal correct exactly when its blobs pass the validity precondition, but for the last-blob condition |
| Publications.HonestProposalFoundCorrect | crates/sync/src/agent.rs:577-642 | an honest proposal loaded from its own sidecar is judged, and found correct |
| Proposals.FindFault | crates/sync/src/proposal.rs:460-479 | the loops find the first bad trailing element, else the first bad output, else a bad claim |
| Proposals.LocatedFaultUnique | crates/sync/src/proposal.rs:460-479 | there is at most one such fault |
| Proposals.AssessCorrectness | crates/sync/src/agent.rs:577-642 | the loops over outputs and trail compute the assessment of the model, with its failures |
| Proposals.JudgedVerdicts | crates/sync/src/agent.rs:577-642 | what each verdict of a judged proposal means: parent, claim, every output as congruence with the local one, every trailing element |
| Proposals.AssessmentPanicsIff | crates/sync/src/agent.rs:583-600 | assessment panics iff the proposal is not resolved and its tracked parent is undecided |
| Proposals.AssessmentDecides | crates/sync/src/agent.rs:577-642 | a judged proposal is decided, and correct iff parent, claim, outputs and trail are |
| Proposals.AssessmentBailsIff | crates/sync/src/agent.rs:577-642 | assessment fails iff local outputs are missing, or elements are missing from an otherwise correct proposal |
| Proposals.IncorrectIffFaulty | crates/sync/src/proposal.rs:431-479 | a judged proposal is incorrect iff it has a fault or an incorrect parent |
| Proposals.RequestFaultProof | crates/validator/src/requests.rs:207-251 | the request spans one block span from the located fault on, with the local outputs at both ends |
| Proposals.OutputFaultIsFirstDivergence | crates/validator/src/requests.rs:219-251 | all outputs before an output fault agree with the local ones and it does not, so the request starts at the last agreed block; the element there is the offending one |
| Proposals.RequestEndsAtFault | crates/validator/src/requests.rs:219-251 | what is requested for an output fault leads from the last published output that agrees, or the parent, to the first that does not, with the local outputs at both |
| Proposals.TrailFaultIsFirstNonZero | crates/sync/src/proposal.rs:523-538 | the element at a trail fault is the first non-zero one behind the outputs |
| SyncState.NewCanonicalExtendsTip | crates/sync/src/agent.rs:546-573 | the parent of every newly canonical proposal is the canonical tip |
| SyncState.StoredKeeps | crates/sync/src/agent.rs:305-325 | storing a proposal and following up on it keeps the chain invariant |
| SyncState.SyncLoadedKeeps | crates/sync/src/agent.rs:471-575 | processing a game in order never crashes and keeps the invariant; only correct proposals of proposers in good standing become canonical |
| SyncState.DecisionSafe | crates/sync/src/agent.rs:707-729 | the timeout check never misses the successor nor underflows, and who takes part extends the chain |
| SyncState.CanonicalHeightsRise | crates/sync/src/agent.rs:644-660 | later canonical proposals are higher, by a proposal's blocks at least |
| SyncState.SuccessorPresent | crates/sync/src/agent.rs:719-723 | every tracked proposal's successor is tracked and was made later |
| SyncState.TipReachable | crates/sync/src/agent.rs:346-391 | following successors from the last resolved proposal leads to the tip |
| SyncState.PruneKeeps | crates/sync/src/agent.rs:168-184 | pruning keeps the chain from the last resolved proposal on, and that proposal |
| SyncState.FreeKeeps | crates/sync/src/agent.rs:190-207 | no output at or above the floor is freed |
| SyncState.StoredByGuard | crates/sync/src/agent.rs:644-667 | what is stored is canonical iff before it takes part it is found correct, by a proposer in standing, and above the tip |
| SyncState.PassedKeepsChainIff | crates/sync/src/agent.rs:304-325 | a delayed game that is stored leaves a state with a canonical chain iff that guard fails for it beforehand |
| SyncState.DelayedChildBreaks | crates/sync/src/agent.rs:304-325 | a state with a chain and one delayed game, after which there is none |
| SyncHistory.SyncLoadedEvolves | crates/sync/src/agent.rs:471-575 | processing a game never changes a verdict, a written successor, or an elimination |
| SyncHistory.PruneEvolves | crates/sync/src/agent.rs:168-209 | pruning forgets only proposals before the last resolved one and outputs a proposal's blocks below it |
| SyncHistory.EliminatedStaysOut | crates/sync/src/agent.rs:644-667 | nothing made after its proposer's elimination index becomes canonical, at any later time |
| SyncWinners.JudgedTruthful | crates/sync/src/agent.rs:577-642 | against true local outputs a judged game is correct iff its data is that of the rollup and its parent counts as correct |
| SyncWinners.WinnerBetween | crates/contracts/foundry/src/KailuaTournament.sol:291-406 | the winners of the tournaments form one path: between two of them lies the winning child of the earlier one |
| SyncWinners.ThirdChildWins | crates/contracts/foundry/src/KailuaTournament.sol:161-169 | a tournament whose second truthful child wins, as the proposer of the first has been eliminated |
| SyncWinners.ThirdChildFair | crates/contracts/foundry/src/KailuaTournament.sol:291-406 | that tournament is a fair world before it is played and after its winner has been resolved |
| SyncWinners.GrowingCourseFair | crates/contracts/foundry/src/KailuaTournament.sol:291-406 | so are the synchronizations before the children are proposed, after, and when the winner is resolved, one after the other |
| SyncWinners.EndlessCourseFair | crates/contracts/foundry/src/KailuaTournament.sol:291-406 | a rollup whose proposals never end is fair in each of infinitely many synchronizations, the last proposal just below the safe block |
| SyncWinners.WinnerParentIsTip | crates/sync/src/agent.rs:644-660 | when a winner is met, its parent is the canonical tip |
| SyncWinners.CanonicalIffWinner | crates/sync/src/agent.rs:534-573 | what is about to be stored is canonical iff it is the winner of its tournament |
| SyncWinners.SkippedPassable | crates/sync/src/agent.rs:679-730 | a game that does not take part is no winner, and a blemish among them is by a proposer known to be out |
| SyncWinners.WrongIsBlemish | crates/sync/src/agent.rs:679-730 | a wrong game that takes part opposes the winner in time, so its proposer is rightly eliminated |
| SyncWinners.SyncLoadedFair | crates/sync/src/agent.rs:471-575 | in a fair world processing the next game keeps the canonical proposals the winners and eliminations just, and a resolved game extends the chain |
| SyncRounds.LoopStepForward | crates/sync/src/agent.rs:278-341 | every round keeps successors ahead and moves on by one index at most; it aborts iff a delayed game is stored |
| SyncRounds.StoredDelayedFails | crates/sync/src/agent.rs:301-313 | a delayed game that is stored ends the loop with an error, and the tip stays |
| SyncRounds.RoundFair | crates/sync/src/agent.rs:278-341 | in a fair world every round, over a new or a delayed game, is lawful and fair, and only games off the winners' path are passed over as too far ahead |
| SyncRounds.DelayedWinnerMissed | crates/sync/src/agent.rs:292-300 | a winner that is delayed at or above the safe block leaves no fair state: it is passed over |
| SyncOutcomes.DelayedIff | crates/sync/src/agent.rs:503-532 | a game is put off iff its parent is tracked, or nothing is, and it is more than a span ahead of the outputs |
| SyncOutcomes.IgnoredIff | crates/sync/src/agent.rs:503-544 | a game is passed over iff its parent is not tracked, or it is not too far ahead and barred: an eliminated proposer, a parent that is not canonical, or too late |
| SyncOutcomes.FailedIff | crates/sync/src/agent.rs:546-562 | a game in order is an error iff it is none of these and its assessment fails |
| SyncOutcomes.ChildrenIff | crates/sync/src/agent.rs:679-705 | of the tracked proposals exactly the parent of a game that is neither resolved nor too far ahead gets it as a child |
| SyncOutcomes.RoundWrites | crates/sync/src/agent.rs:305-325 | all that follows on a stored game: next index, tip, last resolved proposal, and the elimination of the proposer of a wrong one |
| SyncPruning.RetainedIff | crates/sync/src/agent.rs:180-183 | exactly the delayed indices not below the last resolved one are retained, in order |
| SyncPruning.FreedIff | crates/sync/src/agent.rs:190-205 | exactly those outputs are freed that lie at spans before the floor, as far back as all of them are stored |
| SyncPruning.PruneLeaves | crates/sync/src/agent.rs:168-209 | what pruning leaves of proposals, delayed games and outputs |
| SyncQueue.StagesQueued | crates/sync/src/agent.rs:278-343 | after a synchronization the delayed games wait in the order of the factory, each once |
| SyncQueue.StoppedIsGone | crates/sync/src/agent.rs:279-300 | a delayed game at which the loop stops is no longer queued, and behind the next index |
| SyncQueue.GoneStays | crates/sync/src/agent.rs:278-343 | and so it is never looked at again, in any later synchronization |
| SyncOutputs.BatchLearned | crates/sync/src/agent.rs:741-779 | loading the persisted outputs of a batch and fetching the missing ones is learning the whole batch |
| SyncOutputs.FetchCovers | crates/sync/src/agent.rs:736-785 | every output of the fetched grid is known afterwards, and true |
| SyncProgress.FetchLearns | crates/sync/src/agent.rs:244-267 | if the outputs lag by more than a span, all of the grid up to the safe block or a proposal's blocks are learned, and the last index moves to the last of them; else nothing changes |
| SyncProgress.FetchesIff | crates/sync/src/agent.rs:249-251 | some safe block makes the agent fetch iff a proposal has more than one output |
| SyncProgress.SingleOutputStalls | crates/sync/src/agent.rs:230-437 | with one output per proposal no proposal with a parent is ever stored |
| SyncProgress.FetchKnows | crates/sync/src/agent.rs:244-267 | fetching keeps every recent output up to the last index known |
| SyncProgress.PrunedKnows | crates/sync/src/agent.rs:168-208 | resolving and pruning free none that a game next in order needs |
| SyncProgress.NextPasses | crates/sync/src/agent.rs:278-341 | a new game that loads, is whole, and is not above the last output never stops the loop |
| SyncProgress.QueuedPasses | crates/sync/src/agent.rs:278-341 | nor does a delayed game in a fair world |
| SyncProgress.LoopPasses | crates/sync/src/agent.rs:278-341 | in a fair world the loop passes all new games that are reached, and the agent still knows what it needs |
| SyncProgress.SyncAchieves | crates/sync/src/agent.rs:230-437 | a synchronization in a fair world extends the outputs as far as they lag, knows those still needed, passes all games reached with them, and resolves to the first unresolved successor |
| SyncProgress.CatchesUp | crates/sync/src/agent.rs:244-341 | once factory and rollup have settled, the last output rises by a span each time until all games are passed |
| SyncProgress.PairSettled | crates/sync/src/agent.rs:244-341 | a treasury and one proposal of two outputs, on which the course is fair, factory and rollup are settled, and a fresh agent is informed |
| SyncAgents.SyncAgent.SyncOutputs | crates/sync/src/agent.rs:736-785 | fetching in batches, from the database where possible, learns every output of the grid and moves the last index to the highest |
| SyncAgents.SyncAgent.constructor | crates/sync/src/cursor.rs:92-129 | a fresh agent is fair, and informed if its last output is the block that the anchor starts from |
| SyncAgents.SyncAgent.DetermineTournamentParticipation | crates/sync/src/agent.rs:679-730 | the checks and the appended child are those of the model |
| SyncAgents.SyncAgent.DetermineIfCanonical | crates/sync/src/agent.rs:644-660 | the verdict is that of the model |
| SyncAgents.SyncAgent.SyncProposal | crates/sync/src/agent.rs:471-575 | one factory entry changes the state as in the model |
| SyncAgents.SyncAgent.PruneData | crates/sync/src/agent.rs:168-209 | the loops compute the pruned state |
| SyncAgents.SyncAgent.ProcessGames | crates/sync/src/agent.rs:278-341 | the loop over delayed and new games keeps the chain invariant and undoes nothing while it is lawful, and the winners canonical in a fair world |
| SyncAgents.SyncAgent.ResolveProposals | crates/sync/src/agent.rs:346-391 | the cursor follows resolved successors along the chain to the first unresolved one, pruning at each |
| SyncAgents.SyncAgent.Sync | crates/sync/src/agent.rs:230-437 | from any queue of delayed games: after a lawful synchronization the invariant holds, nothing was undone and nothing crashed; in every fair world it is lawful, the canonical proposals are the winners, and it achieves the progress of `SyncProgress.SyncAchieves`; it is lawful too if nothing was resolved before it is met and the delayed games are still too far ahead; in any world the last output moves as far as it lags; it reports the final block iff that is resolved, and else the processed games still tracked, in order |
| SyncAgents.SyncAgent.SyncRepeatedly | crates/proposer/src/propose.rs:95-113 | over any number of synchronizations on a fair course: no crash, nothing undone, the tracked canonical proposals are the winners of their tournaments, and no winner met since the last resolved one is missing; once factory and rollup have settled, all games are passed in as many synchronizations as there are spans to the highest |
| CachedExecution.CachedExecutor.ExecutePayload | crates/kona/src/executor.rs:158-186 | hit, recorded miss, plain miss and error change cache, target and state as in the model |
| CachedExecution.CacheIsTransparent | crates/kona/src/executor.rs:158-186 | with any cache of true executions every call sequence gets the replies and ends in the state it has without a cache |
| CachedExecution.CollectsRecording | crates/kona/src/executor.rs:171-184 | the collection target receives exactly the successful executions in order |
| CachedExecution.ReplayHitsAlways | crates/kona/src/client/core.rs:271-286 | replaying the calls on the reversed trace serves every success from the cache and empties it |
| CachedExecution.RecoverCollectedExecutions | crates/kona/src/client/core.rs:384-399 | each claimed output becomes the next agreed one, the last the claim |
| CachedExecution.RecoveredReplays | crates/kona/src/client/core.rs:271-399 | a run recorded, recovered and reloaded replays from the cache alone, to the same state |
| CachedExecution.VerifyTrace | crates/kona/src/client/core.rs:171-231 | the loop of the execution-only check computes the verification of the model |
| CachedExecution.VerifiedIff | crates/kona/src/client/core.rs:188-231 | a trace is accepted iff it has one block per number up to the claimed one, replays from the agreed root, and claims the true root at every block; the result is the last of them |
| CachedExecution.RecoveredTracePasses | crates/kona/src/client/core.rs:203-229 | the trace recovered from a run that builds block on block passes the execution-only check |
| CachedExecution.VerifiedIsTrue | crates/kona/src/client/core.rs:203-229 | a trace that passes the check consists of true executions |
| CachedExecution.VerifiedCacheIsTransparent | crates/kona/src/client/core.rs:203-286 | deriving with a checked trace as cache gives what deriving without a cache gives |
| L1Headers.L1ChainProvider.New | crates/kona/src/kona.rs:43-67 | a provider with the head only, or empty at a zero hash, meets the invariant; there is none if the head cannot be fetched |
| L1Headers.L1ChainProvider.HeaderByHash | crates/kona/src/kona.rs:100-115 | cached or not, the answer is the oracle's |
| L1Headers.L1ChainProvider.BlockInfoByNumber | crates/kona/src/kona.rs:146-173 | answers as an uncached parent walk, keeps chain and index, and requests each new header once; a failed fetch keeps the cache valid |
| L1Headers.IndexIsInverse | crates/kona/src/kona.rs:146-173 | the map is the exact inverse of the list of headers |
| L1Headers.LookupFindsNumber | crates/kona/src/kona.rs:146-173 | what is found has the requested number and is authenticated by its hash |
| L1Headers.FoundIff | crates/kona/src/kona.rs:146-173 | a block is found iff it is not above the head and all headers from the head to it can be had |

## Left out

- RPC, async plumbing, retries, telemetry, disk and file caches, errors of the output database, and command-line arguments: fetched data are functions or parameters.
- Solidity contracts: what they guarantee (heights, timestamps in index order, indices) is the predicate `GoodGames`, and what is resolved is a parameter of each synchronization.
- SHA-256, Keccak, KZG, receipts, RLP and rkyv: opaque functions; a serialised shard is represented by the shard. The type byte of a preimage key replaces the first byte of its hash, so the opaque hashes stand for the other 31 bytes.
- The kona driver, executor and derivation pipeline: a deterministic machine that receives a sequence of calls.
- SyncAgents.SyncAgent.Sync: its chain properties are stated while the ghost flag `lawful` holds, that is, as long as no resolved proposal was met whose tracked parent is off the canonical chain, and no delayed proposal was stored. It holds in every fair world (`FairFrom`), and when no game is resolved before it is met and the delayed games are too far ahead; where it fails, `SyncState.PassedKeepsChainIff` says for delayed games what is lost, and where the chain resolves a game that the agent finds wrong, the tracked chain is not that of the deployment.
- SyncAgents.SyncAgent.SyncRepeatedly: the number of synchronizations until all games are passed is bounded for a factory that no longer grows; while it grows, `SyncProgress.SyncAchieves` says what each one passes.
- The order in which the contracts eliminate: a fair world (`RoundsJust`) has every proposer eliminated for the first of their blemishes, which the contracts need not do if two of their games are wrong in tournaments that are open at once.
- L1 head maps of the agent: their pruning comes last and its failure is only logged.
- The cursor of the agent and its proposals are values in fields of the agent, not objects of their own.
- One reorder queue shared by two oracles: each oracle has its own.
- Proposals.RequestFaultProof: for trail faults only the arithmetic of the source is modelled, its use on chain is not shown in the repository.
- The contents of receipts: an attempt yields a proof or an error, and a proof is that of its job if its journal is proven.
- `PreloadedBlobProvider`, `load_precondition_data` and KZG checks: popping verified blobs in order adds only easy members.
- Using the journal on chain: fault and validity dispute transactions, signers, Boundless and Bonsai clients, alternative DA providers.
- Overflow of 64-bit sums, on which the program panics in every build profile: sums of block numbers are taken not to overflow.
