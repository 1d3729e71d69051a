# Verified models of pathfinder's core

This project models the parts of pathfinder, a Starknet full node, whose correctness spans several
functions, and proves what they promise over every input and every run.

| file | what it models |
|---|---|
| `Consensus.dfy`, `ConsensusRuns.dfy`, `ConsensusDelivery.dfy`, `ConsensusManager.dfy`, `WalNames.dfy` | the consensus height manager: one engine and one write-ahead log (WAL) file per height, pruning, crash recovery |
| `StateUpdate.dfy`, `StateDiff.dfy` | state updates read as layers, merged, and produced from an execution |
| `DiffCommitment.dfy`, `DiffDecoding.dfy`, `DiffLength.dfy` | the canonical felt stream of a state diff, a reader that recovers the diff from it, and its length |
| `GasSearch.dfy` | the binary search for an L2 gas limit over a stateful executor |
| `TraceCache.dfy`, `ClassCache.dfy` | the in-flight trace cache as a concurrent protocol; the height-guarded class cache |
| `Events.dfy` | the order of events and messages in a receipt |
| `Poseidon.dfy`, `PoseidonHash.dfy`, `PointTables.dfy` | generated constants: compressed Poseidon round keys and windowed point tables; the incremental Poseidon hasher |
| `L2GasPrice.dfy`, `L1GasPrice.dfy` | the L2 base price update and the L1 price buffer |
| `Packing.dfy`, `TransactionHash.dfy` | numbers packed into felts, and the version-3 transaction hash preimage |

How the models are built. Pure code is functions; code that updates state in place is methods and
classes with loops, each proved equal to a specification function on values, and the theorems are
lemmas about those functions. Whatever the code cannot control is a parameter that the theorems
quantify over: what the Malachite core asks for (effects), hash map iteration order, which files
cannot be read or deleted, what a cache evicts, what the executor and the list hash compute. The
release profile turns on overflow checks (Cargo.toml, line 166), so an unsigned overflow is a
failure in the model, not a wrap-around.

What does not hold in general, exactly when it does, and an input for which it fails:

- Issuing `StartHeight` keeps all finality answers exactly when the height is not finalized yet
  (`RestartLosesFinalityExactly`).
- A recovery keeps all finality answers exactly when nothing was finalized, or all files are
  readable, every finalized height that is rebuilt gets its WAL back and its file holds a decision or
  its replay decides, and every finalized height that is not rebuilt lies below the window of the
  highest file (`RecoveryKeepsFinalityExactly`). The last part holds by itself when every tracked
  height has a file (`LoggedRecoveryKeepsFinalityExactly`). `RecoveredFinalityExactly` says for every
  disk and height what the recovered manager answers. In `LeftoverFileLosesFinality` a pruned,
  undecided file that could not be deleted is enough, in `UnloggedTopLosesFinality` a highest height
  whose WAL could not be created.
- A WAL file name parses back to its height exactly when the address has no dash, or what follows
  its first dash happens to parse to that height (`NameRoundTrip`; `DashedAddress`).
- Reading through `a.apply(b)` equals reading through the layers, for any two updates, exactly when a
  deployment in `b` hides no non-zero value of `a`, a deployment in `a` that `b` replaces hid none
  below it, and no contract entry or deployment in `a` wins over a different system entry in `b`
  (`MergePreservesReadsExactly`; `ReplacedDeployUncovers`, `MixedMapsShadow`). The last case needs a
  system address in the contract map.
- The diff of an execution reproduces the post-state exactly when every contract that gets its first
  class had no nonce or storage besides the execution's own writes, and, for a system contract, those
  writes are zero (`DiffReproducesState`; `WrittenBeforeDeployed`).
- `StateUpdate::state_diff_length` is the number of records in the commitment stream exactly when no
  pair is both declared and migrated and no address has storage in both maps
  (`LengthMatchesRecords`; `MigratedTwiceCounted`).
- A storage limit of zero still keeps one L1 sample (`LimitHonouredExactly`).
- With either set of L2 constants, the price addition leaves u128 exactly for a block one gas unit
  above the target at a price near the top of the range, or below a huge minimum (`OverflowsExactly`;
  `OneAboveTargetOverflows`).
- From the minimum up, the price moves by at most price / 48 exactly when the block is not above the
  target, the product overflows, or the product stays below a bound (`MoveBoundExactly`). It is
  nondecreasing in the gas used, over all u128 amounts, exactly when the price is below the minimum or
  the overflow fallback does not undercut a smaller block (`MonotoneExactly`). Both hold for blocks of
  at most twice the target; `PastTwiceTarget` fails both.
- The class cache agrees with the uncached lookup for every reader exactly when each entry is still
  backed by a declaration (`AgreesExactly`); a reorg that withdraws one is not noticed
  (`WithdrawnClassStillServed`).
- A key has an in-flight entry without a working leader only after a failure to collect initial reads
  (`InflightHasLeader`). Such an entry goes exactly when it is evicted, or when another caller of the
  key, still leading since an earlier entry was evicted under it, finishes or fails on its state diff
  (`LiftedExactly`); until then every caller of the key that had not entered fails
  (`AbandonedKeyFails`; `AbandonedRun`).
- The packed block counts stay below the field order exactly up to 2^59 + 16 transactions
  (`BelowPExactly`), but are injective after reduction for all u64 counts (`CountsInjective`).

Where code and comments disagree the model follows the code: `apply` does not merge migrated classes,
and the two `state_diff_length` functions differ on them.

## Model

| member | source | states |
|---|---|---|
| ConsensusRuns.FinalityStable | crates/consensus/src/lib.rs:843-857 | over every run of commands, polls with pruning, crashes between or inside polls and recoveries, finalized heights stay finalized and neither the highest tracked height nor the lower end of the kept window moves back |
| ConsensusRuns.FinalityStableFromStart | crates/consensus/src/lib.rs:843-857 | from an empty manager, what holds at any point of a run holds at every later point |
| ConsensusRuns.StepKeeps | crates/consensus/src/lib.rs:683-823 | each single step keeps the invariant that ties engines, sinks, files and the kept window together |
| ConsensusRuns.DecisionsNeverLost | crates/consensus/src/lib.rs:482-612 | along every run whose heights start inside the window, the last decided height never goes down, crashes included, and its decision stays on disk |
| ConsensusRuns.DecisionsNeverLostFromStart | crates/consensus/src/lib.rs:482-612 | from an empty manager, the last decided height at any point is not above the one at a later point, whose decision is on disk |
| ConsensusRuns.OnePastIsInWindow | crates/consensus/src/lib.rs:756-765 | starting at most one past the last decided height is inside the window for every depth of at least one |
| ConsensusRuns.RestartLosesFinalityExactly | crates/consensus/src/lib.rs:683-711 | `StartHeight` keeps every finality answer if and only if the height was not finalized |
| ConsensusRuns.RecoveryKeepsFinalityExactly | crates/consensus/src/lib.rs:462-623 | for every manager state and every outcome of reading and reopening files: recovery keeps every finality answer if and only if nothing was finalized, or all files are readable, each finalized height that is rebuilt has its WAL and holds a decision or decides in its replay, and each one that is not rebuilt lies below the window of the highest file |
| ConsensusRuns.LoggedRecoveryKeepsFinalityExactly | crates/consensus/src/lib.rs:462-623 | the same without the last part, when every tracked height has its file |
| ConsensusRuns.RecoveredFinalityExactly | crates/consensus/src/lib.rs:462-623 | which heights a recovered manager reports as finalized, for every disk, unreadable files and failed WAL creation included |
| ConsensusRuns.LeftoverFileLosesFinality | crates/consensus/src/lib.rs:781-823 | a run from the empty manager after which a restart takes back a finality answer |
| ConsensusRuns.UnloggedTopLosesFinality | crates/consensus/src/lib.rs:625-659 | a run from the empty manager in which the highest height has no WAL, after which a restart with everything readable takes back a finality answer |
| ConsensusRuns.PruneWindow | crates/consensus/src/lib.rs:781-823 | pruning leaves exactly the heights in [max - depth, max], never the maximum out, and deletes exactly the files of the others that can be deleted |
| ConsensusRuns.PruneKeeps | crates/consensus/src/lib.rs:781-823 | pruning keeps the invariant, finality and both watermarks |
| ConsensusRuns.CommandKeeps | crates/consensus/src/lib.rs:683-711 | a disciplined command keeps the invariant and finality |
| ConsensusRuns.PollKeeps | crates/consensus/src/lib.rs:744-778 | polling one height keeps the invariant, the shape of the manager and finality |
| ConsensusRuns.NextEventKeeps | crates/consensus/src/lib.rs:744-778 | polling all heights in any order, then pruning, keeps the invariant and finality |
| ConsensusRuns.PollEngineKeeps | crates/consensus/src/internal.rs:182-269 | one poll only appends to the file, keeps the sink's flag in step with it, and reports a decision only for its own height and only once it is logged |
| ConsensusRuns.HandleEffectKeeps | crates/consensus/src/internal.rs:318-505 | an effect keeps flag and file in step, and the file gains a decision exactly on `Decide` |
| ConsensusRuns.EffectsSink | crates/consensus/src/wal.rs:132-167 | effects set the flag of a file sink exactly when they decide, and never that of the no-op sink |
| ConsensusRuns.RecoverEngineKeeps | crates/consensus/src/internal.rs:110-160 | a replayed engine is consistent with its extended file and finalized exactly when the file held a decision or the replay decides |
| ConsensusRuns.RecoverKeeps | crates/consensus/src/lib.rs:462-623 | crash and recovery keep the invariant, finality and both watermarks |
| ConsensusRuns.CrashWhilePollingKeeps | crates/consensus/src/lib.rs:744-823 | a crash inside `next_event`, with any engines polled, any effects logged and any pruned files already deleted, keeps the invariant, finality and both watermarks |
| ConsensusRuns.CrashWhilePollingKeepsDecisions | crates/consensus/src/lib.rs:744-823 | such a crash loses no decision |
| ConsensusRuns.RecoveredTop | crates/consensus/src/lib.rs:516-528 | the highest height on disk is restored and is the highest tracked one |
| ConsensusRuns.HighestDecisionOnDisk | crates/consensus/src/wal.rs:287-354 | the recovered last decided height is the highest file that holds a decision |
| ConsensusDelivery.DeliveredInOrder | crates/consensus/src/lib.rs:744-778 | over every run without a crash, the events returned so far followed by the queue are the initial queue followed by what the polled engines handed out, in poll order, where what they hand out is read off the effects |
| ConsensusDelivery.NextEventInOrder | crates/consensus/src/lib.rs:744-778 | one call returns the oldest of the queued and newly handed out events and keeps the rest queued in order |
| ConsensusDelivery.NextEventEngineAt | crates/consensus/src/lib.rs:744-778 | and each engine that is still tracked moves on by one command and one event |
| ConsensusDelivery.PollAllInOrder | crates/consensus/src/lib.rs:744-765 | polling in any order of distinct heights queues the oldest event of each, in that order |
| ConsensusDelivery.PollAllFinishes | crates/consensus/src/lib.rs:756-774 | a height has finished exactly when a decision is among them |
| ConsensusDelivery.PrunedExactly | crates/consensus/src/lib.rs:767-774 | a height is dropped if and only if some engine announced a decision and a tracked height lies more than the depth above it |
| ConsensusDelivery.LastDecidedFollowsEvents | crates/consensus/src/lib.rs:756-765 | the last decided height after a run is that of the decisions announced and the initial one, combined |
| ConsensusDelivery.DecidedIsHighest | crates/consensus/src/lib.rs:756-765 | that combination is the highest of them |
| ConsensusDelivery.EngineInOrder | crates/consensus/src/internal.rs:176-269 | over every run that leaves a height tracked, its engine takes each command issued for it once and in order, and each effect of its core is announced once and in order |
| ConsensusDelivery.LogInOrder | crates/consensus/src/wal.rs:132-167 | over the same runs its file grows by exactly the entries of its effects, in order, or not at all without a WAL |
| ConsensusDelivery.PollInOrder | crates/consensus/src/internal.rs:182-269 | one poll takes the oldest command, hands out the oldest event, those of the poll being the newest, and logs the entries of its effects |
| ConsensusDelivery.EffectsInOrder | crates/consensus/src/internal.rs:318-505 | which event and which log entry each effect causes, in order |
| ConsensusDelivery.CommandsEnter | crates/consensus/src/lib.rs:683-711 | a started height begins with its `StartHeight` alone, commands for unknown heights change nothing, and no command changes what a file holds |
| ConsensusDelivery.RestoredExactly | crates/consensus/src/lib.rs:516-612 | recovery restores exactly the heights of the window and those without a decision that are empty or above the highest committed block; it drops no file and only appends |
| ConsensusDelivery.UnreadableForgets | crates/consensus/src/lib.rs:482-500 | after a recovery with an unreadable file nothing is tracked, final or decided, and the next readable recovery gives what it would have given at once |
| ConsensusDelivery.RecoveredEngineStarts | crates/consensus/src/lib.rs:530-612 | a recovered engine announces what its replay brings about, and holds its `StartHeight` unless its height is final and below the highest one on disk |
| ConsensusDelivery.ReplayInOrder | crates/consensus/src/internal.rs:110-160 | a replay goes through the effects of all entries but decisions, from the first on |
| ConsensusManager.Manager.HandleCommand | crates/consensus/src/lib.rs:683-711 | the manager's new state is that of the command function |
| ConsensusManager.Manager.PollHeight | crates/consensus/src/lib.rs:744-778 | polling one engine in place equals the poll function, and it reports a decision exactly when there is one |
| ConsensusManager.Manager.PollHeights | crates/consensus/src/lib.rs:744-778 | the polling loop equals polling in the order the hash map yields |
| ConsensusManager.Manager.NextEvent | crates/consensus/src/lib.rs:744-778 | the manager's new state and the returned event are those of the poll function, which `DeliveredInOrder` and `PrunedExactly` pin from the effects alone |
| ConsensusManager.Manager.PruneOldEngines | crates/consensus/src/lib.rs:781-823 | the loop removes exactly the engines and deletable files below the window |
| ConsensusManager.Manager.DeleteFiles | crates/consensus/src/wal.rs:24-46 | exactly the pruned files that can be deleted disappear |
| ConsensusManager.Manager.IsHeightFinalized | crates/consensus/src/lib.rs:843-857 | answers from the engine, or from the window when there is none |
| ConsensusManager.Manager.Recover | crates/consensus/src/lib.rs:462-623 | the recovery loops build exactly the manager of the recovery function, for every outcome of file reads and WAL creation |
| ConsensusManager.Manager.CreateConsensus | crates/consensus/src/lib.rs:625-659 | a new engine, with its file opened or with the no-op fallback |
| ConsensusManager.ProcessInput | crates/consensus/src/internal.rs:300-316 | handling effects one by one equals the effect function |
| ConsensusManager.RecoverFromWal | crates/consensus/src/internal.rs:110-160 | the replay loop equals handling the effects of all entries in order, and the highest round this validator voted in is reported |
| ConsensusManager.CollectWalFiles | crates/consensus/src/wal.rs:195-223 | all heights on disk, strictly ascending |
| ConsensusManager.RecoverIncompleteHeights | crates/consensus/src/wal.rs:263-355 | every file lands, with its entries, in exactly one of the two lists, in ascending order, and the highest decision of all files is found |
| ConsensusManager.HighestIn | crates/consensus/src/wal.rs:287-354 | the running maximum covers all decisions of a file |
| WalNames.NameRoundTrip | crates/consensus/src/wal.rs:175-193 | the height read back from a file name is the original one if and only if the address has no dash or its second piece parses to that height |
| WalNames.DashedAddress | crates/consensus/src/wal.rs:175-193 | a concrete address whose own digits are taken for the height |
| WalNames.NamesDistinct | crates/consensus/src/wal.rs:18-21 | two heights of one validator never share a file |
| WalNames.DecimalParses | crates/consensus/src/wal.rs:18-21 | printing and parsing a u64 is a round trip and prints no dash |
| WalNames.SecondPieceOf | crates/consensus/src/wal.rs:175-193 | what splitting at dashes yields for every address |
| StateUpdates.MergePreservesReads | crates/common/src/state_update.rs:350-390 | in particular when system addresses stay in the system map and deployments only hit contracts with no prior storage, nonce or class |
| StateUpdates.MergePreservesReadsExactly | crates/common/src/state_update.rs:350-390 | for any two updates, every read through `a.apply(b)` equals the layered read if and only if no deployment hides or uncovers a non-zero value and no contract entry wins over a different later system entry |
| StateUpdates.ReplacedDeployUncovers | crates/common/src/state_update.rs:350-390 | a concrete deploy-then-replace over written storage for which the merged read differs |
| StateUpdates.MixedMapsShadow | crates/common/src/state_update.rs:278-321 | a concrete system address in the contract map for which the merged read differs |
| StateUpdates.ChainPreservesReads | crates/executor/src/pending.rs:29-87 | the same for a whole chain of updates, deploy-then-replace included, and the merged update is again well formed |
| StateUpdates.ApplyAssociative | crates/common/src/state_update.rs:350-390 | merging is associative on whole updates |
| StateUpdates.MergedDeclarations | crates/common/src/state_update.rs:262-272 | a merged chain declares exactly what some update declares, has the last update's hash and commitments, and only the first one's migrated classes |
| StateUpdates.ApplyInPlace | crates/common/src/state_update.rs:350-390 | the in-place loops compute the merge whatever the iteration order |
| StateUpdates.InsertContracts | crates/common/src/state_update.rs:350-390 | inserting entry by entry in any order overlays storage, class and nonce per contract |
| StateUpdates.InsertSystem | crates/common/src/state_update.rs:350-390 | the same for system contract storage |
| StateUpdates.MergedStorage | crates/common/src/state_update.rs:278-321 | for any two updates, one cell through the merged update equals that through the layers if and only if it is safe |
| StateUpdates.MergedNonceAndClass | crates/common/src/state_update.rs:240-263 | one nonce through the merged update equals that through the layers, exactly when safe; one class always |
| StateDiffs.DiffReproducesState | crates/executor/src/types.rs:937-1010 | overlaying the converted diff on the initial state gives the post-state for every cell, nonce and class if and only if deployments are clean |
| StateDiffs.WrittenBeforeDeployed | crates/executor/src/types.rs:937-1010 | a concrete cell that the converted diff hides |
| StateDiffs.OrdinaryExecutionIsClean | crates/executor/src/types.rs:1195-1284 | deployments are clean when undeployed contracts are empty and no system contract changes class |
| StateDiffs.ToStateDiff | crates/executor/src/types.rs:1195-1284 | the diff groups exactly the written cells, nonces and classes, each class change listed once as deployed or replaced |
| StateDiffs.ClassifyClasses | crates/executor/src/types.rs:1195-1284 | a class change is a deployment exactly when the initial class is zero |
| StateDiffs.GroupStorage | crates/executor/src/types.rs:1195-1284 | written cells are grouped by contract without loss |
| StateDiffs.FromStateDiff | crates/executor/src/types.rs:937-1010 | the conversion routes system storage apart and gives each contract its storage, last class change and nonce |
| StateDiffs.StorageThroughDiff | crates/common/src/state_update.rs:278-321 | what each cell reads as through the converted diff, for all inputs |
| DiffCommitment.Compute | crates/common/src/state_update.rs:616-699 | collecting the five hash containers entry by entry in any order and writing the ordered ones produces the canonical stream of the update, whose layout `DecodeStream` pins |
| DiffCommitment.CollectStorage | crates/common/src/state_update.rs:661-681 | chaining contract and system storage, skipping empty diffs, gives one diff per address, the system one where both are non-empty |
| DiffCommitment.CollectInto | crates/common/src/state_update.rs:661-681 | a later non-empty diff replaces an earlier one, in any iteration order |
| DiffCommitment.CollectClasses | crates/common/src/state_update.rs:627-636 | the class hash of every contract with a class update |
| DiffCommitment.CollectPairs | crates/common/src/state_update.rs:643-647 | declared and migrated pairs united without repetition |
| DiffCommitment.CollectNonces | crates/common/src/state_update.rs:691-694 | the nonce of every contract that has one |
| DiffCommitment.WriteStorage | crates/common/src/state_update.rs:616-699 | the storage section, contracts and keys ascending, each with its count |
| DiffCommitment.SortedPairsElements | crates/common/src/state_update.rs:616-699 | the sorted list holds exactly the pairs, strictly ascending |
| DiffDecoding.DecodeStream | crates/common/src/state_update.rs:616-699 | a reader that checks the domain tag and the two fixed felts and takes each section as a count, then address before value, recovers every diff from its stream |
| DiffDecoding.StreamUniquelyDecodable | crates/common/src/state_update.rs:616-699 | two updates write the same felt stream if and only if their canonical diffs agree |
| DiffDecoding.StorageHeld | crates/common/src/state_update.rs:661-689 | the storage section is read back wherever it stands in a stream |
| DiffDecoding.DecodedContracts | crates/common/src/state_update.rs:240-263 | the classes and nonces in the stream are those a lookup in the update finds |
| DiffDecoding.DecodedStorage | crates/common/src/state_update.rs:278-321 | the cells in the stream are those a lookup finds at every address that is in one of the two maps only |
| DiffDecoding.DecodedDeclarations | crates/common/src/state_update.rs:643-659 | the declarations in the stream are the old classes and the pairs of both class maps |
| DiffLength.LengthMatchesRecords | crates/common/src/state_update.rs:333-347 | the header length is the number of records a reader finds in the stream if and only if no pair is both declared and migrated and no address has storage in both maps |
| DiffLength.MigratedTwiceCounted | crates/common/src/state_update.rs:333-347 | a concrete update whose length exceeds its records |
| DiffLength.LengthIsRecordsPlusOverlap | crates/common/src/state_update.rs:333-347 | in general the length exceeds the records in the stream by exactly those overlaps |
| DiffLength.StreamHoldsRecords | crates/common/src/state_update.rs:616-699 | the reader finds as many records in the stream as the diff has |
| DiffLength.ComputeStateDiffLength | crates/common/src/state_update.rs:333-347 | the counting loops compute that sum in any iteration order |
| GasSearch.Search | crates/executor/src/transaction.rs:217-284 | at most ceil(log2(max - consumed)) + 1 simulations; on success the limit suffices, lies in [T, T + 500000) for every threshold T above the consumed amount, and the executor is left after exactly that run; an error is that of the last trial, and when the transaction runs from some limit T on there is none, and limit and number of trials are those of the reference search for T; no subtraction underflows |
| GasSearch.FindLimit | crates/executor/src/transaction.rs:184-284 | first the adjusted amount, then the search; which of them decides, when it fails and with which error, and that it succeeds when the transaction runs from some limit on |
| GasSearch.FindLimitAndExecute | crates/executor/src/transaction.rs:146-315 | on success the executor state and the output are those of one execution from the original state, at the found limit or at the user's limit when fees are charged and the found one exceeds it; every error case with its condition and the state it leaves; success when the transaction runs from some limit up to the maximum on |
| GasSearch.SimulateTransaction | crates/executor/src/transaction.rs:375-427 | classifies a run and hands back the state before it |
| GasSearch.ExecuteTransaction | crates/executor/src/transaction.rs:318-348 | output or error exactly as the run and the revert behaviour say, and the state the run left |
| GasSearch.Midpoint | crates/executor/src/transaction.rs:351-359 | strictly above the lower bound of every non-empty interval and at most half of it, rounded up, away |
| GasSearch.SimulationAgreesWithExecution | crates/executor/src/transaction.rs:318-427 | a simulation that is not out of gas gives the output or the error of the execution, and it is out of gas exactly when the run says so |
| GasSearch.AdjustedExactly | crates/executor/src/transaction.rs:200-202 | the first guess exceeds the consumed amount by epsilon percent of it, rounded down, unless that leaves u64, when it is the largest u64 |
| GasSearch.FinalLimit | crates/executor/src/transaction.rs:286-312 | the limit of the final run is the found one, or the user's if fees are charged and it is smaller |
| GasSearch.CeilLog2Exact | crates/executor/src/transaction.rs:217-284 | the step bound is the least n with d <= 2^n |
| TraceCache.RepliesAreTruthful | crates/executor/src/simulate.rs:217-325 | for every interleaving and eviction, an Ok reply is the trace of the caller's own block; `RepliesAreExplained` says when a reply is anything else |
| TraceCache.RepliesAreExplained | crates/executor/src/simulate.rs:217-347 | over every run, a trace or an error is answered only if some caller of the key finished without an error or with this one, a closed channel is reported only if some caller of the key left without a message, and the other two failures only by the caller's own step |
| TraceCache.HealthyKeyIsAnswered | crates/executor/src/simulate.rs:217-325 | hence a caller of a key on which no caller failed gets the trace of its block |
| TraceCache.WaitersAreWoken | crates/executor/src/simulate.rs:232-258 | no waiter subscribes after its leader has sent, and a waiter that cannot receive yet has a leader still at work |
| TraceCache.InflightHasLeader | crates/executor/src/simulate.rs:291-347 | an entry is in flight only while its leader works, except after the initial-reads failure |
| TraceCache.NeverStuck | crates/executor/src/simulate.rs:217-347 | while some caller has no reply, some caller can move |
| TraceCache.BoundedSteps | crates/executor/src/simulate.rs:217-347 | no caller takes more than three steps, whatever the others do |
| TraceCache.SingleComputation | crates/executor/src/simulate.rs:232-258 | without eviction of the key or a failed diff of one of its own callers, a key is computed by at most one caller |
| TraceCache.AbandonedKeyFails | crates/executor/src/simulate.rs:312-325 | along every run without a lifting step an abandoned entry stays, and every caller of the key that had not entered is still to enter, can be woken from the dead channel, or was told it is closed |
| TraceCache.LiftedExactly | crates/executor/src/simulate.rs:291-325 | a step removes an abandoned entry if and only if it evicts the key or is the finish or failed diff of another caller of the key |
| TraceCache.AbandonedRun | crates/executor/src/simulate.rs:312-325 | a concrete run in which the second caller of an abandoned key fails |
| TraceCache.StepKeeps | crates/executor/src/simulate.rs:217-347 | every step of every caller keeps channels, entries and callers consistent |
| ClassCache.CachedEqualsUncached | crates/executor/src/state_reader.rs:308-335 | after any lookups by any readers, any evictions and any table changes that withdraw no declaration, the cached answer is the uncached one |
| ClassCache.AgreesExactly | crates/executor/src/state_reader.rs:308-335 | all readers get the uncached answer for a class if and only if its entry is backed by storage |
| ClassCache.UncachedMeaning | crates/executor/src/state_reader.rs:81-185 | hidden classes are undeclared, and a visible class is the same for every reader although the queries differ |
| ClassCache.GetCompiledClass | crates/executor/src/state_reader.rs:308-335 | the method's answer and new cache are those of the specification |
| ClassCache.LruContractCache.Set | crates/executor/src/lru_cache.rs:33-46 | stores the entry and drops whatever the policy evicts |
| ClassCache.LookupKeepsBacked | crates/executor/src/state_reader.rs:308-335 | a lookup leaves every entry backed |
| ClassCache.FoundClassIsServed | crates/executor/src/state_reader.rs:308-335 | a class once found with its declaring block is served from the cache, whatever the table holds by then, to every reader from that block on, and to readers below it the table decides |
| ClassCache.OnlyFoundClassesEnter | crates/executor/src/state_reader.rs:308-335 | only a class visible to the reader enters, under its declaring block, and only evicted entries leave |
| ClassCache.WithdrawnClassStillServed | crates/storage/src/connection/block.rs:191-196 | a concrete withdrawn declaration that the cache still serves |
| Events.ItemPosition | crates/executor/src/types.rs:1130-1148 | item j of key k sits in the drained list at the sum of min(length, j) over all keys plus the number of smaller keys that still have an item j |
| Events.QueuePosition | crates/executor/src/types.rs:1130-1148 | the same for a list of queues and any number of rounds |
| Events.CollectItems | crates/executor/src/types.rs:1130-1148 | the draining loop terminates after exactly as many rounds as the longest queue needs and outputs them |
| Events.DrainIsPermutation | crates/executor/src/types.rs:1130-1148 | the drained list is a permutation of what was queued |
| Events.UniqueOrdersAreSorted | crates/executor/src/types.rs:1130-1148 | with unique order numbers the drained list is sorted by them |
| Events.ServeRound | crates/executor/src/types.rs:1130-1148 | one pass pops the front of every queue and removes the emptied ones |
| Events.CollectEventsAndMessages | crates/executor/src/types.rs:1093-1128 | the tree walk queues exactly the events and messages of the tree, in walk order |
| Events.DepthFirst | crates/executor/src/types.rs:1093-1128 | the items of a call come before those of the calls it made, and those before the items of later calls |
| Events.EmittedAt | crates/executor/src/types.rs:1098-1107 | each event carries its own order number and data and the contract of the call that emitted it |
| Events.QueueKeepsOrder | crates/executor/src/types.rs:1098-1124 | the queue of an order number holds its items in the order of the walk |
| Events.WalkByKind | crates/executor/src/types.rs:1039-1077 | whose events and messages are collected for each kind of transaction, and in which order |
| Events.WalkPosition | crates/executor/src/types.rs:1012-1148 | the j-th collected item with number k ends up in round j, after the smaller numbers that still have a j-th item |
| Events.ToReceiptAndEvents | crates/executor/src/types.rs:1012-1091 | the receipt is the drain of the collected call trees, and holds exactly their events and messages |
| Poseidon.CompressionPreservesPermutation | crates/crypto/examples/consts_poseidon.rs:62-118 | the permutation with generated constants is the permutation with the original keys, for every key list, state and S-box |
| Poseidon.PartialRoundsCompressed | crates/crypto/examples/consts_poseidon.rs:81-118 | for any number of partial rounds, full keys end where compressed keys plus the carried constants end |
| Poseidon.CompressionPreservesRounds | crates/crypto/examples/consts_poseidon.rs:81-118 | the same followed by the next full-round key addition |
| Poseidon.CompressRoundKeysPartial | crates/crypto/examples/consts_poseidon.rs:81-118 | the three-cell loop emits one felt per partial round and the carried constants |
| Poseidon.CompressRoundKeys | crates/crypto/examples/consts_poseidon.rs:62-79 | the whole constant list |
| Poseidon.Permute | crates/crypto/src/hash/poseidon/permutation.rs:54-75 | running the permutation over the constant list equals its specification |
| Poseidon.MixLayer | crates/crypto/src/hash/poseidon/permutation.rs:16-28 | the mix through one shared sum is the mix matrix |
| Poseidon.MixLinear | crates/crypto/src/hash/poseidon/permutation.rs:16-28 | the mix layer is linear modulo the field order |
| Poseidon.RoundCells | crates/crypto/src/hash/poseidon/permutation.rs:30-52 | a full round adds the key, applies the S-box to all three cells and mixes; a partial round applies it to the last cell only and, with compressed keys, adds the key to that cell only |
| PoseidonHash.WritingIsHashing | crates/crypto/src/hash/poseidon/hash.rs:36-87 | writing a list piece by piece and finishing gives the hash of the whole list, for every permutation |
| PoseidonHash.WriteMoves | crates/crypto/src/hash/poseidon/hash.rs:53-66 | a write moves one message from what is to come into what is absorbed, whatever follows |
| PoseidonHash.PoseidonHashMany | crates/crypto/src/hash/poseidon/hash.rs:17-34 | the pair loop with its remainder is: pad, then absorb pair by pair |
| PoseidonHash.AbsorbCells | crates/crypto/src/hash/poseidon/hash.rs:17-34 | of a pair, the first message is added to the first cell and the second to the second, modulo the field order |
| PoseidonHash.ShortestHashes | crates/crypto/src/hash/poseidon/hash.rs:17-34 | what is permuted and squeezed for lists of up to two messages, padding included |
| PoseidonHash.PaddingInjective | crates/crypto/src/hash/poseidon/hash.rs:27-31 | different lists are padded to different blocks |
| PoseidonHash.Hasher.Write | crates/crypto/src/hash/poseidon/hash.rs:53-66 | buffers the first message of a pair and absorbs with the second |
| PoseidonHash.Hasher.WriteAll | crates/crypto/src/hash/poseidon/hash.rs:68-72 | a fold of `chain` over a list |
| PoseidonHash.Hasher.Finish | crates/crypto/src/hash/poseidon/hash.rs:74-87 | pads whatever is pending and squeezes |
| PoseidonHash.HashByWriting | crates/common/src/transaction.rs:919-930 | a fresh hasher folded over a list returns its hash |
| PointTables.PushPoints | crates/crypto/examples/consts_pedersen.rs:48-93 | the nested loops emit the tables of all windows |
| PointTables.EmitsDeclaredLength | crates/crypto/examples/consts_pedersen.rs:57-61 | exactly the declared number of points, for every width and bit length |
| PointTables.TableEntry | crates/crypto/examples/consts_curve.rs:42-82 | entry i * (2^b - 1) + (j - 1) is j * 2^(b * i) times the base, leftover chunk included |
| PointTables.AddPoints | crates/crypto/src/algebra/curve/gen_mul.rs:11-30 | one table entry per non-zero window adds exactly k times the base, for every k below 2^max_bits |
| PointTables.PedersenPoint | crates/crypto/src/hash/pedersen/hash.rs:14-43 | the hash accumulator is P0 plus the low and high part of each input times its base point |
| L2GasPrice.OverflowsExactly | crates/gas-price/src/l2.rs:59-103 | for every u128 price and gas used, the update overflows if and only if the stated additions leave u128 |
| L2GasPrice.OneAboveTargetOverflows | crates/gas-price/src/l2.rs:94-100 | the concrete block that overflows with the current constants, and its neighbour that does not |
| L2GasPrice.NoOverflowUpTo | crates/gas-price/src/l2.rs:59-103 | no step overflows for prices up to 2^127 |
| L2GasPrice.BoundedMove | crates/gas-price/src/l2.rs:59-103 | at or above the minimum the next price stays there, moves by at most price / denominator, and in the direction of the gas used, fallback included |
| L2GasPrice.FallExactly | crates/gas-price/src/l2.rs:72-102 | a block up to the target lowers the price by price * (target - used) / (target * denominator), rounded down, or by price / denominator when the product does not fit, and is cut exactly when that reaches the minimum |
| L2GasPrice.RiseExactly | crates/gas-price/src/l2.rs:72-102 | a block above the target raises it by the corresponding amount, rounded down, cut only at the top of u128 |
| L2GasPrice.ClimbExactly | crates/gas-price/src/l2.rs:65-71 | below the minimum the price rises by a 333rd, rounded down, cut exactly when that reaches the minimum |
| L2GasPrice.MoveBoundExactly | crates/gas-price/src/l2.rs:59-103 | for every u128 price at or above the minimum and every gas amount, the move is within price / denominator if and only if the block is not above the target, the product overflows, or it is below the bound |
| L2GasPrice.MonotoneInGasUsed | crates/gas-price/src/l2.rs:59-103 | nondecreasing in the gas used, across the fallback |
| L2GasPrice.MonotoneExactly | crates/gas-price/src/l2.rs:59-103 | nondecreasing over all u128 gas amounts if and only if the price is below the minimum or the fallback does not undercut the largest product that fits |
| L2GasPrice.PastTwiceTarget | crates/gas-price/src/l2.rs:78-90 | a concrete price and two blocks beyond twice the target for which both fail |
| L2GasPrice.RunStaysAbove | crates/gas-price/src/l2.rs:59-103 | along every block sequence a price once at the minimum stays there and never jumps |
| L2GasPrice.GrowthBounded | crates/gas-price/src/l2.rs:59-103 | after n blocks the price lies between (47/48)^n and (49/48)^n of the first |
| L2GasPrice.ClimbsThenStays | crates/gas-price/src/l2.rs:67-71 | from [333, min) every long enough run rises strictly to exactly the minimum and then stays at or above it |
| L2GasPrice.EmptyBlocksFallToMinimum | crates/gas-price/src/l2.rs:72-102 | every long enough run of empty blocks brings the price strictly down to exactly the minimum and leaves it there |
| L2GasPrice.EmptyBlockFalls | crates/gas-price/src/l2.rs:72-102 | one empty block strictly lowers every price above the minimum that is at least the denominator |
| L2GasPrice.TooLowNeverMoves | crates/gas-price/src/l2.rs:67-71 | below 333 and the minimum the price never moves |
| L2GasPrice.ForVersion | crates/gas-price/src/l2.rs:21-46 | both sets of constants keep a full block within twice the target |
| L2GasPrice.Provider.UpdateAfterBlock | crates/gas-price/src/l2.rs:134-148 | stores the next price, which `FallExactly`, `RiseExactly` and `ClimbExactly` give without the formula, or stops before the store on overflow |
| L2GasPrice.Provider.Validate | crates/gas-price/src/l2.rs:151-158 | accepts exactly the stored price |
| L1GasPrice.BufferIsNewestAccepted | crates/gas-price/src/l1.rs:179-221 | after any adds and clears the buffer is exactly the newest accepted samples since the last clear, a gap-free hash-linked chain |
| L1GasPrice.LimitHonouredExactly | crates/gas-price/src/l1.rs:201-203 | it is the last `storage_limit` of them if and only if the limit is not zero or nothing was accepted |
| L1GasPrice.BulkAddIsRun | crates/gas-price/src/l1.rs:210-215 | a bulk add is the run of single adds up to the first refusal, and returns that refusal |
| L1GasPrice.BulkAddSucceedsExactly | crates/gas-price/src/l1.rs:210-215 | a bulk add succeeds if and only if the samples form a chain that continues the stored one |
| L1GasPrice.RefusedExactly | crates/gas-price/src/l1.rs:179-199 | against a stored block a sample is accepted exactly if it continues the chain, a gap exactly if its number is not the next one, a reorg exactly if only its parent is wrong, with the numbers and hashes reported |
| L1GasPrice.Provider.AddSample | crates/gas-price/src/l1.rs:179-207 | accepts, or refuses with gap or reorg, leaving the buffer as specified |
| L1GasPrice.Provider.AddSamples | crates/gas-price/src/l1.rs:210-215 | the loop equals the bulk-add function |
| L1GasPrice.Provider.ClearAll | crates/gas-price/src/l1.rs:219-221 | empties the buffer |
| L1GasPrice.Provider.GetAveragePrices | crates/gas-price/src/l1.rs:226-295 | stale, no data, overflow or the mean of the window, each exactly when stated |
| L1GasPrice.FindLast | crates/gas-price/src/l1.rs:251-262 | the last sample not newer than the lagged timestamp |
| L1GasPrice.WindowIsNewestUpTo | crates/gas-price/src/l1.rs:251-266 | the window is the newest `blocks_for_mean` samples up to that one |
| L1GasPrice.SumFees | crates/gas-price/src/l1.rs:283-289 | saturating step by step equals saturating the whole sum |
| L1GasPrice.TotalAdds | crates/gas-price/src/l1.rs:283-289 | the sum is additive over windows |
| L1GasPrice.TotalOfOne | crates/gas-price/src/l1.rs:283-289 | and of one sample it is its base fee or its blob fee |
| L1GasPrice.MeanIsFloor | crates/gas-price/src/l1.rs:283-294 | the mean is the sum over the count, rounded down, as long as the sum fits u128 |
| L1GasPrice.MeanWithinWindow | crates/gas-price/src/l1.rs:283-294 | the mean never exceeds the largest fee, and reaches a lower bound of the fees if and only if that bound times the count fits u128, in particular when the sum does not saturate |
| Packing.PackGasBound | crates/common/src/transaction.rs:945-956 | the buffer holds name, amount and price, and is refused exactly from the field order up |
| Packing.PackBelow248 | crates/common/src/transaction.rs:945-956 | names of at most seven bytes pack below 2^248 |
| Packing.PackInjective | crates/common/src/transaction.rs:945-956 | the packed number determines name, amount and price |
| Packing.PackFields | crates/common/src/transaction.rs:945-956 | name, amount and price are read back from the top 64, the middle 64 and the low 128 bits |
| Packing.ConcatenateCounts | crates/block-commitments/src/lib.rs:482-499 | the buffer holds the three counts and the mode bit, reduced modulo the field order |
| Packing.CountsFields | crates/block-commitments/src/lib.rs:482-499 | transactions, events and diff length are read back from 64 bits each, in this order, and the mode from the next bit |
| Packing.BelowPExactly | crates/block-commitments/src/lib.rs:482-499 | the packed counts stay below the field order, whatever the other counts, if and only if there are at most 2^59 + 16 transactions |
| Packing.CountsInjective | crates/block-commitments/src/lib.rs:482-499 | equal felts come from equal counts, for all u64 counts |
| Packing.ByteRoundTrip | crates/common/src/transaction.rs:945-956 | big-endian bytes read back as the number |
| TransactionHash.PreimageInjective | crates/common/src/transaction.rs:874-913 | equal preimages come from the same kind, query flag, chain and hashed fields, unless two corresponding inner lists are an explicit hash collision |
| TransactionHash.HashV3 | crates/common/src/transaction.rs:874-913 | feeding the hasher field by field hashes exactly the preimage, inner lists hashed the same way; `PreimageLayout`, `DataLayout` and `FeeLayout` say felt by felt what that is |
| TransactionHash.PreimageLayout | crates/common/src/transaction.rs:876-890 | felts 0 to 7 by index: kind in letters, version with the query bit, sender, hashed fee list, hashed paymaster data, chain, nonce and the two data availability modes; eleven felts in all, ten for an invoke without proof facts |
| TransactionHash.DataLayout | crates/common/src/transaction.rs:892-908 | felts 8 to 10 by index for each kind |
| TransactionHash.FeeLayout | crates/common/src/transaction.rs:932-956 | the fee list by index: the tip, then "L1_GAS", "L2_GAS" and, when present, "L1_DATA", each with its amount and price in their own bits |
| TransactionHash.HashFeeFields | crates/common/src/transaction.rs:932-943 | the fee list is hashed in order, the data-gas bound only when present, and no bound is ever refused |
| TransactionHash.FeedData | crates/common/src/transaction.rs:675-773 | which hashes and fields each kind contributes, proof facts only when there are any |
| TransactionHash.FeeFieldsInjective | crates/common/src/transaction.rs:932-943 | the fee list determines the tip and all bounds, the optional third included |
| TransactionHash.DataInjective | crates/common/src/transaction.rs:675-773 | the kind-specific tail determines the kind-specific fields, proof facts included |
| TransactionHash.BoundsAlwaysFit | crates/common/src/transaction.rs:955 | the `expect` on packed bounds never fires |

## Left out

- Malachite itself: which effects the core asks for is arbitrary; the run theorems only use that it decides its own height.
- Timeouts, rebroadcasts, signatures and validator-set lookups of the consensus engine; errors of the validator-set provider.
- Engines are values in the manager's map and one WAL directory serves one validator; aliasing between engines is not modelled.
- The reading of WAL files as JSON lines: a file is its list of entries, or unreadable.
- The fallback of the recovered maximum to the highest decision (crates/consensus/src/lib.rs:523): without files there is no decision, so it never applies.
- Merkle trees and curve arithmetic: the Poseidon permutation and S-box are arbitrary functions, points any type with an associative addition.
- Montgomery form: `MontFelt::from_be_bytes` is reduction modulo the field order.
- 32-bit shifts and products in `push_points` for window widths of 31 and more.
- Text formatting of the generated constants.
- Storage of a contract in an execution diff is a map, not a list with repeated keys.
- The native class cache and the compiled-class-hash cache of the state reader.
- The recency order of the LRU caches: every choice of evicted entries is covered.
- Lock poisoning after a panic, and lock acquisition itself.
- `create_executor` failures, transaction field extraction and the balance-derived maximum of the gas search: the maximum is a parameter.
- GasSearch.FindLimitAndExecute: assumes that the first run consumed at most the maximum when the adjusted trial runs out of gas; otherwise the source stops at the first midpoint.
- Price tolerance checks and `deviation_pct`: floating point.
- Hashes of transactions before version 3, and block hash assembly around the packed counts.
- Network clients, gateways, compilers, RPC and the p2p stack.
