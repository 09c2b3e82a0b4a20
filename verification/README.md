# Verified models of the benchmarked executors and contracts

This project models the hardest logic of the repository and proves what that logic is for. The models
take the form of the code they follow: classes with in-place updates and loops for the imperative
parts, state machines over single steps for everything that runs concurrently.

- **Block-STM executor** (`Stm*.dfy`). A transaction is deterministic code that, given what it has
  observed, reads one more key or halts. `StmMachine` is the parallel executor as a state machine
  whose steps are single cache accesses, so executions, validations, aborts and commits of any
  number of workers interleave at every point; keys are data (validated speculatively) or delayed
  fields (validated at commit); writes are full, aggregator deltas or bounded changes; reads may
  observe only existence or a bound. `StmSerial` proves that whatever commits is the serial run.
  `StmPipeline` adds the coordinator, the commit queue, halting and materialization, and proves the
  output vector sequential. `StmWorkers` gives every task an owner, so that workers wait for each
  other; `StmProgress` and `StmFinish` prove that no reachable state is stuck. `StmExecutor` holds
  the executor's procedures as imperative code proved against the same definitions. `StmMeaning`
  states what the definitions both executors share mean, on the transactions' own code and write
  sets. `DelayedFields` is the two-phase delayed field update.
- **Relay contracts** (`Ballot*.dfy`, `Ledger.dfy`, `AirDrop.dfy`, `Erc20.dfy`). Each contract is a
  class whose methods either change state and issue messages or revert. Runs deliver each message once,
  at any time and in any order.
- **Sei block processing** (`SeiOptimistic.dfy`, `SeiBlock.dfy`). The optimistic proposal state
  machine against a node that knows no proposals, and the decode, partition, execute, scatter pipeline
  for every order in which goroutines finish.
- **Sui in-memory execution** (`SuiStore.dfy`, `SuiAccounts.dfy`). Any-order execution over the object
  store, and the allocation that makes the generated transactions independent.
- **Account universe** (`AccountUniverse.dfy`). The limited picker and the transfer model, over runs.

Four properties one might expect do not hold of the code, and the models keep the code as it is.
Validation after a commit-time re-execution can fail: exactly when the transaction's serial run is
itself a speculative abort or one of its delayed field changes does not apply to the serial value
(`RecheckExactly`, `RecheckCanFail`); the sequential executor fails there too. `ERC20.transfer` fires
no `Transfer` event, although EIP-20 asks for one (`EventsExactly`). Supply relays delivered out of
issue order can lose a subtraction (`OutOfOrderLoses`): a run conserves the supply exactly if no
subtraction is delivered while above it (`ConservedExactly`), all orders of delivering what is pending
do so exactly if the pending subtractions together are covered (`AnyOrderExactly`), and issue order
does from every start whose money is backed (`SupplyExact`). The iteration order of delayed field
changes can show (`ChainDependsOnOrder`), and with a base that is new it decides between success and a
panic (`NewBasePanics`). All orders agree exactly if no change based on another one of the second phase
tells that one's old value from its new one, or none of them succeeds (`OrderExactly`).

The machine steps of the executor rely on components whose code is not part of this model, and assume
of them only the following. The scheduler offers commits in index order, each after a validation that
began after the last request to validate that transaction again. It asks for all higher transactions
to be validated again when an execution wrote outside its previous keys, when an incarnation has been
aborted, and after a commit-time re-execution. It gives each incarnation to one worker to execute; an
abort succeeds at most once, and only for the incarnation that was validated; the worker that aborts
an incarnation gets its re-execution. Nobody else aborts or executes a transaction while it is being
committed. It lets one worker at a time coordinate commits, offers no commit after it has been halted,
and reports that all is done only after that; halting wakes the workers that wait. The multi-version
map answers a read with the highest entry below the reader; recording a delayed field change fails if
the value found below does not admit it, and committing changes succeeds exactly if the values below
admit them. The block limit processor decides from the charges of the kept transactions, and its
parallel and sequential decisions agree (a hypothesis of `ParallelIsSequential`).

Methods whose contract is no more than the one assignment or test they make (constructors, single
cache writes, the receiving side of a relay) have no row below; the lemmas about the functions they
are proved against state what they are for.

## Model

| member | source | states |
|---|---|---|
| StmTypes.Replay | codes/aptos/modified/block-executor/src/executor.rs:100-301 | observations that the code asks for one after another and that are all true of one state are the whole run on that state, whenever and against whatever they were made |
| StmCache.CalmRead | codes/aptos/modified/block-executor/src/executor.rs:343-356 | replacing estimates never changes what a read finds, if it found something |
| StmCache.InsideKeepsValidations | codes/aptos/modified/block-executor/src/executor.rs:127-190 | soundness of `updates_outside`: if an aborted transaction is re-executed and reports no data key outside its previous ones, every higher transaction's data read that passed validation before passes it afterwards |
| StmCache.OutsideBreaksValidations | codes/aptos/modified/block-executor/src/executor.rs:127-190 | the flag is needed: one full write to a new data key fails every higher transaction's validation of an earlier full read of it that reached below |
| StmInvariant.QuietKeeps | codes/aptos/modified/block-executor/src/executor.rs:303-331 | a step that only replaces estimates below a transaction keeps all its finished and unfinished validations meaningful |
| StmSerial.CommitIsSerial | codes/aptos/modified/block-executor/src/executor.rs:390-420 | at the commit index, reads that still match are true of the serial state, so the recorded run is the serial one |
| StmSerial.CertainExactly | codes/aptos/modified/block-executor/src/executor.rs:390-420 | at the commit index the recorded changes can be committed, and recording them fails, exactly according to whether they apply serially |
| StmSerial.Step | codes/aptos/modified/block-executor/src/executor.rs:100-584 | every single step (one cache read, one cache write, one removal, one check, one estimate mark, a commit, a re-execution) by any worker keeps the executor's invariant |
| StmSerial.SerialEquivalence | codes/aptos/modified/block-executor/src/executor.rs:100-584 | for every interleaving of all steps, a committed transaction's recorded observations and its outcome, writes included, are exactly those of running transactions 0..i one after another from the base view, and its delayed field changes apply there |
| StmSerial.Ownership | codes/aptos/modified/block-executor/src/executor.rs:117-190 | in every reachable state, outside an execution or abort, a transaction's entries in the versioned map are exactly the keys of its last recorded write set, each with the operation and the incarnation of that record and none older, and are estimates exactly while it stands aborted |
| StmSerial.RecheckExactly | codes/aptos/modified/block-executor/src/executor.rs:390-485 | in every reachable state after a commit-time re-execution both validations pass if and only if the serial run is not a speculative abort and each of its delayed field changes applies to the serial value; recording failures, changed delayed reads and refused commits are all accounted for |
| StmSerial.FinalReadsFound | codes/aptos/modified/block-executor/src/executor.rs:455-485 | in every reachable state no read below the commit index meets an estimate, so the commit-time re-execution never waits |
| StmProgress.RecheckCanFail | codes/aptos/modified/block-executor/src/executor.rs:471-485 | the other half: if the next transaction's serial run is a speculative abort or has a change that does not apply, every reachable state continues to a re-execution whose validation fails |
| StmProgress.UncertainBlocks | codes/aptos/modified/block-executor/src/executor.rs:212-230 | both causes occur: a block whose code halts in a speculative abort, and one with a change above its bound |
| StmProgress.NeverStuck | codes/aptos/modified/block-executor/src/executor.rs:100-485 | from every reachable state of executions, validations and aborts some continuation commits one more transaction, whatever all transactions are in the middle of |
| StmProgress.CanFinish | codes/aptos/modified/block-executor/src/executor.rs:100-485 | from every reachable state of executions, validations and aborts the whole block can still be committed |
| StmProgress.WholeExecution | codes/aptos/modified/block-executor/src/executor.rs:100-301 | an uninterrupted execution is a run of the step machine and ends in exactly the layer and record, captured failure included, that `StmExecutor.Execute` computes |
| StmSequential.EndingFrom | codes/aptos/modified/block-executor/src/executor.rs:1032-1290 | where a block ends: everything before is kept, a fatal end is at a transaction that does not succeed, and a panic at one with a change that does not apply |
| StmSequential.EndsAt | codes/aptos/modified/block-executor/src/executor.rs:487-546 | the block ends after the first kept transaction that asks to skip the rest or reaches a limit, and nowhere else |
| StmMeaning.RunIsTheCode | codes/aptos/modified/block-executor/src/executor.rs:1032-1038 | a serial run is the transaction's own code step by step: each read is the one the code asks for after what it has seen, each observation is of the value the transactions before have left, and it ends where the code halts or its gas is used up |
| StmMeaning.ReadsExactly | codes/aptos/modified/block-executor/src/executor.rs:303-331 | a read tells apart exactly the values its kind allows: all of them, presence, or the side of a bound |
| StmMeaning.SerialValue | codes/aptos/modified/block-executor/src/executor.rs:245-272 | a transaction changes exactly the keys of its write set, if it succeeds or asks to skip the rest, each as the operation says, and nothing otherwise; the first one starts from the base view |
| StmMeaning.CertainMeans | codes/aptos/modified/block-executor/src/executor.rs:212-230 | the condition of `RecheckExactly` in the write set's own terms: no speculative abort, and every delayed field change is on a present value and within its bounds |
| StmMeaning.ReceiptExactly | codes/aptos/modified/block-executor/src/executor.rs:638-720 | a receipt holds the fee and exactly the keys of the write set, each with the value its operation leaves on the serial state before |
| StmMeaning.EntriesExactly | codes/aptos/modified/block-executor/src/executor.rs:127-292 | in every reachable state the entries of an executed or committed transaction are exactly its output's write set under its incarnation, skip-rest outputs included, and a failed transaction has none |
| StmMeaning.DeltasAddUp | codes/aptos/modified/block-executor/src/executor.rs:586-636 | a read through aggregator deltas finds the value below them plus their sum |
| StmMeaning.ChargesExactly | codes/aptos/modified/block-executor/src/executor.rs:493-519 | the block limit processor is told each kept transaction's fee, the keys it read in order and the keys it wrote |
| StmMeaning.EndingExactly | codes/aptos/modified/block-executor/src/executor.rs:487-582 | all transactions before the last kept one succeed under the limits; a block stops early only because of a request to skip the rest or a limit; it fails at an abort or speculative or code error, and panics at a change that does not apply |
| StmMeaning.VectorExactly | codes/aptos/modified/block-executor/src/executor.rs:1276-1291 | the output vector has one entry per transaction, a receipt exactly for the kept ones, with fee, keys and values of their write sets |
| StmPipeline.CommittedReceipt | codes/aptos/modified/block-executor/src/executor.rs:638-720 | materializing a committed transaction late, with other workers still running above it, gives the serial values for every key, deltas resolved |
| StmPipeline.MoveKeeps | codes/aptos/modified/block-executor/src/executor.rs:430-584 | every committed index is at any time in exactly one place: the deferred enqueue, the queue, one worker's hands or the final results |
| StmPipeline.ExactlyOnce | codes/aptos/modified/block-executor/src/executor.rs:708-833 | when all workers have returned without an error the queue is empty and each committed index was written to the final results exactly once, although halting precedes the deferred enqueue and other workers may have left before it |
| StmPipeline.ParallelIsSequential | codes/aptos/modified/block-executor/src/executor.rs:837-932 | for every number of workers and every interleaving that ends without an error, the output vector is the sequential one: receipts up to the end of the block, skip outputs after it, one per transaction |
| StmFinish.CanFinishBlock | codes/aptos/modified/block-executor/src/executor.rs:722-835 | for every number of workers, each making only the steps of its own task and waiting at estimates, from every state they reach without a failure, if the block has an end and no code error, some continuation commits it up to its end, drains the queue and lets every worker return |
| StmWorkers.WaitsPointDown | codes/aptos/modified/block-executor/src/executor.rs:744-833 | waits cannot cycle: in every state reached before the run is halted, a worker whose execution meets an estimate waits for a worker that has a lower transaction in hand |
| StmWorkers.StrideKeeps | codes/aptos/modified/block-executor/src/executor.rs:365-388 | every step of every worker keeps each transaction in progress, from its abort through to its re-execution, in the hands of exactly one worker |
| StmWorkers.WorkersRefine | codes/aptos/modified/block-executor/src/executor.rs:722-835 | every run of workers that own their tasks is a run of the pipeline, so exactly-once materialization and the sequential output vector hold of it |
| StmFinish.LowestUnblocked | codes/aptos/modified/block-executor/src/executor.rs:744-833 | the worker with the lowest execution waits for nobody |
| StmExecutor.Execute | codes/aptos/modified/block-executor/src/executor.rs:100-301 | runs the code, replaces the previous incarnation's entries by exactly the output's write set, skip-rest outputs included, and by nothing if there is none, records the run with a captured failure exactly if some change cannot be recorded on the values below, and reports `updates_outside` exactly if a data key outside the previous ones is written |
| StmExecutor.ApplyUpdates | codes/aptos/modified/block-executor/src/executor.rs:127-292 | the write loop and the removal of leftover previous keys leave exactly the new incarnation's entries, in any iteration order |
| StmExecutor.WriteAll | codes/aptos/modified/block-executor/src/executor.rs:127-230 | the keys left for removal are exactly the previous keys that were not overwritten, and both flags are exact |
| StmExecutor.RemoveStale | codes/aptos/modified/block-executor/src/executor.rs:275-292 | no entry of an earlier incarnation survives and no new entry is removed |
| StmExecutor.Validate | codes/aptos/modified/block-executor/src/executor.rs:303-331 | true exactly if every recorded data read still finds what it found |
| StmExecutor.ValidateCommitReady | codes/aptos/modified/block-executor/src/executor.rs:390-420 | true exactly if nothing speculative was captured, every delayed read still gives the same observation and every change applies to the value below |
| StmExecutor.UpdateOnAbort | codes/aptos/modified/block-executor/src/executor.rs:333-363 | all of the transaction's entries become estimates, with the same operations, and nothing else changes |
| StmExecutor.RunTransaction | codes/aptos/modified/block-executor/src/executor.rs:1032-1060 | the read loop computes the run on the state so far |
| StmExecutor.ApplyOutput | codes/aptos/modified/block-executor/src/executor.rs:934-1003 | applying a write set key by key in any order gives the state with all deltas resolved against the values before it, and panics exactly if a change does not apply |
| StmExecutor.ExecuteSequential | codes/aptos/modified/block-executor/src/executor.rs:1008-1291 | returns the vector of serial receipts padded with skip outputs, or the kind of error of the first transaction that does not succeed, or panics at the first change that does not apply |
| StmExecutor.ParallelAnswer | codes/aptos/modified/block-executor/src/executor.rs:837-932 | any vector a parallel run can return is the sequential answer |
| StmExecutor.ExecuteBlock | codes/aptos/modified/block-executor/src/executor.rs:1293-1389 | at every concurrency level and through the fallback the answer is the sequential one; a failed block is discarded with one code for an abort and another for speculative and code errors, or returned as the corresponding error; the one exception is the panic of a failed parallel run that may not fall back |
| DelayedFields.OrderIndependent | codes/aptos/modified/block-executor/src/executor.rs:958-1003 | if no `Current` base is itself applied on a `Current` base, every iteration order of the change set computes the declared result, failures included |
| DelayedFields.OrderExactly | codes/aptos/modified/block-executor/src/executor.rs:958-1003 | for any change set, all iteration orders agree if and only if no change on a `Current` base that is itself of the second phase distinguishes that base's old and new value, or no order succeeds at all |
| DelayedFields.DeclaredExactly | codes/aptos/modified/block-executor/src/executor.rs:958-1003 | if every change works on the old values, every order computes the declared result if and only if no such change distinguishes old and new |
| DelayedFields.ChainDependsOnOrder | codes/aptos/modified/block-executor/src/executor.rs:958-1003 | for a chain of two, whatever exists before, the two iteration orders agree if and only if the base fails anyway or the dependent change gives the same on the old and the new value of its base |
| DelayedFields.NewBasePanics | codes/aptos/modified/block-executor/src/executor.rs:985-999 | the failing input: with a base that did not exist before, the run succeeds with the base first and panics with the dependent change first |
| DelayedFields.TwoPhaseExactly | codes/aptos/modified/block-executor/src/executor.rs:958-1003 | the two phases compute a set of updates if and only if it is what the changes ask for: a creation is new and has its value, a change on a previous value is applied to the value before the transaction, one on a current value to the new one if that is made in the first phase or iterated earlier, else to the old one |
| DelayedFields.FirstPhaseExactly | codes/aptos/modified/block-executor/src/executor.rs:958-984 | the first phase fails exactly if a created field exists, a previous base is missing or a change does not apply to it |
| DelayedFields.UnsyncMap.FirstPhase | codes/aptos/modified/block-executor/src/executor.rs:958-984 | computes all creations and changes on previous values and lists the others in order, or fails exactly if a created field exists, a base is missing or a change does not apply |
| DelayedFields.UnsyncMap.SecondPhase | codes/aptos/modified/block-executor/src/executor.rs:985-999 | applies each listed change on the value updated so far, or else the value before, or fails exactly if one fails |
| DelayedFields.UnsyncMap.ApplyChanges | codes/aptos/modified/block-executor/src/executor.rs:958-1003 | succeeds if and only if the changes mean something in this order; then every changed field holds what its change asks for and no other field changes; otherwise nothing is written |
| BallotContract.GatherValue | codes/crystality/test_cases/Ballot.sol:28-37 | the ratio after any number of gathers, in closed form, and the exact call at which the 32-bit addition reverts |
| BallotContract.GatherBarrier | codes/crystality/test_cases/Ballot.sol:28-37 | for every shard order 0..31 the gather reports completion on call 2^order after a reset and on no other; calls revert exactly from 2^(order+1) on |
| BallotContract.ScanWinner | codes/crystality/test_cases/Ballot.sol:103-122 | the scan names the first proposal of maximum positive weight, or nobody if there are no votes |
| BallotContract.GlobalScope.Init | codes/crystality/test_cases/Ballot.sol:48-63 | adds the proposals under the names given, in order and with zero totals, and opens the next case, or reverts at the 32-bit case number |
| BallotContract.GlobalScope.FinalizeVotes | codes/crystality/test_cases/Ballot.sol:103-122 | adds one shard's votes, gathers, and publishes a result exactly on completion; any overflow or index past the proposals reverts the whole call |
| BallotContract.ShardScope.InitVotedWeights | codes/crystality/test_cases/Ballot.sol:65-71 | new proposals start at zero and old weights stay |
| BallotRounds.ShardedTally | codes/crystality/test_cases/Ballot.sol:48-122 | for every shard order and every interleaving of votes, growth, cuts and deliveries, once all messages are consumed the result is published if and only if every tally fits in 64 bits, and then each total is the number of votes executed before the cut of their shard and the winner is the name given to the first proposal with the most votes, or nobody |
| BallotRounds.NamesKept | codes/crystality/test_cases/Ballot.sol:48-63 | in every state after the case is open the proposals have the names given, in their order |
| BallotRounds.VotesExactly | codes/crystality/test_cases/Ballot.sol:73-77 | in every reachable state a vote counts exactly if its shard has been told of the case and is not cut yet, the proposal is one of those given and its count stays below 2^256 |
| BallotRounds.NotBefore | codes/crystality/test_cases/Ballot.sol:96-111 | the result is never published while a shard is still out, and no delivered array is longer than the proposals |
| BallotRounds.FaithfulVote | codes/crystality/test_cases/Ballot.sol:73-77 | one vote keeps every shard's weights equal to the votes executed there, proposal by proposal |
| AirDrop.Contract.TransferN | codes/crystality/test_cases/AirDrop.sol:12-35 | all or nothing: an accepted call debits the exact total and issues one deposit per positive payment; a reverted or refused one changes and issues nothing |
| AirDrop.DepositsCarry | codes/crystality/test_cases/AirDrop.sol:23-31 | the issued deposits carry exactly the payments, in all and to every address |
| AirDrop.DepositsExactly | codes/crystality/test_cases/AirDrop.sol:23-31 | every positive payment is issued as a deposit as it is, and nothing else |
| AirDrop.DeliverStep | codes/crystality/test_cases/AirDrop.sol:37-40 | delivering any pending deposit never reverts while the funds fit, and keeps at every address balance plus deposits under way equal to what the accepted calls gave it |
| AirDrop.Conservation | codes/crystality/test_cases/AirDrop.sol:12-40 | over every run of calls and deliveries, balances plus deposits in flight stay equal to the starting balances and no deposit reverts |
| AirDrop.AcceptedExactly | codes/crystality/test_cases/AirDrop.sol:12-22 | over every run a call is accepted exactly if its total, with what is still on its way to the sender, is within the sender's starting balance and later gains |
| AirDrop.Confluence | codes/crystality/test_cases/AirDrop.sol:12-40 | any two runs that accepted the same calls and delivered everything end with equal balances, whatever the order of calls and deliveries |
| AirDrop.LossExactly | codes/crystality/test_cases/AirDrop.sol:37-40 | some run loses a deposit if and only if the starting balances together exceed 256 bits |
| Erc20.EffectBalance | codes/crystality/test_cases/ERC20.sol:10-72 | an accepted call changes balances plus issued deposits by exactly the supply change it relays, and never the supply itself |
| Erc20.DepositBounded | codes/crystality/test_cases/ERC20.sol:20-23 | delivering any pending deposit never reverts while there is room in 256 bits, and moves money without making any |
| Erc20.ExcessConstant | codes/crystality/test_cases/ERC20.sol:10-72 | every step of every run, whatever reverts, keeps balances plus deposits in flight (or lost) minus supply plus pending (or lost) supply changes constant |
| Erc20.SupplyConserved | codes/crystality/test_cases/ERC20.sol:10-72 | from any start with room in 256 bits for what is minted, funded balances included, and for deliveries in any order: no deposit is lost, and balances plus pending deposits stay as far from supply plus pending changes as they were, except for reverted subtractions |
| Erc20.ConservedExactly | codes/crystality/test_cases/ERC20.sol:54-72 | over every run conservation is exact if and only if no subtraction is delivered while it is above the supply |
| Erc20.AnyOrderExactly | codes/crystality/test_cases/ERC20.sol:54-62 | what can be checked beforehand: every order of delivering the pending supply relays loses nothing if and only if the pending subtractions together are at most the present supply |
| Erc20.SupplyExact | codes/crystality/test_cases/ERC20.sol:54-72 | with supply relays delivered in issue order, from any start whose money is backed, no subtraction is above the supply, so conservation is exact; from a contract just deployed balances plus pending deposits equal supply plus pending changes |
| Erc20.OutOfOrderLoses | codes/crystality/test_cases/ERC20.sol:54-72 | a burn relay that overtakes its mint reverts for good and leaves a supply that nobody owns |
| Erc20.TransferMoves | codes/crystality/test_cases/ERC20.sol:25-52 | `transfer` and `transferFrom` are accepted exactly when authorised and covered, and with their deposit move the amount and touch no other balance or allowance, as the Methods section of EIP-20 asks |
| Erc20.OwnCallsExactly | codes/crystality/test_cases/ERC20.sol:10-72 | `mint`, `burn` and `approve` are accepted exactly for the caller's own address and within balance and 256 bits; they change only that balance or only the one allowance, and relay exactly the supply change |
| Erc20.AllowanceExactly | codes/crystality/test_cases/ERC20.sol:35-52 | over every run an allowance is what was last approved less what its spender has moved since |
| Erc20.EventsExactly | codes/crystality/test_cases/ERC20.sol:10-72 | the events of an accepted call explain all balance changes if and only if it is not a plain `transfer` of a positive amount to somebody else |
| SeiOptimistic.App.ProcessProposal | codes/sei/modified/app/app.go:1072-1112 | accepts exactly the proposals whose gas is acceptable; a rejected one changes nothing, the first accepted one is stored with its hash, block and base state, aborted exactly at an upgrade, a repeated one changes nothing, a conflicting one only sets the abort mark |
| SeiOptimistic.App.FinalizeBlock | codes/sei/modified/app/app.go:1114-1149 | the answer is the stored block's if its info is not aborted and has the finalized hash, else the finalized block's, both processed on the committed state; the info is cleared |
| SeiOptimistic.AnswerExactly | codes/sei/modified/app/app.go:1114-1149 | the answer is right for every way of processing blocks if and only if the background result is not used or was computed for the finalized block itself |
| SeiOptimistic.Invisible | codes/sei/modified/app/app.go:1072-1149 | over any number of heights and any mix of proposals and background progress, the committed state and all answers are those of a node that ignores proposals |
| SeiOptimistic.OneToken | codes/sei/modified/app/app.go:1072-1149 | each stored info yields exactly one completion token, its sender never blocks, and a waiting finalization is always served |
| SeiOptimistic.StoredExactly | codes/sei/modified/app/app.go:1072-1149 | over every run what is stored is the first accepted proposal since the last finalization, aborted exactly if it was at an upgrade or a later accepted one had another hash, and with no assumption on hashes this decides for which block finalization answers |
| SeiBlock.DecodeConcurrently | codes/sei/modified/app/app.go:1577-1604 | for every order in which the goroutines finish, slot i holds transaction i decoded |
| SeiBlock.ProcessWithOcc | codes/sei/modified/app/app.go:1434-1487 | for every finishing order the batch executed is the same entry list, each entry with its own transaction, index and estimate |
| SeiBlock.AllPrioritized | codes/sei/modified/app/app.go:1382-1399 | the message loop answers whether there are messages and each is an oracle vote or one of the three contract messages |
| SeiBlock.Partition | codes/sei/modified/app/app.go:1369-1412 | the six lists are the two sub-sequences of the block by kind, in block order |
| SeiBlock.IndicesOrdered | codes/sei/modified/app/app.go:1369-1412 | each part is strictly increasing and of its kind |
| SeiBlock.StablePartition | codes/sei/modified/app/app.go:1369-1412 | every position stands at exactly one place of exactly one part |
| SeiBlock.BatchExactly | codes/sei/modified/app/app.go:1434-1458 | a batch holds every transaction of its kind, in block order, and nothing else, each entry with its own position, decoded form and estimated write set |
| SeiBlock.Scatter | codes/sei/modified/app/app.go:1548-1562 | each result goes to its slot and all other slots stay |
| SeiBlock.ProcessBlock | codes/sei/modified/app/app.go:1541-1562 | for every finishing order no slot is left empty and slot i holds the result its batch gave for transaction i |
| SuiStore.InMemoryObjectStore.ReadObjects | codes/sui/modified/sui-single-node-benchmark/src/mock_storage.rs:44-80 | returns all inputs as stored if each is there at exactly the version asked for, else an error |
| SuiStore.InMemoryObjectStore.CommitObjects | codes/sui/modified/sui-single-node-benchmark/src/mock_storage.rs:82-92 | mutable inputs that were not written are removed, the writes inserted, nothing else changes |
| SuiStore.LoadsExactly | codes/sui/modified/sui-single-node-benchmark/src/mock_storage.rs:104-116 | an input is loaded exactly if the store holds it at the version asked for, and then as it is there |
| SuiStore.SpentOnce | codes/sui/modified/sui-single-node-benchmark/src/mock_storage.rs:82-116 | once a transaction has committed that deletes an input or leaves it at another version, no transaction can load the old reference |
| SuiStore.NeverPanics | codes/sui/modified/sui-single-node-benchmark/src/single_node.rs:173-215 | for transactions with disjoint mutable inputs and new created ids, in every reachable state of every interleaving each unfinished transaction can take its next step |
| SuiStore.AnyOrder | codes/sui/modified/sui-single-node-benchmark/src/benchmark_context.rs:722-753 | every interleaving of the separate read and commit steps ends with the same object map and the same effects |
| SuiStore.ExecuteInOrder | codes/sui/modified/sui-single-node-benchmark/src/benchmark_context.rs:722-753 | the in-order branch does not fail and ends where every interleaving ends |
| SuiAccounts.CreateAccounts | codes/sui/modified/sui-single-node-benchmark/src/mock_account.rs:59-98 | account r gets two objects per listed send, numbered from the sum of all earlier allocations |
| SuiAccounts.HandedExactly | codes/sui/modified/sui-single-node-benchmark/src/mock_account.rs:62-75 | the counters handed out are exactly 1 to twice the number of listed sends |
| SuiAccounts.ObjectIdExactly | codes/sui/modified/sui-single-node-benchmark/src/mock_account.rs:122-130 | an object id is 255, eight bytes that read back as the counter, and zeros |
| SuiAccounts.ObjectIdInjective | codes/sui/modified/sui-single-node-benchmark/src/mock_account.rs:122-130 | the little-endian object ids of different 64-bit counters differ |
| SuiAccounts.GenesisDistinct | codes/sui/modified/sui-single-node-benchmark/src/mock_account.rs:59-130 | all genesis ids are pairwise distinct, and none is the administrator's if and only if the counters end at or before it |
| SuiAccounts.Generate | codes/sui/modified/sui-single-node-benchmark/src/benchmark_context.rs:466-481 | send n uses the sender's next unused position for gas and for the coin |
| SuiAccounts.BoundsExactly | codes/sui/modified/sui-single-node-benchmark/src/tx_generator/move_tx_generator.rs:117-132 | all object indices are in bounds if and only if each sender is listed for at least its sends |
| SuiAccounts.ChoicesExactly | codes/sui/modified/sui-single-node-benchmark/src/tx_generator/move_tx_generator.rs:117-132 | a send uses, for gas, as many objects into the first half of its sender's allocation as that sender has sent before, and the one as far into the second half as coin |
| SuiAccounts.NoObjectTwice | codes/sui/modified/sui-single-node-benchmark/src/tx_generator/move_tx_generator.rs:185-192 | no gas object or coin is used by two generated transactions, nor one object as both |
| SuiAccounts.WorkloadIndependent | codes/sui/modified/sui-single-node-benchmark/src/benchmark_context.rs:454-486 | hence the generated workload, packages among its inputs, meets the conditions under which any-order execution is safe |
| AccountUniverse.TakenLeft | codes/aptos/modified/e2e-tests/src/account_universe/universe.rs:244-257 | one pick lowers exactly the picked account's remaining count by one, through decrement or removal |
| AccountUniverse.PairOk | codes/aptos/modified/e2e-tests/src/account_universe/universe.rs:218-242 | using the later position first leaves the earlier one valid, and the two accounts differ |
| AccountUniverse.PickedAtMost | codes/aptos/modified/e2e-tests/src/account_universe/universe.rs:189-257 | over every run no account is picked more than `limit` times between resets, and it is out of consideration exactly when it has been |
| AccountUniverse.PicksExactly | codes/aptos/modified/e2e-tests/src/account_universe/universe.rs:197-257 | over all runs every pick at a valid position succeeds if and only if the limit is not zero |
| AccountUniverse.PairsDistinct | codes/aptos/modified/e2e-tests/src/account_universe/universe.rs:218-286 | in every reachable state every pair of positions gives two different accounts in bounds, neither pick panics, and the lower account sends unless the pair is reversed |
| AccountUniverse.Transfer | codes/aptos/modified/e2e-tests/src/account_universe/peer_to_peer.rs:38-122 | a transfer moves the amount or nothing and charges the sender exactly its cost: nothing below the normal fee at 100 a unit, the failure cost below the amount, else the normal cost; it succeeds, is discarded and raises the sequence number exactly when stated, and changes nothing else |
| AccountUniverse.CostOrderExactly | codes/aptos/modified/e2e-tests/src/account_universe/peer_to_peer.rs:98-112 | a failed transfer can be charged for every balance if and only if its cost is not above the normal cost, or the normal fee is too high for any transfer to get that far |
| AccountUniverse.TransfersConserve | codes/aptos/modified/e2e-tests/src/account_universe/peer_to_peer.rs:33-124 | over every run the total balance changes by exactly the gas charged and the funds added, and each sequence number by the sender's kept transactions |
| AccountUniverse.CostsExactly | codes/aptos/modified/e2e-tests/src/account_universe/peer_to_peer.rs:33-124 | over every run the total balance goes down by exactly what its transfers cost, case by case, at 100 a unit |
| AccountUniverse.PanicsExactly | codes/aptos/modified/e2e-tests/src/account_universe/peer_to_peer.rs:54-75 | when all funds fit in a u64, a transfer in a reachable state never panics because of the receiver's balance: it goes through if and only if amount plus fee, the cost of a failure and the counts that grow fit |
| AccountUniverse.Universe.Pick | codes/aptos/modified/e2e-tests/src/account_universe/universe.rs:208-216 | the account at a position and the remaining counts afterwards, or a panic at count zero |
| AccountUniverse.Universe.TransferBetween | codes/aptos/modified/e2e-tests/src/account_universe/peer_to_peer.rs:52-122 | the branches in the source's order leave both balances, the sequence number, the status and the gas that the cost rules give, on two different accounts |
| AccountUniverse.Universe.PayPair | codes/aptos/modified/e2e-tests/src/account_universe/universe.rs:260-286 | picking a pair and transferring is the step of the run semantics |

## Left out

- StmMachine: the internals of the scheduler, the multi-version hash map, the last-input-output store and the block gas limit processor; they appear as the step guards described above.
- StmMachine: recording an incarnation and telling the scheduler it is finished are one step.
- StmMachine: a transaction's reads are bounded by its gas, as executions are metered; captured-read caching within one execution and module reads and writes are not modelled.
- StmTypes: resource groups, layouts, BCS serialization and the fallback that re-runs a block because of them; keys form one flat space.
- StmTypes: bounds of first-generation aggregator deltas, so such a delta on a present value always applies; changes of delayed fields have bounds. A delayed field change is based on the field's own previous value, and creating one that exists is only in `DelayedFields`.
- StmProgress.NeverStuck, StmFinish.CanFinishBlock: the scheduler's choice of tasks (fairness) is not modelled, so they say that progress is possible, not that it is made; blocks with code invariant errors are excluded, and so are transactions whose serial run is not certain, where the code fails.
- StmWorkers: taking an execution or a validation and beginning it are one step, except for the re-execution after an abort; a worker woken by halting drops its task instead of recording an outcome that nobody will read.
- StmExecutor.ExecuteBlock: the result of the parallel run is a parameter, tied to the finished runs of the pipeline; thread spawning, logging, counters and resource clean-up are not modelled.
- DelayedFields.UnsyncMap.ApplyChanges: applying a change (addition within bounds, snapshot, derived string) is an arbitrary partial function of the base value.
- BallotRounds.ShardedTally: rounds after the first and overlapping finalize calls, which the contract does not support because proposals and weights are never cleared.
- BallotRounds, AirDrop, Erc20: the relay engine is assumed to deliver each message exactly once; direct outside calls of the relayed functions are initial state, not steps.
- SeiOptimistic.Invisible: block processing is a function of the committed state and the block, and a hash names one block; total gas wanted and planned upgrades are attributes of a proposal.
- SeiBlock.ProcessBlock: begin, middle and end of block and deferred bank writes are one function between the batches; batch execution is a length-preserving function; the unused concurrent paths are left out.
- SuiStore: shared objects and child objects; packages are inputs like others, read and never changed; reading the inputs and committing are steps, execution between them is a function of the loaded objects.
- SuiAccounts.Generate: senders and recipients missing from the account file, where the source panics; which of several lines with the same index is used is a parameter; `num_transfers` is 0, as in this workload.
- SuiAccounts.CreateAccounts: key generation and signing.
- AccountUniverse.Universe.PayPair: the choice of positions from random indices is a parameter (the library function that makes it is not part of this model); arithmetic overflow panics, as in builds with overflow checks.
- Wiring, upgrade handlers, RPC servers, metrics, file reading, workload randomness, package publishing, scripts and plots of the repository are not modelled.
