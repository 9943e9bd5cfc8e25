# Burla's job execution, modelled and proved

Burla runs a function over many inputs on a cluster. The client splits the inputs and uploads them
to nodes; nodes run them on workers, take inputs and slots from each other, and return results; the
head admits jobs, boots machines, decides how far a job may grow, and survives restarts on a history
database. This project models that machinery in Dafny and proves what it is for: every input is
delivered exactly once or still owned by somebody, with the one exception named exactly, every slot is
accounted for, growth is paid for in measured goodput, and a restarted head has lost nothing that matters.

Verify with `dafny verify dfyconfig.toml`.

## How it is laid out

| Part | Modules |
|---|---|
| Values and sums | `JobTypes`, `Arithmetic` |
| One node, as functions | `NodeInputs`, `NodeResults`, `NodeSlots` |
| One node, as the code runs it | `SizedQueues`, `JobNode` (methods proved against those functions) |
| Input stealing across nodes | `InputTransfer`, `InputOwnership`, `InputOrder`, `QueueBalance`, `StealRound` |
| Result delivery | `ResultDelivery`, `ClientResults` |
| Slots across nodes | `SlotLedger`, `SlotRecovery`, `SlotLoss` |
| The whole job | `JobRun`, `EndToEnd`, `JobEnding`, `JobLeaving` |
| Mint controller | `MintRules`, `MintController` (the class), `MintJudgement`, `MintRuns`, `MintTiming`, `MintStall`, `MintAnswers` |
| Live state and history of the head | `ClusterRules`, `ClusterCascade`, `ClusterState` (the class), `ClusterRuns`, `ClusterPromises`, `ClusterAnswers` |
| Client upload | `InputSplit`, `InputChunks`, `ClientInputs` |
| The rest | `NestedCalls`, `MachinePlanning`, `Paging` |

Each handler, and each stretch of a coroutine between two awaits or inside one lock, is one atomic
step. Messages stay in the network for ever and may be read any number of times or never, which
covers loss, delay and repetition. Objects whose fields the code updates are classes whose methods
are proved equal to specification functions; runs are sequences of steps of those functions, and the
theorems hold for all of them.

Fields called `decision`, `acked`, `done`, `credited`, `debits`, `latest`, `flows`, the outbox of a node that
is gone and the mint `Ledger` are history the proofs are about; no branch of the modelled code
reads them.

## What turned out conditional

- A POST of inputs is retried when its response is lost, and the node cannot tell: the inputs are
  then queued twice. An upload that passed its 404 test may also queue after the reset, into the next
  job; and a GET may be handled after the ACK of the batch its requester took.
  `InputOwnership.ConservedExactlyWhenHarmless` says that these, and the reset of a node that still
  owns inputs, are all the steps that change how many owners an input has; a last one changes nothing
  by itself, an upload that lands between a node's claim and its leaving, whose inputs go when the
  node does (`InputOwnership.LateUploadIsLost`). The client may report all inputs uploaded before its
  last POST has landed, so that can happen.
- A node reset because its job failed or was canceled answers 404 too, with results pending
  (`ResultDelivery.ResetLosesExactlyWhen`, `AbortLosesResults`). So does a node that finds a detached
  job completed while the client is out of contact: that test looks at the unacknowledged batch and
  not at the queue, so a client that comes back reads 404 as DONE and lacks what was queued
  (`JobEnding.CompletionLosesExactlyWhen`, `CompletionCanLoseAResult`). In a job that is not detached
  this cannot happen.
- The docstring of `trade_slots` promises conserved slots. Credits never exceed debits in any run, but
  slots can be lost: the replay check is outside the lock, so two overlapping handlers of one trade
  both grant (`SlotRecovery.OverlappingHandlersLoseASlot`), and a retry may go to another neighbour,
  which then closes the trade. `SlotLoss.LosesExactlyWhen` names exactly the steps that lose a grant
  for good, and slots are conserved exactly over the runs without one
  (`SlotLoss.ConservedExactlyWhenNothingLost`).
- `trade_slots` can drive a target below zero when sheds are pending
  (`NodeSlots.TradeOverdrawsExactlyWhen`).
- The mint controller's docstring bounds blind growth by one epoch in flight. The code keeps one
  epoch that fell short without harm as well, so the proved bound is that epoch plus the open one.
- The comment on DELETED tombstones says a deleted machine cannot resurrect itself. A restarted head
  does not reload DELETED rows, so there it can (`ClusterPromises.RestartForgetsDeleted`).
- `PATCH` on a job accepts any status, and only COMPLETED is filtered. Any status but the three terminal
  ones, null included, undoes a FAILED or CANCELED end; only RUNNING opens the way to COMPLETED, or
  leaves a job running while admission is paused.
- `remove_node`, which a cluster shutdown calls for FAILED nodes, does not touch history: those nodes
  come back with the next head (`ClusterRuns.RemovedFailedNodeComesBack`).
- Planning on equal machines can boot one with a target of 0 under a CPU budget
  (`MachinePlanning.EveryMachineWorksExactlyWhen`), although a comment rules such machines out; and a
  measured plan cut short by the budget gives its machines more slots than were measured to fit.
- Sorting by duration reads the clock for every page, so a running job can be repeated or skipped;
  all other sorts page exactly.

## Model

| member | source | states |
|---|---|---|
| `InputOwnership.EveryInputOwned` | node_service/src/node_service/job_watcher.py:212-310 | In every state of every run, with lost GETs, lost or repeated ACKs, workers and nodes coming and going, each input has exactly as many owners (client list, upload, queue, live worker, untaken parked batch, produced result) as times it was passed in |
| `InputOwnership.ConservedExactlyWhenHarmless` | node_service/src/node_service/job_endpoints.py:117-182 | A step keeps the owner count of every input if and only if it does not handle a non-empty upload a second time, does not queue one after the node's reset, does not hand out inputs under a transfer whose batch was already taken, and does not reset a node that owns an input |
| `InputOwnership.OrderlyIsHarmless` | node_service/src/node_service/job_endpoints.py:124-125 | A GET repeated before the ACK of its taken batch is only ever a replay, so the orderly steps are all harmless |
| `InputOwnership.RunConserves` | node_service/src/node_service/job_watcher.py:313-316 | Over any run of orderly steps the protocol invariant and every input's owner count are kept |
| `InputOwnership.NeverRunFromTwoPlaces` | node_service/src/node_service/job_watcher.py:313-316 | An input with one owner is never run by two live workers, on one node or on two |
| `InputOwnership.DistinctInputsRunOnce` | node_service/src/node_service/job_watcher.py:313-316 | In every state of every run, an input passed in once is run by at most one live worker |
| `InputOwnership.LateUploadIsLost` | node_service/src/node_service/job_watcher.py:154-170 | An upload handled between the claim and the reset is lost, exactly its inputs and no more |
| `InputOwnership.UploadAfterResetIsLost` | node_service/src/node_service/job_endpoints.py:282-299 | An upload that passed the 404 test before the reset and queues after it takes exactly its own inputs out of the job |
| `InputTransfer.StepKeepsInv` | node_service/src/node_service/job_watcher.py:212-310 | Every orderly step keeps the invariant linking transfers, messages, parked batches and half-finished steals: a taken batch stays parked until its ACK, an answer in transit is the parked batch, a node that claimed its part holds nothing |
| `InputTransfer.PhasesChangeOnlyAsNamed` | node_service/src/node_service/job_watcher.py:154-170 | No step but start, claim, leave, join and reset changes a node's phase, and only finishing an input adds to what a node has done |
| `InputOrder.NodeRunsInOrder` | node_service/src/node_service/helpers.py:45-64 | Over any run a node begins its inputs in the order in which they came to it, by upload, steal, refused batch or a worker giving one back, and what is still queued comes after those; donations take from the end alone |
| `NodeInputs.StealCount` | node_service/src/node_service/job_endpoints.py:131-142 | The number of items taken from the tail: at most the target, within 3 MB unless it is one item, and short of the target only if the queue is empty or the next item would not fit |
| `NodeInputs.TakingIsFair` | node_service/src/node_service/job_endpoints.py:127-143 | What a donor takes for a requester is a fair share: the end of its queue, no shorter left than the requester becomes, within 3 MB unless a single input, and so much that it stays at most one input longer unless the next would not fit beside those given |
| `NodeInputs.OnlyOneFairShare` | node_service/src/node_service/job_endpoints.py:127-143 | There is only one fair share, so the amount is settled for every queue and report |
| `NodeInputs.DonationMovesInputs` | node_service/src/node_service/job_endpoints.py:117-155 | What a GET parks is exactly what the donor's queue or its revoked workers lose |
| `NodeInputs.RevokeMovesInputs` | node_service/src/node_service/job_endpoints.py:153-154 | Revoking moves each victim's input out of its worker: none copied, none dropped |
| `NodeInputs.RetiringIdleStrandsNothing` | node_service/src/node_service/job_endpoints.py:245-258 | Retiring the first k idle workers strands no input and removes exactly min(k, idle) of them |
| `NodeInputs.TheFirstIdleRetire` | node_service/src/node_service/job_endpoints.py:245-258 | A worker retires exactly when it is idle and fewer than k idle ones come before it |
| `SizedQueues.SizedQueue.Put` | node_service/src/node_service/helpers.py:51-54 | Appends, and the running byte total stays the sum over the items present |
| `SizedQueues.SizedQueue.Get` | node_service/src/node_service/helpers.py:56-59 | Removes the oldest item, with its bytes |
| `SizedQueues.SizedQueue.GetLast` | node_service/src/node_service/helpers.py:61-64 | Removes the newest item, with its bytes |
| `JobNode.JobNode.EnqueueAll` | node_service/src/node_service/job_endpoints.py:296-299 | The uploading loop puts every input on the queue, in order, whatever became of the node since the upload was admitted |
| `JobNode.JobNode.TakeFromTail` | node_service/src/node_service/job_endpoints.py:129-143 | The donor's loop splits the queue exactly: what it returns is the tail, in queue order, and what stays is the rest |
| `JobNode.JobNode.RevokeInputs` | node_service/src/node_service/job_endpoints.py:153-154 | Clears every victim's input and returns them in the victims' order |
| `JobNode.JobNode.GetInputs` | node_service/src/node_service/job_endpoints.py:111-160 | Without a live watcher nothing; a repeated id the batch already parked; an idle requester with an empty queue, of a donor with an empty queue, the victims' inputs; everybody else a fair share of the queue |
| `JobNode.JobNode.AckTransfer` | node_service/src/node_service/job_endpoints.py:164-182 | Drops a received batch, requeues a refused one at the end, ignores an unknown id |
| `JobNode.JobNode.DecideTransfer` | node_service/src/node_service/job_watcher.py:257-272 | Takes a non-empty batch exactly when the node still has slots, and owes the donor that answer |
| `JobNode.JobNode.BeginSteal` | node_service/src/node_service/job_watcher.py:212-237 | Opens the node's one transaction and reports its queue length |
| `JobNode.JobNode.ClaimDrainedJobPart` | node_service/src/node_service/job_watcher.py:154-170 | Stops the node exactly when nothing is queued, parked, half-stolen, running, or awaiting its acknowledgement, and leaves it as it was otherwise |
| `QueueBalance.StealBalances` | node_service/src/node_service/job_endpoints.py:127-143 | A steal of m items with an accurate report lowers the sum of squared queue lengths by at least 2 m^2 |
| `QueueBalance.StealMovesExactlyWhen` | node_service/src/node_service/job_endpoints.py:127-128 | A steal moves at most half the difference, and nothing exactly when the donor is at most one input ahead |
| `QueueBalance.StealEvensOut` | node_service/src/node_service/job_endpoints.py:127-143 | After a steal with an accurate report the donor is at most one input longer than the requester, or the next input of its tail would not have fitted beside those taken |
| `StealRound.StealGetsThrough` | node_service/src/node_service/job_watcher.py:212-310 | From any state of any run in which a node may steal there is a run of the protocol that moves a fair share from the end of the donor's queue to the end of the requester's, or, when it is refused, leaves both as they were, and either way every other node too |
| `StealRound.LostAnswerGoesBack` | node_service/src/node_service/job_watcher.py:238-310 | When no answer to a GET gets through, the requester gives up and says so, and a donor still there then has whatever it parked for it back at the end of its queue |
| `QueueBalance.StealingSettles` | node_service/src/node_service/job_watcher.py:173-332 | A ring left to itself makes at most half its imbalance of non-empty steals |
| `QueueBalance.SettledRingIsLevel` | node_service/src/node_service/job_watcher.py:124-136 | When no steal can move anything, no queue is more than n - 1 longer than any other; so beside an empty node none exceeds n - 1 |
| `ResultDelivery.StepKeepsInv` | node_service/src/node_service/job_endpoints.py:321-333 | Serving, losing, repeating and acknowledging polls keeps delivered ++ undelivered batch ++ queue equal to produced |
| `ResultDelivery.DeliveryIsFifo` | client/src/burla/_node.py:607-662 | Over every run the client's list is a prefix of what the node produced, and the rest is in the batch and the queue, in order |
| `ResultDelivery.DoneMeansAllDelivered` | client/src/burla/_node.py:374-377 | Unless the job failed, was canceled, or was found completed while its client was out of contact, a client that reads 404 as DONE holds every result the node produced |
| `ResultDelivery.ResetLosesExactlyWhen` | node_service/src/node_service/job_watcher.py:954-998 | Whatever the reset and whatever follows, the client misses results for good if and only if the queue is not empty at the reset or a pending batch is there that it has not seen and gets no reply with |
| `ResultDelivery.CompletionLosesExactlyWhen` | node_service/src/node_service/job_watcher.py:966-998 | When a job is found completed without its client, what is produced is what the client has and the queue at the test; while no reply gets through, results are thrown away if and only if that queue was not empty |
| `ResultDelivery.DoneMissesWhatWasThrownAway` | client/src/burla/_node.py:374-377 | Whatever the reset, a client that reads 404 as DONE lacks exactly the undelivered batch and queue the reset threw away, and so holds all results if and only if there were none |
| `ResultDelivery.AbortLosesResults` | node_service/src/node_service/job_watcher.py:976-998 | A run in which the reset of a failed job throws away a result and the client is DONE without it |
| `ResultDelivery.ARoundDelivers` | client/src/burla/_node.py:816-862 | A poll that gets through delivers the whole next batch, and at least one result while any is owed |
| `ResultDelivery.OneResultIsDelivered` | client/src/burla/_node.py:816-862 | Two rounds of polling carry a queue's single result to the client and acknowledge it, after which the node owes nothing |
| `NodeResults.NextBatch` | node_service/src/node_service/job_endpoints.py:88-107 | The unacknowledged batch again, or a non-empty prefix of the queue under a fresh id; none only if both are empty |
| `NodeResults.BatchIsJustLongEnough` | node_service/src/node_service/job_endpoints.py:93-100 | A batch stops short of the queue only at the first result that brings it to 1 MB |
| `NodeResults.NextBatchIsNew` | node_service/src/node_service/job_endpoints.py:93-107 | A new batch is the front of the queue: all of it, unless it comes to 1,000,000 bytes before, and then no longer than that takes |
| `NodeResults.OnlyOneNewBatch` | node_service/src/node_service/job_endpoints.py:93-107 | There is only one such batch |
| `JobNode.JobNode.DrainResults` | node_service/src/node_service/job_endpoints.py:93-100 | The draining loop takes exactly the batch prefix off the queue |
| `JobNode.JobNode.GetResultBatch` | node_service/src/node_service/job_endpoints.py:88-107 | Leaves the outbox as the next-batch function says |
| `JobNode.JobNode.GetResults` | node_service/src/node_service/job_endpoints.py:321-333 | A batch that is not acknowledged comes again; otherwise it is dropped and the next batch of the queue is pending and the answer, under the fresh id, or none if the queue is empty |
| `ClientResults.NodeClient.HandleReply` | client/src/burla/_node.py:817-860 | Plays the client of the delivery protocol: if some result is an error and the caller wants errors raised, or it is the worker's own failure, nothing of the batch is returned; otherwise all of it, in order, and its id goes with the next poll |
| `ClientResults.NodeClient.HandleNotFound` | client/src/burla/_node.py:374-377 | A 404 makes the node DONE and changes nothing else |
| `SlotLedger.CreditMatchesADebit` | node_service/src/node_service/job_endpoints.py:203-264 | Every slot a requester adds was debited by the neighbour this attempt asked, for this trade and this amount, and had been credited to nobody |
| `SlotLedger.TradingNeverCreatesSlots` | node_service/src/node_service/job_endpoints.py:203-264 | Over every run, with lost answers, replayed or overlapping requests and changing neighbours, targets equal inflows less grants not yet added |
| `SlotLedger.StepKeepsBalance` | node_service/src/node_service/job_watcher.py:511-513 | Each kind of step, including minting, shedding, replacement, stranded reclaim and reset, books exactly what it does to the targets |
| `SlotLedger.TargetsChangeAsNamed` | node_service/src/node_service/job_watcher.py:511-513 | A target moves only by what a node is assigned, gives, receives, is minted, sheds, replaces or takes back, by exactly that amount, and goes to 0 with the reset |
| `SlotLedger.StepKeepsTrades` | node_service/src/node_service/job_endpoints.py:212-214 | A credited debit's trade is closed for good, and every answer in transit matches its debit |
| `SlotRecovery.LostAnswerIsReplayed` | node_service/src/node_service/job_watcher.py:471-500 | While no grant is stranded, a grant whose response was lost is answered again when its trade is retried, and the requester then adds exactly it |
| `SlotRecovery.SlotsExactlyConserved` | node_service/src/node_service/job_endpoints.py:194-201 | A sufficient condition: over runs in which no step strands a grant, whenever no trade is open the targets are exactly what flowed in less the uncredited grants between nodes of which one has left |
| `SlotRecovery.StrandsExactlyWhen` | node_service/src/node_service/job_endpoints.py:203-264 | While a retry reaches every owed grant, a step puts one out of reach of the next retry, for now or for good, if and only if it asks another neighbour while a grant is owed, grants over a grant still owed, or gives slots to a request whose trade is closed, has moved on or has been answered |
| `SlotRecovery.BothAskedIsReachable` | node_service/src/node_service/job_watcher.py:471-500 | A run from the start of a job to a node having asked its neighbour twice for one open trade |
| `SlotRecovery.OverlappingHandlersLoseASlot` | node_service/src/node_service/job_endpoints.py:212-216 | From there two overlapping handlers of that trade each give a slot and one is added: a slot is lost with no trade open and nobody gone |
| `SlotLoss.LosesExactlyWhen` | node_service/src/node_service/job_watcher.py:471-513 | A step loses a grant if and only if it closes a trade, by an answer, a 404 or the node's reset, that has another unclaimed grant than the one the answer brings, or gives slots to a trade that is closed |
| `SlotLoss.LostForGood` | node_service/src/node_service/job_endpoints.py:203-264 | A grant whose trade nobody has open stays lost under every step |
| `SlotLoss.ConservedExactlyWhenNothingLost` | node_service/src/node_service/job_endpoints.py:194-201 | Over every run, whenever no trade is open the targets are exactly what flowed in if and only if no step of the run has lost a grant, and short by the grants lost otherwise |
| `SlotLoss.SwitchingBackRecovers` | node_service/src/node_service/job_watcher.py:124-136 | Asking another neighbour strands a grant and loses nothing: when that attempt is given up, the donor can be asked again and still has it |
| `SlotLoss.RetryRecovers` | node_service/src/node_service/job_endpoints.py:212-214 | A retry at the donor of an unclaimed grant whose trade is open is answered with it and adds it in full |
| `NodeSlots.TradeOverdrawsExactlyWhen` | node_service/src/node_service/job_endpoints.py:245-260 | A drained node can be asked below zero slots unless, and only unless, it has no more idle workers than slots |
| `NodeSlots.TradeOverdrawsExample` | node_service/src/node_service/job_endpoints.py:245-260 | Two slots, five idle workers and three sheds pending: a request for five leaves the target at -3 |
| `JobNode.TradeGrantIsAnswer` | node_service/src/node_service/job_endpoints.py:216-258 | A trade gives one slot for every worker it retires, and, only while pressured with no replacement in flight, as many slots without a live worker as are wanted; it retires idle workers of a drained node alone, for what is wanted beyond those |
| `JobNode.JobNode.FreeSlots` | node_service/src/node_service/job_endpoints.py:216-258 | Gives the slots of workers it retires and, while pressured and no replacement is in flight, those with no live worker, as far as wanted |
| `JobNode.JobNode.TradeSlots` | node_service/src/node_service/job_endpoints.py:186-274 | Replays a known trade id without effect, grants nothing without a live watcher, and otherwise takes what it gives off its own target, that being the workers it retired and, while pressured with no replacement in flight, the slots with no live worker |
| `JobNode.JobNode.RetireIdleWorkers` | node_service/src/node_service/job_endpoints.py:245-258 | Retires idle workers from the front until enough are retired or none is idle, and counts them |
| `JobNode.JobNode.ShedIdleWorkers` | node_service/src/node_service/job_watcher.py:842-870 | While the queue is empty, idle workers retire against the pending sheds, one for one |
| `JobNode.JobNode.TakeBackSlots` | node_service/src/node_service/head_client.py:93-101 | The target drops at once by what the head takes back, at most to zero, and as much is to be shed |
| `JobRun.StepKeepsInv` | node_service/src/node_service/job_watcher.py:612-1000 | In the job where inputs, results and slots move together, completion included, every step keeps all invariants and every input's owner count |
| `JobRun.ReportsMeanAllRun` | node_service/src/node_service/job_watcher.py:970-972 | When the nodes' reports, which may be behind, add up to the number of inputs, every input has been run to its result |
| `JobRun.CountMeansAllReceived` | client/src/burla/_remote_parallel_map.py:549-549 | A client that has counted as many results as inputs has from every node all it produced |
| `JobRun.AllRunMeansNothingHeld` | node_service/src/node_service/job_watcher.py:966-975 | Once every input has been run no node owns one, so the reset of a completed job takes none with it |
| `JobRun.NothingRunsOnceOver` | node_service/src/node_service/job_watcher.py:966-975 | No worker of a node is running an input once the node has found the job over, so it produces no more results |
| `EndToEnd.DeliveredOrOwned` | node_service/src/node_service/job_watcher.py:313-316 | In every reachable state of the whole job, each input is delivered, still owned on the job, or has a result that went with its node's reset; as often as it was passed in |
| `EndToEnd.NothingThrownAway` | node_service/src/node_service/job_watcher.py:966-975 | No result goes with a reset in a job that is not detached, nor in any as long as no node found it completed without its client |
| `EndToEnd.DeliveredResultsMatch` | client/src/burla/_node.py:817-860 | The k-th result received from a node is the result of the k-th input that node finished |
| `EndToEnd.CountReachedMeansDone` | client/src/burla/_remote_parallel_map.py:549-549 | When the client has counted as many results as inputs it has each input's result exactly once, nothing is left anywhere and nothing was thrown away |
| `EndToEnd.LeftNodeTookNothing` | node_service/src/node_service/job_watcher.py:946-998 | A node that left, through the claim or at completion, took no input, transfer or running worker with it, nor a result the client lacks unless it found a detached job completed without its client |
| `EndToEnd.DoneClientMissesNothing` | client/src/burla/_node.py:627-628 | The node behind a 404 read as DONE has left and owes the client nothing, unless the job is detached and the node found it completed while the client was out of contact |
| `JobEnding.CompletionLosesExactlyWhen` | node_service/src/node_service/job_watcher.py:966-998 | From the completion test of a detached job without its client, over any steps of the whole job in which the client gets no reply from the node, the client misses results of it if and only if its queue was not empty at the test |
| `JobEnding.CompletionCanLoseAResult` | node_service/src/node_service/job_watcher.py:966-998 | For any input, a whole run of a detached job, from the upload on, after which the client is DONE with the node and lacks the result |
| `JobEnding.LaneRuns` | client/src/burla/_node.py:607-662 | In every run of the job, what happens between the client and one node is a run of the delivery protocol |
| `JobLeaving.ClaimStopsDonating` | node_service/src/node_service/job_watcher.py:154-170 | After a successful claim the node can leave, and in every continuation no GET is handled there any more and every one may be refused |
| `JobLeaving.OnlyDrainedNodesClaim` | node_service/src/node_service/job_watcher.py:154-170 | A claim by a node that is not drained changes nothing |
| `JobLeaving.ClaimingNodeLeaves` | node_service/src/node_service/job_watcher.py:946-998 | From any reachable state in which a node may claim its part, the job can go on so that the node leaves and its client is DONE with every result the node produced |
| `JobLeaving.NodeDeliversAndLeaves` | node_service/src/node_service/job_watcher.py:612-1000 | For any input, a whole run from the start of the job: the node joins, starts, runs the input, delivers its result, claims its part and leaves, and the client is DONE with it holding the result |
| `EndToEnd.SlotsAccountedFor` | node_service/src/node_service/job_watcher.py:511-513 | Throughout the job, targets plus grants in transit equal slots assigned, minted and reclaimed less those shed, replaced and released |
| `MintRuns.SlotsAccountedFor` | main_service/src/main_service/mint_controller.py:141-187 | Per node, slots granted equal slots verified, kept, in the open epoch, waiting to be shed and shed; the open epoch's grants and allowance add up to its opening allowance; unproved slots come from at most one epoch since the last verified one, and kept epochs number at most one more than verified ones |
| `MintRuns.GrantedOncePerEpoch` | main_service/src/main_service/mint_controller.py:152-155 | Until another epoch opens, a node that was granted slots is granted no more |
| `MintRuns.ProbeIsVerifiedOrTakenBack` | main_service/src/main_service/mint_controller.py:341-361 | A probe whose epoch ends is verified or taken back in full, node by node; nothing kept without proof comes from a probe |
| `MintRuns.NeverStuck` | main_service/src/main_service/mint_controller.py:244-259 | A frozen controller has no allowance and a probe time; one neither frozen nor judging has something to grant; the judged noise estimate is never missing |
| `MintRuns.StepKeepsInv` | main_service/src/main_service/mint_controller.py:261-370 | Every grant, shed and tick keeps the controller's invariant and its books |
| `MintRuns.EarnedIsPositive` | main_service/src/main_service/mint_controller.py:316-322 | A verified epoch always leaves a positive allowance, the half-of-the-fleet cap included |
| `MintAnswers.EarningsOf` | main_service/src/main_service/mint_controller.py:316-322 | A verified epoch whose new workers earned 0.8 of an average worker leaves four times its grants, any other verified one twice, at least the base allowance in both cases and at most half of the workers |
| `MintAnswers.MoreGoodputEarnsMore` | main_service/src/main_service/mint_controller.py:298-361 | With all else as it is, more goodput never leaves a smaller allowance when the verdict ends the epoch |
| `MintAnswers.BaseIsATenth` | main_service/src/main_service/mint_controller.py:130-131 | The base allowance is a tenth of the workers to within one half, and four at least |
| `MintAnswers.ProbeIsSmall` | main_service/src/main_service/mint_controller.py:244-259 | A probe may grant two percent of the workers to within one half, and four at least |
| `MintAnswers.NoiseIsOfLastFour` | main_service/src/main_service/mint_controller.py:133-176 | The noise an epoch is judged by is that of the last four blocks: 24 sigma^2 is the sum of the squared differences between each two of them |
| `MintAnswers.ReadingAnswer` | main_service/src/main_service/mint_controller.py:189-224 | A block of 15 s or more ends with a reading, and its rate joins the last eight exactly when the job was busy throughout; the first reading only sets the origin |
| `MintAnswers.ReadingMovesGoodput` | main_service/src/main_service/mint_controller.py:201-207 | A reading later than the last one moves the average the share weight of the way to the rate between them |
| `MintAnswers.VerifiedExactlyWhen` | main_service/src/main_service/mint_controller.py:261-315 | An epoch is verified exactly when its time has come, the job has grown by four workers and two percent, each new worker earns 0.3 of an average one and the gain exceeds 1.65 sigma; strongly so at 0.8 |
| `MintAnswers.UnverifiedVerdicts` | main_service/src/main_service/mint_controller.py:261-361 | Any other epoch whose time has come: without growth given up at 150 s; within 1.65 sigma of its bar extended, twice at most; after that rolled back if it cost more than 3 sigma |
| `MintAnswers.ProbesExactlyWhen` | main_service/src/main_service/mint_controller.py:244-259 | A frozen job is probed exactly from the time set for it on |
| `MintAnswers.FreezingConsequences` | main_service/src/main_service/mint_controller.py:271-361 | A freezing verdict takes the slots back, node by node, if the epoch was a probe, showed no growth or did harm, and keeps them otherwise; a failed probe doubles the wait for the next up to 600 s |
| `MintAnswers.GoingOnConsequences` | main_service/src/main_service/mint_controller.py:314-333 | A verified epoch keeps its slots and brings the next probe back to 90 s; an extended one waits 45 s more |
| `MintAnswers.ExtendedGrantsNothing` | main_service/src/main_service/mint_controller.py:150-151 | What an extended epoch has left is not granted any more |
| `MintTiming.EpochsCloseAndProbesOpen` | main_service/src/main_service/mint_controller.py:261-333 | With ticks at most d seconds apart, no epoch stays open for 240 + 3d seconds and no job stays frozen for 600 + d |
| `MintStall.StalledGrowth` | main_service/src/main_service/mint_controller.py:309-313 | Once results stop with no epoch open, nothing more is verified and at most one later epoch is kept, no larger than its allowance |
| `MintStall.StalledGrowthWithOpenEpoch` | main_service/src/main_service/mint_controller.py:309-313 | With an epoch open as results stop, at most its own slots and one later epoch's are retained |
| `MintStall.GoodputNeverNegative` | main_service/src/main_service/mint_controller.py:201-205 | While result counts never drop, the goodput average is never negative |
| `MintStall.AverageStaysBetween` | main_service/src/main_service/mint_controller.py:201-205 | Without new results the average does not rise |
| `MintStall.NoGainNoVerdict` | main_service/src/main_service/mint_controller.py:309-313 | An epoch without a gain in goodput is not verified, since the gain must clear the noise strictly |
| `MintRules.Round` | main_service/src/main_service/mint_controller.py:130-131 | Rounds to within one half, ties to even |
| `MintController.JobController.Grant` | main_service/src/main_service/mint_controller.py:141-184 | Refuses while frozen, with nothing left, before eight blocks, 30 s after the epoch opened and to a node it has served in it; otherwise gives what is asked for as far as the allowance goes, which a new epoch lifts to a tenth of the workers unless it is a probe |
| `MintController.JobController.Tick` | main_service/src/main_service/mint_controller.py:189-242 | Reads the job's totals and then decides, as the rules say |
| `MintJudgement.BlockCountsExactlyWhenBusy` | main_service/src/main_service/mint_controller.py:208-224 | A block ends at the first reading 15 s or more after it opened, its rate is the results gained over its length and counts as noise if and only if every reading in it found at least 90% of the workers busy, and the next block opens at once |
| `MintJudgement.NoiseIsRecent` | main_service/src/main_service/mint_controller.py:123-123 | Whatever is read, no more than the last eight blocks count |
| `MintJudgement.MoreGoodputNeverHurts` | main_service/src/main_service/mint_controller.py:298-341 | With all else as it is, more goodput never worsens the verdict, though it raises the bar; and a rollback only ever follows a measured shortfall, never an ambiguous epoch |
| `MintJudgement.BarRisesSlower` | main_service/src/main_service/mint_controller.py:298-300 | The bar, for any fraction of an average worker, rises with goodput but by no more than goodput itself |
| `MintController.JobController.Judge` | main_service/src/main_service/mint_controller.py:261-370 | Carries out exactly the verdict on the open epoch |
| `MintController.AddEach` | main_service/src/main_service/mint_controller.py:277-280 | The shedding loop adds every node's grant to what it owes, whatever the order |
| `MintController.JobController.SumGrants` | main_service/src/main_service/mint_controller.py:281-315 | The summing loop gives the total of the epoch's grants, whatever the order |
| `ClusterRuns.CancelsExactlyTheTree` | main_service/src/main_service/cluster_state.py:386-451 | Failing or canceling a job that has not ended cancels exactly the running jobs below it through running, not detached jobs, each for the end of its own parent, and changes no other job |
| `ClusterRuns.DetachedShieldsItsTree` | main_service/src/main_service/cluster_state.py:358-368 | What hangs below a detached, fully uploaded job is not reached from outside |
| `ClusterAnswers.EndsWithParentExactlyWhen` | main_service/src/main_service/cluster_state.py:358-368 | When a job ends badly another ends with it exactly when it runs, is not detached with all its inputs, and its parent is the ended job or one that ends with it |
| `ClusterAnswers.DetachedJobRunsOn` | main_service/src/main_service/cluster_state.py:358-368 | A running background job with all its inputs keeps running through whatever happens to other jobs, its parents included, and through restarts, as long as nobody writes its own status or takes its upload back |
| `ClusterAnswers.UploadReportSavesJob` | main_service/src/main_service/cluster_state.py:379-413 | So once the upload of a running background job has been reported, no bad end of a parent, however far up, ends it |
| `ClusterAnswers.UpdateAnswer` | main_service/src/main_service/cluster_state.py:379-413 | After an update every field it sets has the value it carries and every other is as before, in memory and row; COMPLETED is refused by a job that does not run, a job that ends without a time for it ends now, and a fail reason is added once |
| `ClusterAnswers.UpdateLetsGo` | main_service/src/main_service/cluster_state.py:403-413 | It leaves every node and row as it is, but for reservations of the job once it has ended and of jobs canceled with it |
| `ClusterCascade.ChildCascade` | main_service/src/main_service/cluster_state.py:427-451 | One recursive call does to the state what canceling the child and everything below it at once does |
| `ClusterCascade.HandledAll` | main_service/src/main_service/cluster_state.py:358-368 | The children and what hangs below each are together everything below the job |
| `ClusterCascade.SubtreesAreApart` | main_service/src/main_service/cluster_state.py:427-451 | Two children of an ended job share no descendant, so no job is canceled twice |
| `ClusterState.EndingShrinksActive` | main_service/src/main_service/cluster_state.py:384-413 | A cascading update leaves fewer jobs that have not ended, so the recursion ends even on cyclic parent links |
| `ClusterState.ClusterState.UpdateJobAndChildren` | main_service/src/main_service/cluster_state.py:371-451 | The recursive update, children one after the other, has the effect of the declarative update |
| `ClusterState.ClusterState.CancelChildren` | main_service/src/main_service/cluster_state.py:427-451 | Cancels everything below the job and nothing else |
| `ClusterState.ClusterState.Admit` | main_service/src/main_service/cluster_state.py:278-317 | Admits, replays or refuses as specified, in memory and history alike |
| `ClusterState.ClusterState.UpdateOwnJob` | main_service/src/main_service/cluster_state.py:379-413 | Updates the job and its row and lets its nodes go once it is terminal |
| `ClusterState.ClusterState.ReleaseNodes` | main_service/src/main_service/cluster_state.py:404-409 | The loop releases exactly the nodes reserved for the job |
| `ClusterState.ClusterState.PauseJobAdmissionIfIdle` | main_service/src/main_service/cluster_state.py:257-265 | Pauses exactly when no job is running |
| `ClusterRuns.CrashLosesNothing` | main_service/src/main_service/cluster_state.py:51-65 | After any run, a restart from history has the same running jobs, all fields but progress, and every non-deleted node with its status and assignment; any other node it has was dropped from memory since the last restart |
| `ClusterRuns.RunAgrees` | main_service/src/main_service/history.py:958-984 | Memory and history agree after every run, restarts included, in which no node with an active row is dropped from memory |
| `ClusterRuns.AgreementEndsExactlyWhen` | main_service/src/main_service/cluster_state.py:223-230 | A mutation parts memory from history if and only if it drops a node whose row is active |
| `ClusterRuns.RunAgreesBut` | main_service/src/main_service/history.py:958-984 | After any run at all, memory and history agree on everything but the nodes dropped since the last restart |
| `ClusterRuns.RemovedFailedNodeComesBack` | main_service/src/main_service/endpoints/cluster_lifecycle.py:90-95 | Dropping a FAILED node parts memory from history, and the next restart brings the node back as it was |
| `ClusterRuns.NodeUpdateAgrees` | main_service/src/main_service/history.py:1137-1156 | A node update keeps its row's status and durable fields equal to memory's |
| `ClusterAnswers.NodeUpdateAnswer` | main_service/src/main_service/cluster_state.py:167-213 | An update of a node changes the fields it carries, of that node alone; a dead node does not come back and a failed one is not marked deleted; the row is written exactly when the status changes or a durable field is carried |
| `ClusterAnswers.RestartAnswer` | main_service/src/main_service/cluster_state.py:51-65 | A restart keeps the rows and has their running jobs and nodes not DELETED, and nothing of what was only in memory: no pushes, no progress, no pause |
| `ClusterAnswers.ProgressAnswer` | main_service/src/main_service/cluster_state.py:474-501 | A push changes its own node's count, to what it reports, or to 0 for a first push without one, and the row only as the job is |
| `ClusterAnswers.ReplacementAnswer` | main_service/src/main_service/cluster_state.py:587-607 | A replacement request is remembered for its node and comes off the budgets, which stay unlimited if they were and never fall below zero |
| `ClusterAnswers.PauseAnswer` | main_service/src/main_service/cluster_state.py:257-271 | Pausing takes effect exactly when no job runs, and resuming always |
| `ClusterPromises.NodeStatusOnlyClimbs` | main_service/src/main_service/cluster_state.py:178-188 | Until the head restarts or drops the node, its status only climbs from live to DELETED to FAILED |
| `ClusterPromises.LatePushRevivesExactlyWhen` | main_service/src/main_service/cluster_state.py:170-175 | A late push with a live status takes effect exactly when this head does not remember the node as terminal |
| `ClusterPromises.RestartForgetsDeleted` | main_service/src/main_service/cluster_state.py:26-29 | After a restart a late push does bring a DELETED node back, though before it did not |
| `ClusterPromises.ReloadedNodesWait` | main_service/src/main_service/cluster_state.py:162-164 | A node read back from history is not free for any admission until it has pushed |
| `ClusterPromises.AdmissionIsAllOrNothing` | main_service/src/main_service/cluster_state.py:289-311 | Either all selected nodes were free and are now reserved and stored with a running job, or nothing is reserved or written |
| `ClusterAnswers.AdmittedExactlyWhen` | main_service/src/main_service/cluster_state.py:278-300 | A job is admitted exactly when it is new, admission is not paused and each selected node is READY, unassigned, unreserved, unscoped and heard from within 15 s; a known job gets the response it was first given |
| `ClusterPromises.ReplayGivesFirstResponse` | main_service/src/main_service/cluster_state.py:284-287 | After any run, asking again with an admitted id gives the first response and reserves nothing |
| `ClusterPromises.HeldNodeStays` | main_service/src/main_service/cluster_state.py:289-300 | While its job keeps running, a node reserved for the job or running it stays so through any mutations and restarts, and no admission can take it, unless the node lets go |
| `ClusterPromises.HoldEndsExactlyWhen` | main_service/src/main_service/cluster_state.py:167-213 | While the job runs, a held node lets go if and only if an update leaves it neither reserved for the job nor running it, deletes it, or it is dropped from memory |
| `ClusterPromises.AdmittedNodesAreExclusive` | main_service/src/main_service/cluster_state.py:278-317 | From its admission to its end a job shares none of its nodes with another admission, until the node itself lets go |
| `ClusterPromises.JobStartKeepsHold` | node_service/src/node_service/__init__.py:653-667 | The push at job start, which clears the reservation and names the job as current, keeps the hold |
| `ClusterPromises.EndingReleasesNodes` | main_service/src/main_service/cluster_state.py:403-409 | An update after which the job has ended leaves no node reserved for it; ending it badly leaves none for any job canceled with it |
| `ClusterPromises.BadEndIsUndoneExactlyWhen` | main_service/src/main_service/cluster_state.py:384-398 | A FAILED or CANCELED job stops being one if and only if an update carries a status that is none of FAILED, CANCELED and COMPLETED: RUNNING, null or any other text |
| `ClusterPromises.OnlyRunningReopens` | main_service/src/main_service/endpoints/client.py:78-97 | A job that is neither RUNNING nor COMPLETED becomes one of these if and only if an update writes RUNNING to it |
| `ClusterPromises.BadEndLasts` | main_service/src/main_service/cluster_state.py:374-377 | Over runs in which no update writes RUNNING to it, restarts included, a FAILED or CANCELED job is never RUNNING or COMPLETED again, whatever else is written |
| `ClusterPromises.PauseFailsExactlyWhen` | main_service/src/main_service/cluster_state.py:257-288 | While admission is paused a step leaves a job running exactly when it is an update writing RUNNING to a stored job |
| `ClusterPromises.PauseMeansIdle` | main_service/src/main_service/cluster_state.py:252-276 | Over runs without such updates no job is RUNNING while admission is paused |
| `InputSplit.ShareIsProportional` | client/src/burla/_remote_parallel_map.py:431-440 | A node with t of all P slots gets between t * floor(N/P) and t * ceil(N/P) of N inputs |
| `InputSplit.DealtToOneList` | client/src/burla/_remote_parallel_map.py:440-442 | Input k is in the list of the node at place k modulo the number of slots of the destinations, and in no other |
| `InputSplit.DealtInOrder` | client/src/burla/_remote_parallel_map.py:438-442 | Every list is in increasing order of position, each input the caller's own |
| `InputSplit.DestinationsPerNode` | client/src/burla/_remote_parallel_map.py:432-437 | A node is among the destinations once for each of its slots |
| `InputSplit.NodesTakeTurns` | client/src/burla/_remote_parallel_map.py:435-439 | Along the destinations nodes take turns: while a node has a slot left, no other is more than one ahead of it and no later one is ahead |
| `InputSplit.LeftoversAreSpread` | client/src/burla/_remote_parallel_map.py:435-442 | Of the inputs beyond the full turns, the nodes with a slot left each have one before any has a second, earlier nodes first |
| `InputSplit.BuildDestinations` | client/src/burla/_remote_parallel_map.py:432-437 | The nested loops build the destinations round by round |
| `InputSplit.Deal` | client/src/burla/_remote_parallel_map.py:438-440 | The dealing loop gives every node its list |
| `InputChunks.ChunkIsLargest` | client/src/burla/_node.py:790-806 | A chunk is as long as its size and byte limits allow and never empty while inputs are left; the loop fails only at an input over the input limit |
| `InputChunks.StopIsNextChunk` | client/src/burla/_node.py:790-806 | The next chunk fits, within its size and 2 MB unless a single input, none over 200 MB, and the input after it would not go beside it |
| `InputChunks.NextChunk` | client/src/burla/_node.py:790-806 | The popping loop with its push-back takes exactly that chunk off the list, in order, or fails at an input over 200 MB met while the chunk was short |
| `ClientInputs.ClientUpload.constructor` | client/src/burla/_remote_parallel_map.py:428-448 | Both layouts, dealt and shared, start with every input in exactly one list, and every node with its own list or the shared one |
| `ClientInputs.FirstListsAreTurns` | client/src/burla/_remote_parallel_map.py:432-448 | The first lists are popped in the caller's order; a ready node gets the inputs at whose turn its destination comes, a booting one none, and with no node ready one list has them all |
| `ClientInputs.ClientUpload.PopChunk` | client/src/burla/_node.py:790-806 | Pops the next chunk of the node's list, keeps every input in exactly one place, and changes no other list or chunk |
| `ClientInputs.ClientUpload.FinishChunk` | client/src/burla/_node.py:808-809 | An uploaded chunk moves from its node to the uploaded inputs |
| `ClientInputs.ClientUpload.HandOver` | client/src/burla/_remote_parallel_map.py:571-586 | A removed node's inputs go to the end of the first running node's list that is another one, exactly when there is such a list; nothing lost or doubled, aliasing included, and no third list changed |
| `ClientInputs.ClientUpload.JoinLate` | client/src/burla/_remote_parallel_map.py:498-507 | A late node gets an empty list of its own |
| `ClientInputs.ClientUpload.AllListsEmpty` | client/src/burla/_remote_parallel_map.py:648-652 | The test succeeds exactly when every list is empty, and then every input is uploaded or in a chunk still on its way |
| `NestedCalls.DepthIsLongestChain` | client/src/burla/_remote_parallel_map.py:91-115 | A call's depth is d exactly when the longest chain of calls, each returned before the next started, that ends at it has d calls before it |
| `NestedCalls.LaterIsDeeper` | client/src/burla/_remote_parallel_map.py:95-99 | A call at the end of a chain is deeper than its first call by at least the links between them |
| `NestedCalls.SameDepthOverlaps` | client/src/burla/_remote_parallel_map.py:95-99 | Two calls at one depth overlap: neither had returned when the other started, directly or through others |
| `NestedCalls.NestedRun.StartCall` | client/src/burla/_remote_parallel_map.py:103-110 | Records the next index at one past the deepest returned call |
| `NestedCalls.NestedRun.MaxDepthOfReturned` | client/src/burla/_remote_parallel_map.py:108-109 | The maximum over the returned calls, 0 for none |
| `Paging.PagesAreTheSortedList` | main_service/src/main_service/history.py:1444-1489 | Following cursors with any page size, in either direction, gives the one sorted list: nothing repeated, skipped or out of order |
| `Paging.WhereIsStrictlyAfter` | main_service/src/main_service/history.py:1444-1468 | The page condition in three-valued logic is true exactly of the rows strictly after the cursor, NULLs last |
| `Paging.AfterCursorIsTheRest` | main_service/src/main_service/history.py:1611-1650 | What is kept after the k-th row is the sorted list from there on |
| `Paging.PageAt` | main_service/src/main_service/history.py:1444-1489 | A page is the next stretch of the sorted list, as long as asked for or all that is left |
| `Paging.SortedIsUnique` | main_service/src/main_service/history.py:701-722 | There is one strictly sorted list of a given set of rows |
| `Paging.DurationRepeatsExactlyWhen` | main_service/src/main_service/history.py:1407-1446 | Sorted by duration ascending, a page's last job comes again exactly when it is running and time has passed |
| `Paging.DurationSkipsExactlyWhen` | main_service/src/main_service/history.py:1407-1446 | Sorted by duration descending, a job still to come is skipped exactly when it is running and has grown to the cursor's place |
| `MachinePlanning.RequiredCpusAreLeast` | main_service/src/main_service/scaling.py:25-29 | The fewest CPUs that give a call its CPUs and, at 4 GB each, its memory |
| `MachinePlanning.MeasuredPlanCovers` | main_service/src/main_service/scaling.py:55-75 | A measured plan covers the missing slots exactly as soon as it has a machine, no two targets differ by more than one, and earlier machines get no fewer |
| `MachinePlanning.MeasuredMachinesAreNeeded` | main_service/src/main_service/scaling.py:55-60 | As many machines as are needed, one less being too few, and no more than the budget pays for |
| `MachinePlanning.MeasuredPlanWithinBudget` | main_service/src/main_service/scaling.py:57-60 | A measured plan keeps to the CPU budget |
| `MachinePlanning.MeasuredPlanFitsExactlyWhen` | main_service/src/main_service/scaling.py:55-75 | It keeps to the measured capacity exactly when the CPU budget does not cut it short |
| `MachinePlanning.PlanMeasured` | main_service/src/main_service/scaling.py:55-75 | The measured branch plans the even split |
| `MachinePlanning.Split` | main_service/src/main_service/scaling.py:63-74 | The loop that shares out what remains gives that split |
| `MachinePlanning.FillMachines` | main_service/src/main_service/scaling.py:131-144 | The filling loop gives every machine its capacity or what is left |
| `MachinePlanning.FillCovers` | main_service/src/main_service/scaling.py:131-144 | The filled plan holds exactly the smaller of what is asked and what fits, no machine beyond its capacity |
| `MachinePlanning.FillsInOrder` | main_service/src/main_service/scaling.py:131-144 | A machine gets a slot only once those before it are full |
| `MachinePlanning.EqualMachinesAreNeeded` | main_service/src/main_service/scaling.py:89-119 | Equal machines are as many as hold the CPUs that the missing slots need or the budget allows, one less being too few, and none when those are not enough for a call |
| `MachinePlanning.EqualMachinesHold` | main_service/src/main_service/scaling.py:113-144 | Each takes no more calls than its CPUs are enough for, and together they take what the CPUs are enough for or all they hold |
| `MachinePlanning.PlansNoMoreThanMissing` | main_service/src/main_service/scaling.py:89-93 | No CPU plan holds more slots than are missing |
| `MachinePlanning.EveryMachineWorksExactlyWhen` | main_service/src/main_service/scaling.py:113-144 | With equal machines some machine is planned without a slot exactly when the slots fill whole machines and the budget has CPUs over |
| `MachinePlanning.UncappedPlanHasNoIdleMachine` | main_service/src/main_service/scaling.py:89-93 | Without a budget that never happens |
| `MachinePlanning.IdleMachineExample` | main_service/src/main_service/scaling.py:113-144 | Three missing slots of 2 CPUs under a budget of 5 on 4-CPU machines: targets 2 and 0 |
| `MachinePlanning.GpuPlanCovers` | main_service/src/main_service/scaling.py:77-87 | Every GPU machine of the plan works, and together they take what is missing or all they hold |
| `MachinePlanning.GpuPlanWithinBudget` | main_service/src/main_service/scaling.py:81-83 | A GPU plan keeps to the GPU budget |
| `MachinePlanning.GpuMachinesAreNeeded` | main_service/src/main_service/scaling.py:77-85 | As many GPU machines as are needed, one less being too few, and no more than the budget pays for |

## Left out

- InputTransfer: a GET handled after the ACK of its taken batch, an upload handled twice and an upload
  handled after the claim or the reset, and the reset of a node that owns inputs, are steps of the model
  but not of the runs `RunConserves` and `EndToEnd` speak of, because each of them breaks ownership;
  their effect is stated exactly in `InputOwnership`. How long the backpressure wait of an upload lasts is free.
- EndToEnd.DoneClientMissesNothing: is about jobs that run or complete. The nodes of a job that fails or is
  canceled are reset with results pending; `ResultDelivery` states what the client then lacks.
- JobNode.JobNode.GetInputs: the handler is one step, although the code awaits the end of the workers it
  revokes before it parks their inputs. It holds the transfer lock, so no other transfer and no claim
  comes in between, and the inputs have left their workers before the first await.
- JobNode.JobNode.TradeSlots: the handler is one step, although the code awaits the end of the workers it
  retires and the target may move meanwhile; `SlotLedger` covers that, with the target the handler saw.
- InputTransfer: what makes a job fail or be canceled: an ACK that times out, a lost machine, a
  cancellation, or a client out of contact while it is needed. The reset that follows is a step of
  `InputTransfer` and `ResultDelivery`; the runs of `JobRun` are of jobs that run or complete.
- JobRun: what makes a node take its client for out of contact; a node of a detached job may at any time.
- JobRun: the worker process itself (`worker_client.py` is not part of this model). A worker takes an
  input and then produces one result, gives the input back, or has it revoked. A path there that
  retires a running worker and drops its input is therefore not covered.
- NodeInputs: which running inputs may be revoked for an idle peer depends on CPU readings and is a
  free choice of distinct running workers; the pauses and timeouts of the steal loop are free too.
- SlotLedger: the pressure, utilization and memory gates of the trade loop; trading, minting,
  replacing and shedding may happen whenever the ledger allows them.
- ResultDelivery: results after a fatal error, log documents and status fields in a reply, unpickling
  errors and the client's silence timeouts.
- MintRules: floating point; time, goodput and fractions are real numbers, the EWMA weight is any
  number in (0, 1] and the square root in the noise estimate is a parameter whose square is given.
- MintTiming: nothing is said about how often the head ticks; all bounds are relative to the gap.
- MintController: the table of controllers per job and its clean-up, and the debug events themselves.
- ClusterRules: an explicit null status in a node update, fields of jobs and nodes that no rule reads,
  and result counts in job rows. JSON is taken to return what was stored.
- ClusterRules: updates of a job's parent, background flag, start response and budgets by `PATCH`, which
  would merge them like any key; no client or node sends them.
- ClusterRuns.CancelsExactlyTheTree: is about a cascade that takes one clock reading and is atomic;
  between the code's recursive calls other updates may run.
- ClusterState.ClusterState.UpdateJobAndChildren: runs without other updates between its recursive calls.
- Paging: the filters, which are the same for every page, rows that change between pages, and the
  text and number types of SQLite; sort values are integers.
- InputSplit: nodes whose slots are all zero, on which the client would divide by zero; the head
  never assigns such a set.
- ClientInputs: the chunk size is any number; the client computes it from the nodes' parallelism.
- MachinePlanning: the machine catalog. Capacities and CPU counts of machine types are parameters,
  and packing by size is any list of machines.
- NestedCalls: concurrent use of the record, which the code guards by a lock.
- HTTP, TLS, pickling, authentication, logging, the dashboard, cloud providers and machine boot.
