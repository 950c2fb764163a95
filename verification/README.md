# Computer Store agent: a verified model

The store's support agent turns a model's decision into durable changes: it cancels orders and pays refunds through
workflows that survive crashes, retries and late acknowledgements, and it streams its answers to a browser. This
project models that machinery in Dafny and proves what it is for.

| files | what they model |
|---|---|
| `orders.dfy`, `ledger.dfy`, `interleaving.dfy` | the tables and their three transactions: as methods on a database, as atomic steps, and as concurrent statements under row locks |
| `workflows.dfy` | the refund and the cancellation workflow as objects that run in activations, and crash and replay of a worker |
| `activities.dfy`, `protocol.dfy`, `protocol_invariant.dfy`, `protocol_safety.dfy`, `protocol_retries.dfy`, `protocol_reruns.dfy`, `protocol_steps.dfy`, `protocol_results.dfy`, `protocol_denials.dfy`, `protocol_replay.dfy` | the whole order-action protocol as a transition system: starts, signals, retried, lost and late attempts, expiry, re-runs, fulfilment |
| `refinement.dfy`, `realization.dfy` | the same protocol with transactions that run statement by statement, and that both reach the same states |
| `agent_graph.dfy`, `agent_history.dfy`, `agent_tools.dfy` | the supervisor graph with an adversary in place of every model, what its history shows, and what the order tools check |
| `reasoning.dfy`, `stream.dfy`, `json.dfy`, `sse.dfy`, `sse_frames.dfy` | the answer's way to the browser: reasoning removal, guards, event-stream frames, and the incremental client |
| `luhn.dfy`, `card_scan.dfy`, `base64url.dfy`, `identifiers.dfy` | card detection, unpadded base64url, order ids and keys |
| `base.dfy` | shared datatypes and Python's `str.strip` |

Money is counted in cents. `Tables` holds the committed rows of `products`, `orders` and `refunds`; an initial state
is any set of orders in any status with an empty refund table, which covers the seeded orders that are `refunded` without
a refund row. The protocol's environment is unrestricted: any step may happen at any time. `Possible(t, g)` says that some
run from the tables `t` reaches the state `g`, and `LeadsTo(g, h)` that `h` can come later. A transaction is one step of
the protocol; `Refinement.RunRefines` and `Realization.SameStatesArePossible` justify that by relating it to the protocol
whose transactions run statement by statement.

Where the code and what is written about it differ, the model follows the code:

- The repository's README says that the UNIQUE idempotency key is what prevents a second refund. In the code the row lock
  and the check for an existing row come first, and `Ledger.RefundSucceedsExactlyWhen` shows that neither UNIQUE constraint
  ever fires; only an amount beyond NUMERIC(10, 2) makes the INSERT fail.
- A COMPLETED cancellation need not have cancelled anything: `ProtocolResults.CompletesWithoutCancelling` leads to
  one. The workflow also completes when the order is missing or past cancelling; `ProtocolResults.CompletedCancellation`
  says exactly when it has cancelled, and `ProtocolSafety.CancellationReportsTheTruth` what its report is worth later.
- A denial ends the run that it is sent to and no attempt of an earlier run: `ProtocolDenials.PaidAfterDenial` leads to a
  refund that is paid although the latest request for it was denied, and `ProtocolDenials.DenialIsFinalExactlyWhen` says
  exactly when that cannot happen.
- The policy makes damaged goods eligible. No code looks at the condition of the goods, and nothing is claimed about it.
- That each assistant message with tool calls is followed by its results or by a closing message holds after every turn
  that ends or whose model fails. It is false of a turn that is cut off at another point: `AgentGraph.CutOffTurn` says
  exactly when, and `AgentGraph.CutOffExample` shows one.

## Model

| member | source | states |
|---|---|---|
| `Database.Database.GetRefundOrderRow` | app/database.py:288-298 | the query changes nothing and returns what the atomic load returns; another customer's order is not found |
| `Database.Database.CancelOrderRow` | app/database.py:243-285 | statement by statement it has the effect and the result of the atomic cancellation, rejections included |
| `Database.Database.InsertRefund` | app/database.py:115-122 | the INSERT adds exactly its row, or adds none exactly if a constraint rejects it |
| `Database.Database.RefundOrderRow` | app/database.py:301-359 | statement by statement it has the effect and the reply of the atomic refund; after a rejected INSERT nothing has changed |
| `Ledger.InitialIsConsistent` | app/database.py:144-168 | seeded orders in any status, with no refund rows, form a consistent ledger |
| `Ledger.RefundKeepsConsistent` | app/database.py:343-353 | the row and the status that one refund writes keep the ledger consistent |
| `Ledger.ApplyKeepsConsistent` | app/database.py:113-124 | every transaction and every shop step keeps: status refunded exactly for seeded orders and those with a row, one row an order, amount price times quantity |
| `Ledger.ApplyEvolves` | app/database.py:243-359 | no step loses a row or changes an owner, a sku, a quantity or a price; statuses only move forward |
| `Ledger.EvolvesTransitive` | app/database.py:14-19 | that forward movement composes over any number of steps; cancelled and refunded are never left |
| `Ledger.OnlyTheOwnerChangesAnOrder` | app/database.py:233-247 | a transaction changes only the named order, only for its owner, from an allowed status to the requested one |
| `Ledger.PlacedExactlyWhen` | app/database.py:362-380 | an order is placed, pending and the customer's, if and only if its id is new, its product is known and its quantity is from 1 to 10 |
| `Ledger.FulfilmentDelivers` | app/database.py:67-72 | a pending order that the shop fulfils step by step goes through all statuses up to delivered and stays there |
| `Ledger.ReplyDescribesTheTables` | app/database.py:243-359 | what an owner is told is what was found and left: status before and after, the reason, the amount as price times quantity, and whether anything changed |
| `Ledger.RefundAddsItsRow` | app/database.py:343-359 | a refund that changes anything adds one row with price times quantity, the given reason and key, and changes one status, from delivered to refunded, of the caller's order |
| `Ledger.RefundSucceedsExactlyWhen` | app/database.py:308-353 | with the workflows' keys, a refund is paid if and only if the caller owns the order, it is delivered, and price times quantity is below 100 million |
| `Ledger.CancelSucceedsExactlyWhen` | app/database.py:243-285 | a cancellation finds exactly the caller's order, and cancels it, and nothing else, if and only if it is not delivered, cancelled or refunded |
| `Ledger.ApplyKeepsKeys` | app/temporal_workflows/activities.py:31-36 | every row carries the key of its own order |
| `Ledger.AmountsAreRowTotals` | app/database.py:343-349 | rows of distinct orders with full prices add up to the totals of those orders |
| `Ledger.Conservation` | app/database.py:113-124 | the sum of all refund amounts equals the sum of the totals of the orders refunded by the application |
| `Interleaving.CommitIsAtomic` | app/database.py:243-285 | what a session that holds its lock publishes at COMMIT is the atomic transaction on the tables as they are then |
| `Interleaving.OpenReplyIsAtomic` | app/database.py:246-258 | a session that locks nothing replies as the atomic transaction does at its one SELECT |
| `Interleaving.CommitLeavesOthers` | app/database.py:307-353 | a commit leaves true everything that other lock holders have read |
| `Interleaving.RunKeepsInv` | app/database.py:243-359 | after every interleaving the log is a serial execution with the same tables and replies |
| `Interleaving.LogKeepsShopSteps` | app/database.py:243-359 | the serial execution invents no step of the shop and omits none |
| `Interleaving.Serializable` | app/database.py:243-359 | strict serializability: every statement-level interleaving, with rollbacks anywhere, ends in the tables and gives every committed session the reply of whole transactions in some order, each exactly once; the shop's steps in that order are exactly those taken, in sequence; at every point of the interleaving the order can be cut into what had happened by then and what had not |
| `Interleaving.RealTimeOrder` | app/database.py:243-359 | in every such order a session that committed before another one began comes first |
| `Interleaving.LedgerUnderInterleaving` | app/database.py:301-359 | the ledger is consistent wherever an interleaving is cut off |
| `Interleaving.NoDeadlock` | app/database.py:247-314 | while a session is unfinished, some session can go on |
| `Interleaving.WaitsExactlyWhen` | app/database.py:247-353 | a session waits if and only if another one has locked the row that it is about to lock, or has inserted, uncommitted, a refund with the same order or key |
| `Interleaving.OtherSteps` | app/database.py:43-46 | a COMMIT is possible exactly when the body has returned, a rollback at any point before, leaving nothing behind; the shop changes an order exactly while nobody has locked it |
| `Workflows.RefundWorkflow.Activate` | app/temporal_workflows/workflows.py:56-98 | running from one wait to the next reaches the state and issues the commands of `RefundStep` |
| `Workflows.CancelOrderWorkflow.Activate` | app/temporal_workflows/workflows.py:29-43 | the same for the cancellation, which fails only when its activity fails |
| `Workflows.StepMovesForward` | app/temporal_workflows/workflows.py:50-106 | status only moves forward, and a closed run neither changes nor commands |
| `Workflows.CommandsFollowState` | app/temporal_workflows/workflows.py:60-95 | on every run a load is commanded at most once and an execution at most once, and never by a run that is rejected or found the order refunded |
| `Workflows.ApprovalIsLastSignal` | app/temporal_workflows/workflows.py:100-102 | while a run is open its approval is the last element of all the signals so far, or none if there was none |
| `Workflows.AnswersDecide` | app/temporal_workflows/workflows.py:56-95 | the load and the execution decide: failed exactly when the activity failed, found refunded or not delivered exactly by the loaded status, completed with the execution's own result |
| `Workflows.GoesAheadWhateverIsSignalled` | app/temporal_workflows/workflows.py:74-93 | a refund of a delivered order goes ahead whatever is signalled if and only if it is at most 200 |
| `Workflows.DecidingApproval` | app/temporal_workflows/workflows.py:74-85 | above 200 the run goes ahead or is rejected as the last signal before the wait says, or else the last of the first delivery after it, whatever came before that one; until then it waits |
| `Replay.ReplayEqualsLive` | app/temporal_workflows/workflows.py:50-106 | the generic step, true of any machine that is a function of its activations: wherever a worker crashed, replay rebuilds the lost object, meets no mismatch, and leads to no further command |
| `Replay.ScheduledOnce` | tests/test_temporal_recovery.py:96-168 | with any number of crashes the load is scheduled once and the refund at most once |
| `Replay.AcceptedExactlyIfProducible` | app/temporal_workflows/workflows.py:50-106 | a history replays without mismatch if and only if some run of the workflow, with crashes wherever they fall, has recorded it |
| `Replay.Recover` | app/temporal_workflows/workflows.py:50-106 | on an object, replay accepts exactly the histories that the workflow can have produced, and leaves the object with the state, the last signal and the command history of the run that produced them |
| `Replay.Serve` | tests/test_temporal_recovery.py:96-168 | a worker that loses its object in any number of crashes and recovers it each time ends with the object and the recorded commands of a run that never crashed, its approval the last signal |
| `Activities.CancelOrderActivity` | app/temporal_workflows/activities.py:8-10 | has the cancellation's effect and never fails by itself |
| `Activities.LoadRefundOrderActivity` | app/temporal_workflows/activities.py:13-26 | a missing order is an error that is not retried |
| `Activities.ExecuteRefundActivity` | app/temporal_workflows/activities.py:29-49 | has the refund's effect; missing and undelivered orders are errors that are not retried, an existing refund is a success |
| `Activities.WorkflowService.Lookup` | app/temporal_service.py:55-63 | finds the open run with an id |
| `Activities.WorkflowService.StartWorkflow` | app/temporal_service.py:32-71 | an open run is reused and nothing changes; otherwise a new run is added, also after a closed one |
| `Activities.WorkflowService.ApproveRefund` | app/temporal_service.py:79-88 | the signal is appended to the open run, or refused if there is none |
| `ProtocolInvariant.TaskKeepsRunOk` | app/temporal_workflows/workflows.py:56-98 | one workflow task keeps what is known of its run |
| `ProtocolInvariant.AtomicRepliesTruth` | app/temporal_workflows/activities.py:8-49 | what a transaction replies to an attempt is true of the tables it leaves |
| `ProtocolInvariant.TransactKeepsInv` | app/database.py:301-359 | a transaction at any time, also of an attempt given up long ago, keeps the invariant |
| `ProtocolInvariant.StartKeepsInv` | app/temporal_service.py:52-63 | a start keeps one open run an id |
| `ProtocolInvariant.NextKeepsInv` | app/temporal_workflows/workflows.py:50-106 | every step of the protocol keeps the invariant |
| `ProtocolInvariant.PossibleIsOk` | app/temporal_service.py:52-63 | every state that any run of the protocol can reach satisfies it |
| `ProtocolSafety.AfterEvolves` | app/database.py:14-19 | over every run the tables only move forward |
| `ProtocolSafety.EndedIsFinal` | app/temporal_workflows/workflows.py:50-106 | a run that has ended, by itself or at its execution timeout, never changes again, whatever arrives late |
| `ProtocolSafety.ExpiryEndsTheRun` | app/temporal_service.py:60 | the execution timeout ends an open run and nothing else: its attempts go on |
| `ProtocolSafety.ExactlyOnce` | app/database.py:301-359 | over every run an order has at most one refund row, of price times quantity and with status refunded; at most one attempt ever refunded it, and one did exactly if there is a row |
| `ProtocolSafety.LedgerConservation` | app/database.py:144-168 | over every run, refunded orders are exactly the seeded ones and those with a row, and the amounts paid are the totals of the latter |
| `ProtocolSafety.CompletedMeansRefunded` | app/temporal_workflows/workflows.py:67-95 | a refund run that is COMPLETED in whichever way names a refunded order of its requester, then and for ever |
| `ProtocolSafety.CancellationReportsTheTruth` | app/temporal_workflows/workflows.py:33-40 | if a completed cancellation reports that it found its order, the order is cancelled for ever exactly if that is the reported status |
| `ProtocolSafety.ExecutionIsNeverRefused` | app/temporal_workflows/activities.py:37-48 | no execution attempt is ever told that the order is missing or not delivered |
| `ProtocolSafety.ApprovalSafety` | app/temporal_workflows/workflows.py:74-93 | every refund above 200 was committed by an attempt of a run that consumed an approval; a run that consumed a denial has no execution attempt |
| `ProtocolSafety.ConsumedApprovalsWereSent` | app/temporal_service.py:79-88 | every approval a run holds or consumed was signalled while this very run was the open one under its id, and not to an earlier run with the same id |
| `ProtocolSafety.CancelledAndRefundedAreFinal` | app/database.py:14-19 | cancelled and refunded are absorbing, and a cancelled order never gets a refund row |
| `ProtocolSafety.StatusChangesAreRequested` | app/database.py:246-277 | every status change is a fulfilment step or was requested by the order's owner, to the status the request asks for |
| `ProtocolSafety.AtMostThreeAttempts` | app/temporal_workflows/workflows.py:18-21 | no activity of a run ever has a fourth attempt |
| `ProtocolSafety.OpenRunsMakeProgress` | app/temporal_workflows/workflows.py:16-21 | an open run that is not waiting for a signal can take a step that uses up its budget of at most 32, and no step of anybody gives it more |
| `ProtocolSafety.EveryRunCanFinish` | app/temporal_workflows/workflows.py:16-21 | from every possible state at most 32 steps of its own bring a run to its end or to where it waits for a signal |
| `ProtocolRetries.ReportKeepsRetries` | app/temporal_workflows/activities.py:37-48 | an activity fails on a report only if the error is not retried or it was the third attempt |
| `ProtocolRetries.ReportDecides` | app/temporal_workflows/activities.py:8-49 | what each reply does to its activity: no retry for a missing or undelivered order, another attempt after a database error unless it was the third, and any other reply is the answer |
| `ProtocolRetries.FailsOnlyWhenExhausted` | app/temporal_workflows/workflows.py:18-21 | over every run, a workflow run is FAILED only if its load found no order of the requester or one of its activities was attempted three times |
| `ProtocolReruns.LateForEver` | app/temporal_service.py:53-63 | once an order is refunded, later refund runs for it can only find that out |
| `ProtocolReruns.RerunFindsTheRefund` | app/temporal_service.py:53-63 | a run started after the refund, even after a run that FAILED although it had committed, never waits, never schedules the refund and never adds a row |
| `ProtocolResults.RepliesAreReal` | app/temporal_workflows/activities.py:8-49 | over every run, each reply but an error is what the attempt's transaction replied in one atomic step of that run |
| `ProtocolResults.CompletedCancellation` | app/temporal_workflows/workflows.py:29-43 | a COMPLETED cancellation, whatever it reports, was decided by one transaction of its own: it found the order if and only if it was the requester's then, and cancelled it if and only if its status was also cancellable |
| `ProtocolResults.CompletedRefund` | app/temporal_workflows/workflows.py:86-95 | the result that a COMPLETED refund reports is true of the tables around one transaction of its own: the requester's order, price times quantity, and paid by this transaction, with its row, or found paid |
| `ProtocolResults.CompletesWithoutCancelling` | app/temporal_workflows/workflows.py:29-43 | for any order that the requester does not have or that is past cancelling, six steps lead to a COMPLETED cancellation with the tables as they were |
| `ProtocolDenials.QuietForEver` | app/temporal_workflows/workflows.py:74-85 | while no refund run for an order above 200 holds an approval, no execution attempt for it is outstanding and nobody approves, it stays so and the order is not refunded |
| `ProtocolDenials.DenialIsFinalExactlyWhen` | app/temporal_workflows/workflows.py:79-93 | when no refund run for an order above 200 is open, the last one denied or ended otherwise, the order can still become refunded without a further approval if and only if an execution attempt for it is outstanding and the total fits its column |
| `ProtocolDenials.PaidAfterDenial` | app/temporal_workflows/workflows.py:16-21 | for any delivered order above 200: a state in which an approved run has FAILED and the next one was denied, and one more step, a late transaction of the first, pays the refund |
| `ProtocolReplay.EveryRunRecovers` | app/temporal_workflows/workflows.py:50-106 | at every point of every run of the protocol, replaying what was recorded of a workflow run rebuilds exactly its object |
| `ProtocolReplay.SignalsArriveInOrder` | app/temporal_workflows/workflows.py:100-102 | every approval signalled to a run is handed to it once and in the order of sending, or still waits |
| `ProtocolReplay.RecoverRun` | tests/test_temporal_recovery.py:96-168 | the same on an object: recovery accepts the history and ends with the run's state and approval |
| `Refinement.StatementRefines` | app/database.py:243-359 | a single statement of a transaction is a step of the atomic protocol, most often one that changes nothing |
| `Refinement.CommitRefines` | app/database.py:43-46 | a COMMIT is the atomic transaction, or nothing for a transaction that merely read |
| `Refinement.RollbackRefines` | app/database.py:43-46 | a rollback at any point is an attempt that had no effect |
| `Refinement.RunRefines` | app/database.py:243-359 | refinement: every run of the protocol with interleaved statements, commits and rollbacks has the tables and the workflow runs of a run of the atomic protocol |
| `Refinement.HasCounterpart` | app/database.py:243-359 | so do any two states, one after the other |
| `Realization.TransactionRunsAlone` | app/database.py:243-359 | a session that nobody interrupts runs its statements to the tables and the reply of the atomic transaction, or is rolled back where that raises |
| `Realization.SameStatesArePossible` | app/database.py:243-359 | equivalence: tables and workflow runs can be reached by the atomic protocol if and only if they can be reached with interleaved statements, commits and rollbacks |
| `Refinement.ExactlyOnceByStatements` | app/database.py:301-359 | exactly-once refunds with every transaction interrupted between any two statements |
| `Refinement.CompletedMeansRefundedByStatements` | app/temporal_workflows/workflows.py:67-95 | truthful completion at that level, then and in every later state |
| `AgentTools.PrecheckAndTransaction` | app/agent_graph.py:179-208 | whatever happens between pre-check and transaction: a refused order is left alone, an accepted one is cancelled exactly if its status still allows it, one delivered meanwhile is rejected unchanged |
| `AgentTools.ToolsSpeakTheTruth` | app/agent_graph.py:115-242 | for every text: which ids are refused, whose status is told, which cancellations are refused and why, and which workflow is started, under which id |
| `AgentTools.ForeignOrdersLookMissing` | app/agent_graph.py:115-242 | to every tool and transaction another customer's order looks exactly like a missing one, and a refund workflow for it finds no order |
| `ConversationKey.KeyIsInjective` | app/routes/agent.py:113 | two conversations never share a checkpoint key |
| `Identifiers.ValueOfDecimal` | app/agent_graph.py:136 | `int` undoes the decimal numeral, for every natural |
| `Identifiers.ParsePrinted` | app/agent_graph.py:123-136 | an order id is read back with blanks around it and in any letter case |
| `Identifiers.ParsesExactly` | app/agent_graph.py:123-136 | a text is read as number n if and only if it is blanks, ORD- in any letter case, digits that spell n, and blanks; everything else is refused |
| `Identifiers.OrderIdIsPadded` | app/agent_graph.py:148 | a printed id has zeros in front of a numeral of fewer than three digits only |
| `Identifiers.OrderIdRoundTrip` | app/agent_graph.py:123-150 | parsing the padded order id returns the number, for every natural |
| `Identifiers.CanonicalIsANormaliser` | app/agent_graph.py:123-150 | parse-then-print is idempotent, and equal for two texts exactly if they name the same order |
| `Identifiers.WorkflowIdInjective` | app/temporal_service.py:32-48 | one workflow id for each kind of action and order number |
| `Identifiers.IdempotencyKeyInjective` | app/temporal_workflows/activities.py:35 | the key names one order and is never a cancellation's id |
| `AgentGraph.SpecialistRuns` | app/agent_graph.py:421-505 | for every adversary, what a specialist's part of a turn adds, executes and costs |
| `AgentGraph.SupervisorRuns` | app/agent_graph.py:393-418 | the same for the whole turn: the specialist that runs is the one that the supervisor's answer selects, and nothing runs when it selects none |
| `AgentGraph.TurnIsBounded` | app/agent_graph.py:497-505 | for every cap a turn runs at most 2 MAX + 1 nodes (MAX at least 1) and MAX - 1 tool nodes, within the recursion limit 2 MAX + 4 |
| `AgentGraph.BoundIsReached` | app/agent_graph.py:82-83 | the bound on nodes is exact |
| `AgentGraph.TurnIsConfined` | app/agent_graph.py:343-347 | the one specialist of a turn is the supervisor's choice in that turn, only its nodes and its tools run, and for that turn's user |
| `AgentHistory.ExecutedCalls` | app/agent_graph.py:532-551 | what a turn executes are exactly the calls in messages of its history that are readable and directly followed by results, of a tool behind the supervisor's handoff: each once, in their order, with the call's own arguments, for the user of the turn |
| `AgentHistory.ExecutedExactlyIf` | app/agent_graph.py:532-551 | an execution takes place if and only if such a call is in the history |
| `AgentHistory.TurnIsDialogue` | app/agent_graph.py:393-551 | a whole turn from its messages: who is asked and with which history, that every message is its model's answer, every result its tool's, and how the turn ends |
| `AgentGraph.NoHandoffNoAction` | app/agent_graph.py:407-418 | a supervisor's answer with no call, several, a malformed one or one of no handoff tool starts no agent and no tool; the turn adds the closing message and nothing else |
| `AgentGraph.WellFormedAppend` | app/agent_graph.py:508-572 | well-formed histories can be put one after the other |
| `AgentGraph.HistoryIsWellFormed` | app/agent_graph.py:470-505 | after every turn of every conversation each tool-call message has a result for every call or is directly followed by the limit or the invalid message |
| `AgentGraph.CutIsOnTheWay` | app/agent_graph.py:508-572 | the node-by-node execution agrees with the whole turn |
| `AgentGraph.CutOffTurn` | app/agent_graph.py:497-505 | a turn cut off after any number of nodes leaves a well-formed history if and only if the next node was not about to close the last message |
| `AgentGraph.CutOffIsForEver` | app/agent_graph.py:508-572 | and then the history never becomes well-formed again, whatever is asked and answered later |
| `AgentGraph.CutOffExample` | app/agent_graph.py:463-467 | for every cap of at least 2, a turn cut off before its tool node leaves an unanswered call |
| `Reasoning.NoTagSurvives` | app/routes/agent.py:50-57 | no opening tag is left, even one that comes together when a block is removed, and no blank at either end |
| `Reasoning.TagFreeIsTrimmed` | app/routes/agent.py:54-57 | on a text without tags the removal is plain trimming |
| `Reasoning.Idempotent` | app/routes/agent.py:54-57 | removing twice is removing once |
| `Reasoning.OnlyDeletes` | app/routes/agent.py:54-57 | the result is a subsequence of the text |
| `Reasoning.ExactlyWhatIsShown` | app/routes/agent.py:50-57 | for every answer, taken apart at its blocks: what is shown are the pieces between them put together, without outer blanks, cut at an opening tag if one is left |
| `Reasoning.OneBlockIsRemoved` | app/routes/agent.py:50-57 | one block in a text without other tags goes, and all the rest is shown |
| `Reasoning.BlockIsRemoved` | app/routes/agent.py:50 | the first substitution: from the first opening tag to the first closing tag behind it everything goes, and nothing before it |
| `Reasoning.TagIsSpelled` | app/routes/agent.py:50-51 | what counts as a tag, character by character, with the letter case that Python ignores |
| `Reasoning.UnclosedIsCut` | app/routes/agent.py:45-51 | an answer cut off in mid-thought is shown up to its first opening tag |
| `AgentStream.CollectParts` | app/routes/agent.py:116-139 | the loop keeps exactly the texts meant for the customer, in order |
| `AgentStream.GuardOutput` | app/routes/agent.py:141-158 | what becomes of an answer under both output guards |
| `AgentStream.StreamLlmResponse` | app/routes/agent.py:93-172 | the generator yields the frames of its outcome, for every run of the graph and every verdict |
| `AgentStream.OnlySafeTextIsShown` | app/routes/agent.py:141-162 | a shown text is a refusal, or has no reasoning tag, is within the length, passed every guard, and consists of the customer's parts |
| `AgentStream.NoSensitiveDataIsShown` | app/guardrails.py:36-46 | no shown answer holds a secret; nothing that the scan finds in it passes the Luhn check; and so no maximal run of 13 to 19 digits, spaced or dashed or not, passes it |
| `AgentStream.InputDecides` | app/routes/agent.py:101-116 | a message with an injection or sensitive data gets the refusal for every run of the graph, with or without a safety model; an enabled one blocks, fails or stops the request |
| `AgentStream.OutputDecides` | app/routes/agent.py:141-166 | what becomes of the answer to a message that passed: failure, silence, refusal, nothing or the text, as the run, the length, the scan and the safety model say |
| `AgentStream.ShownExactlyWhen` | app/routes/agent.py:101-162 | a text that is no refusal is shown if and only if the message passed every check, the graph finished, and the text is its answer without reasoning, not empty, and passed every check |
| `AgentStream.RefusedInputShowsNothing` | app/routes/agent.py:102-116 | a message that any input check objects to shows nothing of what the graph would have said |
| `AgentStream.PartIsShown` | app/routes/agent.py:128-139 | an item adds its text to the answer if and only if it is an assistant's text message from no node or one of the five that answer customers |
| `AgentStream.HiddenEventsChangeNothing` | app/routes/agent.py:128-139 | what internal nodes stream never changes the answer, wherever it arrives |
| `AgentStream.WireFormat` | app/routes/agent.py:42-162 | the bytes of every outcome, down to the escapes inside its text |
| `AgentStream.ContentOfData` | frontend/src/app/core/api.service.ts:208-227 | what text the client takes from a frame's data: a JSON string, the first of four members that is not null, nothing, or the data itself |
| `AgentStream.ContentIsRead` | frontend/src/app/core/api.service.ts:208-227 | the text that the server put into JSON is read back |
| `AgentStream.ClientSeesOutcome` | frontend/src/app/core/api.service.ts:148-179 | on every chunking the client ends with exactly the text, the error or the silence that the server decided on |
| `AgentStream.Converse` | app/routes/agent.py:93-172 | server and client loops together, over any cut of the stream, show what the outcome says |
| `Json.StringRoundTrip` | app/routes/agent.py:106-107 | reading an escaped string gives it back, with surrogate pairs for characters beyond the BMP |
| `Json.PlainIsItself` | app/routes/agent.py:161-162 | printable ASCII other than quotes and backslashes is written as it is |
| `Json.DumpsRoundTrip` | app/routes/agent.py:161-162 | parsing what `json.dumps` wrote gives back key and text, for every text |
| `Json.DumpsFitsOneLine` | app/routes/agent.py:161-162 | what it writes is printable ASCII on one line |
| `Sse.ParseSseFrame` | frontend/src/app/core/api.service.ts:53-73 | the line loop computes the frame's fields, or nothing for a frame without data and event |
| `Sse.SplitResumes` | frontend/src/app/core/api.service.ts:158-161 | splitting can be resumed from the kept tail, also inside a CRLF CRLF separator |
| `Sse.StreamAgent` | frontend/src/app/core/api.service.ts:148-179 | for every way of cutting the stream into chunks the loop emits what a client emits that splits the whole text once, and ends the same way |
| `Sse.DispatchFrames` | frontend/src/app/core/api.service.ts:163-178 | the inner loop handles frames in order up to the one that ends the stream |
| `Sse.EndedEarly` | frontend/src/app/core/api.service.ts:168-173 | text behind a done or an error frame does not matter |
| `Sse.CutShort` | frontend/src/app/core/api.service.ts:153-156 | a stream cut short shows a beginning of what the whole one shows |
| `SseFrames.SplitUndoesJoin` | frontend/src/app/core/api.service.ts:57 | lines joined with either line ending are split apart again |
| `SseFrames.LineSetsField` | frontend/src/app/core/api.service.ts:58-70 | a printed line sets its field to the printed value and nothing else |
| `SseFrames.LineIsRead` | frontend/src/app/core/api.service.ts:58-70 | a line with any blanks behind its colon, or none, or without a colon, sets exactly its field |
| `SseFrames.ReadLinesAppend` | frontend/src/app/core/api.service.ts:54-70 | over the lines of a frame data adds up in order, the last event counts, and without one it is "message" |
| `SseFrames.IgnoredLinesAreIgnored` | frontend/src/app/core/api.service.ts:58-70 | blank lines, comments and other fields make no difference, wherever they stand |
| `SseFrames.ParseUndoesPrint` | frontend/src/app/core/api.service.ts:53-73 | parsing a printed frame gives back its event and all its data lines, for values of one line without a leading blank; only a frame without data and event is dropped |
| `SseFrames.TextSurvives` | frontend/src/app/core/api.service.ts:53-73 | any text of such lines, sent line by line, arrives unchanged |
| `SseFrames.ParseUndoesBody` | app/routes/agent.py:42 | the frames that the server prints are read back as they were meant |
| `SseFrames.PrintedFrameIsCutOff` | frontend/src/app/core/api.service.ts:160-161 | a printed frame is split off whole, whatever follows it |
| `SseFrames.FrameIsCutOff` | frontend/src/app/core/api.service.ts:160-161 | a frame of any lines is split off whole by a blank line in any of its four forms |
| `SseFrames.FrameIsHandled` | frontend/src/app/core/api.service.ts:163-178 | done ends the stream, error ends it with its text or a fixed one, any other event shows its text if it has one |
| `SseFrames.EveryTextIsEmitted` | frontend/src/app/core/api.service.ts:148-179 | of any number of frames the client emits every text in order, is done at a done frame whatever follows, and closed if the stream breaks off, be it inside a frame |
| `Luhn.IsValidCardNumber` | app/guardrails.py:49-62 | the forward parity-indexed loop decides the standard's right-to-left sum, for 13 to 19 digits |
| `Luhn.ForwardIsWeighted` | app/guardrails.py:54-61 | every stage of the forward sum is a right-to-left sum of the prefix |
| `Luhn.LuhnByPairs` | app/guardrails.py:54-62 | two more digits add the last one and twice the one before it, less 9 from 5 on |
| `Luhn.UniqueCheckDigit` | app/guardrails.py:54-62 | every prefix has exactly one accepted check digit |
| `Luhn.SubstitutionIsDetected` | app/guardrails.py:54-62 | every substitution of one digit is noticed |
| `Luhn.SwapIsDetected` | app/guardrails.py:54-62 | a swap of unequal neighbours goes unnoticed exactly for 0 and 9 |
| `CardScan.MatchesIsNth` | app/guardrails.py:20 | the pattern's matches with k groups are the runs of k + 1 digits with digit-free ends |
| `CardScan.FoundMatches` | app/guardrails.py:20 | what the scanner finds at a position is a match of the pattern |
| `CardScan.FoundIsLongest` | app/guardrails.py:20 | and the longest one there |
| `CardScan.ScanIsLeftmostLongest` | app/guardrails.py:46 | in every text, runs of more than 19 digits included, the scan gives matches of the pattern, each the longest at its place, one behind the other, and no match starts at a place that none of them covers |
| `CardScan.RunIsMatchedWhole` | app/guardrails.py:46 | in every text each maximal run of 13 to 19 digits gives exactly one match, the whole run |
| `CardScan.MatchesAreRuns` | app/guardrails.py:46 | if no run is longer than 19 digits, the matches are exactly those runs |
| `CardScan.CardIsDetected` | app/guardrails.py:43-62 | in every text, whatever else it holds, a maximal run of 13 to 19 digits that passes the Luhn check is reported |
| `CardScan.DetectionIsExact` | app/guardrails.py:43-46 | if no run is longer than 19 digits, a card number is reported if and only if some such run passes the Luhn check |
| `CardScan.SpacedCardIsDetected` | app/guardrails.py:20-62 | a number of up to 19 digits with a space, a dash or nothing between any two of them, in a text without other digits, is reported if and only if it has at least 13 and its Luhn sum is a multiple of ten |
| `Base64Url.Base64UrlEncode` | frontend/src/app/core/auth.service.ts:43-47 | the byte loop and the three replacements compute `Encode` |
| `Base64Url.BtoaPads` | frontend/src/app/core/auth.service.ts:46 | what `btoa` adds is padding to a multiple of four |
| `Base64Url.RoundTrip` | frontend/src/app/core/auth.service.ts:60-64 | mapping back and re-padding undo the encoding, for every byte string |
| `Base64Url.EncodeIsInjective` | frontend/src/app/core/auth.service.ts:43-47 | no two byte strings share an encoding |
| `Base64Url.EncodedAt` | frontend/src/app/core/auth.service.ts:43-47 | the encoding character by character: the bytes as one row of bits, six at a time, in the URL-safe alphabet |
| `Base64Url.BlanksAreIgnored` | frontend/src/app/core/auth.service.ts:60-64 | `atob` reads over white space wherever it stands |
| `Base64Url.EncodedShape` | frontend/src/app/core/auth.service.ts:43-47 | the length is four thirds rounded up, never 1 modulo 4, and every character is unreserved |
| `Base64Url.VerifierIsAcceptable` | frontend/src/app/core/auth.service.ts:49-58 | a 64-byte verifier has 86 unreserved characters and a digest's challenge 43, within section 4.1 of RFC 7636 |
| `Base64Url.OddLengthIsRefused` | frontend/src/app/core/auth.service.ts:60-68 | a part whose length is 1 modulo 4 yields no claims |

## Left out

- The internals of Temporal, LangGraph, psycopg and Redis. Assumed of them: one open run an id; at-least-once attempts; all
  signals of an activation applied in order before conditions are checked; recorded results on replay; row locks under
  READ COMMITTED with commit on normal exit; a unique index that waits for uncommitted rows; a tool node that answers every
  call with a result or an error; a new input that starts at the supervisor.
- AgentStream.OnlySafeTextIsShown: does not model the prompt-injection and secret patterns and the safety model; they are
  parameters, and the theorem holds for every choice of them.
- AgentStream.ClientSeesOutcome: does not model `JSON.parse` on text that the server never sends; it is a parameter. Network
  failures, HTTP status errors, cancellation by the user and byte decoding are not part of the stream model (the server's
  output is ASCII).
- AgentStream.CollectParts: the metadata of a chunk is its node name only, and `stream_llm_response` is split into methods for
  its loop, its two guards and its frames.
- Json.DumpsRoundTrip: strings are sequences of Unicode characters, so lone surrogates do not occur.
- Identifiers.OrderIdRoundTrip: digits and letter case are ASCII, and the 4300-digit limit of Python's `int` is not modelled.
  Where Python or ECMAScript strip blanks, their full sets are.
- CardScan.DetectionIsExact: digits are ASCII. When some run has more than 19 digits, `ScanIsLeftmostLongest`,
  `RunIsMatchedWhole` and `CardIsDetected` say what is found.
- Reasoning.NoTagSurvives: letter case is ignored as Python does it, with the variants of i and k outside ASCII.
- AgentTools.PrecheckAndTransaction: tool replies keep their outcome, not the order id as the customer typed it.
- Base64Url.RoundTrip: the JSON inside the claims and the split of a token at its dots are not modelled.
- ProtocolSafety.ApprovalSafety: speaks of the run whose attempt paid, not of later runs for the same order;
  `ProtocolDenials.DenialIsFinalExactlyWhen` does.
- Interleaving.NoDeadlock: the five-second statement timeout is a rollback like any other.
- ProtocolSafety.OpenRunsMakeProgress: progress is stated as a budget, and `EveryRunCanFinish` as a possibility; that steps are
  eventually taken is up to the service.
- `build_agent_graph` fills a builder in a loop; the model has the resulting edges.
- Prices do not change and products are not removed: no code does either.
- The idle sweeper, conversation summaries, user memories, product and order listing, roles and customer scoping, workflow
  queries, model prompts, the user interface, rate limits and the deployment: they would only add short branches or filters.
