# Protocol and transcript models of the SMACX harness

A Dafny model of the parts of the harness that carry its guarantees, with proofs over every input and every run.

| files | what they model |
|---|---|
| `AttentionModel`, `AttentionRuns`, `AttentionTheorems`, `AttentionEffects`, `AttentionExamples`, `AttentionService` | the durable attention queue and the sovereign lease: each transaction is a function on the tables, the class runs the transactions, the theorems are about every interleaving of them, the effects say what each does row by row and when it is refused, and the examples are short runs that show where a guard is missing |
| `Pareto`, `Fenwick`, `Counterfactual`, `SiteTotals`, `SiteOutputs` | joint outputs of a base site: the worker knapsack, its dominance pruning with a prefix-maximum tree, the plain integer sums it stands for, the cap and the even sample |
| `TranscriptModel`, `TranscriptPromises`, `TranscriptStages`, `TranscriptContinuation`, `TranscriptPressure`, `TranscriptCollection`, `TranscriptEvidence`, `TranscriptTerms`, `TranscriptRemainder`, `TranscriptRelief`, `TranscriptExamples`, `TranscriptGc` | the garbage collection of provider transcripts: stage by stage, as a whole, what it keeps and exactly what it loses, and what is sent in terms of the rows handed in |
| `ActivityPages`, `ActivityRuns`, `ActivityExport` | resumable pages over growing activity files, chains of pages, and the export that reads a directory to its end |
| `StreamCapture`, `BoundedCapture`, `ContainerLogs` | line reassembly, writers under a shared byte budget, multiplexed container logs (the Docker Engine API attach stream format) |
| `CheckpointIdentity`, `CheckpointRetention` | the native identity hash, peer comparison, retention and staging slots |
| `PreparationModel`, `ChoicePreparation`, `PreparationEffects`, `PreparationService` | single-use drafts of parametrised choices, and what they offer in terms of the catalog |
| `Wrappers`, `Bytes`, `Listings` | shared option, result, byte and line types, and listings of positions |

Where the source updates state step by step the model is a class or a method with loops, proved against a
specification function; the lemmas are about that function, and say what it means without its own helpers.
`dafny verify dfyconfig.toml` checks everything.

## What the proofs found

- `abandon` has no guard on the lease status (src/smacx_attention.py:524-545): abandoning a dead lease requeues
  items that a newer lease owns. `acknowledge` accepts a receipt again, `responded` rewrites item rows in a second
  transaction without a filter, and `restrict_for_placement` accepts an answered lease. For each of them there is a
  run from the empty store to a state in which it breaks the invariant, and the exact condition under which it does
  not. A transaction that meets its condition is called disciplined; the invariant holds throughout a run if and only
  if every transaction of the run is disciplined.
- The collection of transcripts loses evidence (harness/smacx_strict_prompt.py:784-930): the markers that replace old
  state frames, retired menus and repeated queries say `ok` whatever the result said, and under pressure successful
  queries and durable cognition writes lose their obligations. `EvidenceIsSent`, and `EvidenceSurvives`
  in terms of the rows handed in, say for every result exactly when;
  `RefusalIsForgotten` is a transcript of five rows that loses a failure, `ObligationIsForgotten` one of five durable
  writes that loses an obligation.
- The page cursor keeps the names of vanished streams (src/smacx_activity.py:55). Reading a directory to its end
  leaves a cursor that is accepted again if and only if those names and the ones of the streams with something to
  deliver are at most 256; `FullCursor` is a page that succeeds and hands out a cursor the next
  page refuses, with file names as src/smacx_diagnostics.py:145-146 makes them.
- A draft whose next step would show more than 128 options is spent although the attempt fails
  (src/smacx_choice_preparation.py:136-137, reached from line 172); `ReferenceIsWasted` runs into it with 129 weapons.

## Model

| member | source | states |
|---|---|---|
| AttentionTheorems.RunKeepsInvariant | src/smacx_attention.py:122-236 | In every state a disciplined run reaches, also between the two transactions of `responded`, ownership, sequences, lease uniqueness and the cursor are exact |
| AttentionTheorems.EveryItemAccountedFor | src/smacx_attention.py:122-236 | No item is lost or doubly owned: it is queued or acknowledged and in no live lease, or in flight in exactly one |
| AttentionTheorems.ItemsSurvive | src/smacx_attention.py:85-97 | An enqueued item is never removed, nothing of it but its status ever changes, and acknowledged is terminal |
| AttentionTheorems.CursorIsLongestPrefix | src/smacx_attention.py:473-495 | In every reachable state the acknowledged cursor is exactly the length of the longest prefix of sequences that are done, under partial, by-id and full acknowledgement |
| AttentionTheorems.RestrictExact | src/smacx_attention.py:363-407 | Restriction keeps the invariant if and only if nothing it omits has been answered already |
| AttentionTheorems.RespondRowsExact | src/smacx_attention.py:409-416 | The unfiltered second half of `responded` keeps the invariant if and only if each row of the lease is held by an answered lease |
| AttentionTheorems.AcknowledgeExact | src/smacx_attention.py:429-497 | An accepted acknowledgement keeps the invariant if and only if the lease is still answered or none of its rows is in flight |
| AttentionTheorems.AbandonExact | src/smacx_attention.py:524-545 | Abandoning keeps the invariant if and only if the lease is live or none of its rows is in flight |
| AttentionTheorems.KeptIffDisciplined | src/smacx_attention.py:122-545 | From a state with the invariant a transaction keeps it if and only if it is disciplined |
| AttentionTheorems.InvariantIffDisciplined | src/smacx_attention.py:122-545 | The invariant holds in every state of a run if and only if the run is disciplined |
| AttentionTheorems.PrudentRunIsDisciplined | src/smacx_attention.py:363-545 | A run is disciplined when its callers restrict before they answer, mark rows while the lease is answered, use a receipt once and abandon only live leases |
| AttentionExamples.AbandoningDeadLeaseSteals | src/smacx_attention.py:524-545 | A disciplined run from the empty store reaches a state in which abandoning a dead lease takes an item from its new owner |
| AttentionExamples.SecondReceiptSteals | src/smacx_attention.py:439-475 | A disciplined run from the empty store reaches a state in which a receipt used a second time takes an item from its new owner |
| AttentionExamples.LateRowsSteal | src/smacx_attention.py:409-416 | A disciplined run from the empty store reaches a state in which the delayed second half of `responded` takes an item from its new owner |
| AttentionExamples.LateRestrictionStrands | src/smacx_attention.py:379-400 | A disciplined run from the empty store reaches a state in which restricting after the response leaves an answered item in no lease |
| AttentionTheorems.GrantRows | src/smacx_attention.py:198-216 | A fresh lease takes deliverable queued items, each once, in delivery order, as many as the limit allows, none before a better one |
| AttentionTheorems.LeaseRespectsBarrier | src/smacx_attention.py:130-218 | Whatever `lease` returns, fresh or reused, is published at the cap and sequenced before every unpublished item, held by the one live lease of the episode |
| AttentionTheorems.ExpiryRedelivers | src/smacx_attention.py:142-152 | At least once: when every lease has run out, the next lease takes up what is not acknowledged and below the barrier, the first of it in delivery order up to its limit, and all the rest waits in the queue |
| AttentionTheorems.ReceiptCovers | src/smacx_attention.py:453-462 | The bare receipt covers every row of its lease, explicit ids exactly themselves |
| AttentionTheorems.ReceiptSettlesLease | src/smacx_attention.py:460-482 | An accepted receipt settles its whole lease: eligible rows acknowledged, the rest queued again, none left in flight |
| AttentionTheorems.DeadTokenStaysDead | src/smacx_attention.py:1492-1560 | A token once replaced, expired, released or cancelled never renews again, over any run with fresh tokens and a clock that does not go back |
| AttentionTheorems.EndedTokenStaysDead | src/smacx_attention.py:1492-1627 | A later acquisition, its release, a cancellation or the passing of its time ends a token for the rest of the run |
| AttentionTheorems.OnlyLastRenews | src/smacx_attention.py:1545-1560 | If a token can renew at some point of a run, nothing has ended it since it was acquired, and no other token or episode can renew then |
| AttentionTheorems.AuthorityEndReclaims | src/smacx_attention.py:1511-1627 | When authority ends by release, cancellation or takeover after expiry, every live lease of the old episode is abandoned and its items wait in the queue |
| AttentionEffects.EnqueueEffect | src/smacx_attention.py:98-120 | A new item is queued under the next sequence with the cursor, the criticality and the dependency given and the priority kept within 0 and 100; nothing else changes |
| AttentionEffects.LeaseEffect | src/smacx_attention.py:122-236 | Field by field, the tables and the delivery of a lease: handed out again if and only if it is in time, all it holds is published with nothing unpublished before it, and, if it was answered, nothing waits; otherwise overdue leases and those of the episode are closed and what waits is leased, critical first, then by priority, then by sequence, up to the limit kept within 1 and 64, for a time to live kept within 30 and 3600 seconds |
| AttentionEffects.PlacementEffect | src/smacx_attention.py:360-361 | Only an open lease is placed, and only its status changes |
| AttentionEffects.RespondEffect | src/smacx_attention.py:409-416 | Only a placed lease is answered; then every row it links is responded, whatever its status |
| AttentionEffects.RestrictEffect | src/smacx_attention.py:363-407 | Which restrictions are refused; otherwise the lease holds exactly the visible ids with the last of their sequences as its cursor, and what it had leased besides is queued again |
| AttentionEffects.AcknowledgeAccepts | src/smacx_attention.py:439-459 | A receipt is refused exactly if its lease is not answered or receipted, or it names ids the lease does not hold, or its cursor is negative or passes that of the lease |
| AttentionEffects.AcknowledgeEffect | src/smacx_attention.py:453-497 | An accepted receipt acknowledges exactly the rows up to its cursor or among its ids, queues the others that are in flight and closes the lease; nothing else changes |
| AttentionEffects.CursorSettles | src/smacx_attention.py:453-482 | With an explicit cursor a row of an answered lease ends acknowledged if and only if its sequence is at most the cursor or its id is named, and otherwise queued |
| AttentionEffects.AbandonEffect | src/smacx_attention.py:524-545 | Abandoning queues what the lease links in flight and closes it if it is in use; an unknown lease is refused |
| AttentionEffects.AcquireEffect | src/smacx_attention.py:1492-1529 | An acquisition is refused for another invocation if and only if the row is active, in time, and of another episode or mode; an admitted one is the one active row, for a time to live kept within 30 and 3600 seconds; leases are reclaimed if and only if an active or expired row is overdue |
| AttentionEffects.RenewEffect | src/smacx_attention.py:1545-1560 | Renewal succeeds exactly for the active row with this token and episode that is in time, and moves its end to the time to live from now |
| AttentionEffects.ReadEffect | src/smacx_attention.py:1562-1577 | Reading marks an overdue active row expired and changes nothing else |
| AttentionEffects.EndEffect | src/smacx_attention.py:1579-1630 | Release needs the active row with this token, cancellation any active row; both reclaim the leases of its episode |
| AttentionEffects.RowWasAcquired | src/smacx_attention.py:1492-1529 | In every run whoever stands in the row acquired it before, for this episode and mode |
| AttentionEffects.OneWriter | src/smacx_attention.py:1505-1512 | In every run, while the row of an acquisition is active and in time, acquiring for another episode or in another mode changes nothing at all |
| AttentionRuns.ApplyWellFormed | src/smacx_attention.py:85-97 | Every transaction, disciplined or not, keeps the sequences exactly 1 to next-1, links resolved, and at most one live lease per episode |
| AttentionRuns.ApplyThroughExact | src/smacx_attention.py:202-208 | Every transaction keeps each lease cursor at the last sequence it holds |
| AttentionRuns.ApplyKeeps | src/smacx_attention.py:122-545 | Every disciplined transaction keeps the invariant |
| AttentionRuns.AbandonKeeps | src/smacx_attention.py:535-545 | Abandoning live leases returns exactly what they held to the queue |
| AttentionRuns.AckCursor | src/smacx_attention.py:483-490 | The cursor loop ends exactly at the longest acknowledged prefix |
| AttentionServices.AttentionService.Enqueue | src/smacx_attention.py:55-120 | Inserts one queued item with the next sequence, unless an item with the same dependency exists |
| AttentionServices.AttentionService.Lease | src/smacx_attention.py:122-236 | Commits the lease transaction and returns its delivery, for any expired leases and any in-flight lease |
| AttentionServices.AttentionService.StillUsable | src/smacx_attention.py:156-175 | Decides exactly whether the in-flight lease may be handed out again |
| AttentionServices.AttentionService.TakeRows | src/smacx_attention.py:209-219 | Marks every selected item leased |
| AttentionServices.AttentionService.Placed | src/smacx_attention.py:360-361 | Moves an open lease to placed, and nothing else |
| AttentionServices.AttentionService.RestrictForPlacement | src/smacx_attention.py:363-407 | Commits the restriction, or refuses a lease that is not live or ids it does not hold |
| AttentionServices.AttentionService.Responded | src/smacx_attention.py:409-416 | Commits the lease transition, then the item rows |
| AttentionServices.AttentionService.Acknowledge | src/smacx_attention.py:429-497 | Commits the acknowledgement that `AcknowledgeEffect` describes, or refuses it as `AcknowledgeAccepts` says |
| AttentionServices.AttentionService.FollowAcknowledged | src/smacx_attention.py:485-495 | The loop stops at the first sequence that is not acknowledged |
| AttentionServices.AttentionService.AbandonLocked | src/smacx_attention.py:535-545 | Requeues what the lease holds and closes it if it is live |
| AttentionServices.AttentionService.Abandon | src/smacx_attention.py:524-533 | Abandons a known lease, refuses an unknown one |
| AttentionServices.AttentionService.AcquireSovereign | src/smacx_attention.py:1492-1529 | Commits the acquisition that `AcquireEffect` describes: the single writer lease is refused to another invocation while it is active |
| AttentionServices.AttentionService.RenewSovereign | src/smacx_attention.py:1545-1560 | Extends only the active unexpired row with this token and episode |
| AttentionServices.AttentionService.SovereignState | src/smacx_attention.py:1562-1577 | Marks an overdue lease expired before reading it |
| AttentionServices.AttentionService.ReleaseSovereign | src/smacx_attention.py:1579-1602 | Ends the authority of the active token and abandons its episode's leases |
| AttentionServices.AttentionService.CancelActiveSovereign | src/smacx_attention.py:1604-1630 | Ends any active authority and abandons its episode's leases |
| Pareto.SumsAreSubsetTotals | src/smacx_counterfactual.py:93-98 | The recursive sums are exactly the totals of all w-element choices of squares |
| Pareto.PruneBeforeUnion | src/smacx_counterfactual.py:95-125 | Pruning each layer before the next square is added loses no maximal total |
| Pareto.AntichainCoverIsMaximal | src/smacx_counterfactual.py:106-122 | What covers all candidates without internal dominance is exactly their set of Pareto-maximal members |
| Fenwick.LowBitIsAnd | src/smacx_counterfactual.py:113 | `cursor & -cursor` is the lowest set bit |
| Fenwick.Query | src/smacx_counterfactual.py:108-113 | The downward walk returns the maximum energy of the kept totals ranked at most r, none if there is none, and terminates |
| Fenwick.Insert | src/smacx_counterfactual.py:117-121 | The upward walk gives the tree of the kept totals with one more, and terminates |
| Counterfactual.SkipIffDominated | src/smacx_counterfactual.py:114-115 | A candidate is skipped if and only if a kept total is at least as large in all three components |
| Counterfactual.SortDescending | src/smacx_counterfactual.py:106 | Lists the candidates once each in descending tuple order |
| Counterfactual.RankMinerals | src/smacx_counterfactual.py:103-104 | A rank is at most another exactly for at least as many minerals |
| Counterfactual.Prune | src/smacx_counterfactual.py:99-125 | The scan is stopped if and only if there are 4096 Pareto-maximal candidates or more; otherwise the frontier is exactly the Pareto-maximal candidates, with their allocations |
| Counterfactual.Candidates | src/smacx_counterfactual.py:95-98 | The totals with and without the square; the allocation found first stays |
| Counterfactual.Frontiers | src/smacx_counterfactual.py:91-125 | For any squares, population and integers: every kept total is, output by output, the sum over its recorded squares, and unless some layer has 4096 Pareto-maximal totals or more the kept totals for each w are exactly the Pareto-maximal w-subset sums |
| Counterfactual.CompleteFrontierDominates | src/smacx_counterfactual.py:91-125 | Every full assignment is matched or bettered in all three outputs by a kept one |
| SiteOutputs.ReadSquares | src/smacx_counterfactual.py:79-90 | Accepts exactly distinct, named, non-center references and reads off the usable squares |
| SiteOutputs.SampleSpread | src/smacx_counterfactual.py:129-132 | The sampled positions are in range and strictly increasing, with first 0 and last len-1 from two rows on |
| SiteOutputs.FeasibleOutputs | src/smacx_counterfactual.py:64-144 | Errors in the source's order; each row names as many workable squares as there are citizens, and each of its three outputs is that of the center plus the integer sum of that output over the squares named; the rows are an even sample of the totals kept, all of them if they fit; counts, completeness and truncation are honest; complete if and only if no layer overflows, and then exactly the totals that no assignment betters are kept |
| SiteTotals.AllocationIsAssignment | src/smacx_counterfactual.py:91-98 | The squares recorded with a total are an assignment of the input, and the total is in each output the integer sum over them |
| SiteTotals.AssignmentIsPicked | src/smacx_counterfactual.py:91-98 | Every assignment of distinct workable squares is reached by the search, with its three sums |
| SiteTotals.MaximalIsUnbettered | src/smacx_counterfactual.py:106-122 | A total is Pareto-maximal among the reachable ones if and only if no assignment of the input yields as much of each output and more of one |
| SiteTotals.CappedIffOverflow | src/smacx_counterfactual.py:91-125 | The cap is hit if and only if among the first squares some number of workers has 4096 totals or more that no other betters |
| SiteOutputs.RowsDominateEveryAssignment | src/smacx_counterfactual.py:126-140 | Unless rows were left out, every full assignment is matched or bettered in each output by a row shown |
| TranscriptModel.RewordingKeepsPairing | harness/smacx_strict_prompt.py:784-839 | Rewriting contents leaves call and result pairing as it was |
| TranscriptModel.CuttingKeepsPairing | harness/smacx_continuation.py:105-113 | Removing calls together with exactly their results keeps ids unique, every call answered by exactly one later result, and every result a call |
| TranscriptModel.RewordingKeepsAdjacency | harness/smacx_strict_prompt.py:784-839 | Rewriting contents leaves results in the block right behind their calls |
| TranscriptModel.CuttingKeepsAdjacency | harness/smacx_continuation.py:105-113 | Removing rows never moves a result out of the block right behind its call |
| TranscriptPromises.RecastingKeepsFaith | harness/smacx_strict_prompt.py:784-839 | A stage that rewrites rows in place keeps pairing, order, the newest batch, evidence and prose |
| TranscriptPromises.CuttingKeepsFaith | harness/smacx_continuation.py:105-126 | A stage that drops rows keeps pairing, order, the newest batch, evidence and prose |
| TranscriptStages.NameIsKnown | harness/smacx_strict_prompt.py:757-763 | On a paired transcript a result is reached knowing the name of its call |
| TranscriptStages.RetiredIsRecast | harness/smacx_strict_prompt.py:784-803 | Retiring a consumed decision keeps the error, the obligations, the effect receipt and the recovery provenance of an execution, and the newest batch |
| TranscriptContinuation.ReceiptForgetsHandlesOnly | harness/smacx_continuation.py:63-86 | A current receipt that is not obsolete is untouched; an old one has lost its own handles and both menus; guidance goes if and only if the execution succeeded and completed or the guidance only points on to the next decision; the rest of the receipt stays |
| TranscriptContinuation.RemovableIsSettled | harness/smacx_continuation.py:90-104 | A call is removable exactly when its own result is settled and it was made before the last user row |
| TranscriptContinuation.RemovableIsOld | harness/smacx_continuation.py:91-92 | No call of the newest batch is removable |
| TranscriptContinuation.PruningKeepsFaith | harness/smacx_continuation.py:105-113 | Pruning settled pairs keeps every promise |
| TranscriptContinuation.NewestOccurrenceIsKept | harness/smacx_continuation.py:118-126 | Only standalone prose before the cutoff is dropped, and its newest occurrence is the one kept |
| TranscriptContinuation.DeduplicationKeepsFaith | harness/smacx_continuation.py:114-126 | Dropping repeated prose keeps every promise, so no text disappears |
| TranscriptPressure.RemovedIsDisposable | harness/smacx_strict_prompt.py:540-552 | A disposable pass removes only prose-free rows and successful results without obligations, of disposable tools |
| TranscriptPressure.NewestGroupsStay | harness/smacx_strict_prompt.py:553-554 | No row of the newest `keep` groups is removed |
| TranscriptPressure.RemovalIsClosed | harness/smacx_strict_prompt.py:528-554 | A group is removed together with exactly its results |
| TranscriptPressure.DisposalKeepsFaith | harness/smacx_strict_prompt.py:932-945 | A disposable pass keeps every promise, the newest batch included |
| TranscriptCollection.CollectionIsFaithful | harness/smacx_strict_prompt.py:675-957 | From any paired transcript, for all sizes and limits, what is sent is paired and ordered and keeps the newest batch, all instructions, all prose and all evidence that is not given up |
| TranscriptCollection.PairingSurvives | harness/smacx_strict_prompt.py:784-946 | Tool pairing and order survive the whole chain of stages, and so does the adjacency of calls and results where there was one |
| TranscriptCollection.NewestBatchIsSent | harness/smacx_strict_prompt.py:725-733 | Every result of the newest batch is sent unchanged |
| TranscriptCollection.NewestCallsAreSent | harness/smacx_strict_prompt.py:725-733 | So is the row that made its calls |
| TranscriptCollection.InstructionsAreSent | harness/smacx_strict_prompt.py:778-783 | System and user rows are all sent in order; which of them are notices is said by `InstructionIsSent` |
| TranscriptCollection.ProseIsSent | harness/smacx_continuation.py:105-126 | Every non-empty assistant text of the input is in the output |
| TranscriptEvidence.EvidenceIsSent | harness/smacx_strict_prompt.py:784-930 | A failure, an obligation or an unreadable result is sent with its status, obligations, receipt, recovery provenance and other fields if and only if it is pending, or none of these holds: it is a state frame other than the newest of the episode, the menu of a consumed decision, a query asked again or, over the ceiling, a successful query with a later one or a successful durable write with four later cognition results behind it |
| TranscriptEvidence.KeptResultSays | harness/smacx_strict_prompt.py:784-839 | What is sent of a result that is not given up: of the newest batch the result as it is, of any other tool its whole outcome, of an execution its evidence, with guidance gone if and only if the execution succeeded and is over, the guidance points to the menu of a consumed decision, or it only points on from an old execution; the receipt mark, the handles and the menus exactly as the code ages them |
| TranscriptEvidence.StaleIsNotNewest | harness/smacx_strict_prompt.py:804-806 | The stage's test picks exactly the state frames other than the newest of the current episode |
| TranscriptEvidence.OnlyNewestFrameLives | harness/smacx_strict_prompt.py:804-815 | In what is sent, every state frame outside the newest batch is superseded, but for the newest of the current episode |
| TranscriptEvidence.ConsumedDecisionIsRetired | harness/smacx_strict_prompt.py:784-803 | In what is sent, no result outside the newest batch offers a decision that was executed |
| TranscriptEvidence.ConsumedMenuIsRetired | harness/smacx_strict_prompt.py:791-799 | In what is sent, no execution outside the newest batch carries the menu of a decision that was executed |
| TranscriptTerms.PendingIsAwaited | harness/smacx_strict_prompt.py:721-733 | The newest batch is the calls of the last assistant row that has no user row behind it |
| TranscriptTerms.ConsumedIsExecuted | harness/smacx_strict_prompt.py:764-777 | A decision is consumed if and only if an execution called for it says so |
| TranscriptTerms.ReplacedIs | harness/smacx_strict_prompt.py:784-839 | What the stages replace, in terms of the input: outside the newest batch, state frames with a user row or another frame behind them, menus of executed decisions, and queries asked again with the same arguments |
| TranscriptRemainder.GoneIs | harness/smacx_continuation.py:88-104 | A pair is pruned if and only if its call has a user row behind it, its result is not of an execution, and the result was replaced or came settled |
| TranscriptRemainder.RowRemains | harness/smacx_continuation.py:88-131 | Every row that is to remain does, in the form given for it: an assistant row goes only when all its calls went and it says nothing, or it is standalone prose with two user rows behind it that is said again while the rows are larger than 24,000 |
| TranscriptRemainder.NothingElseRemains | harness/smacx_continuation.py:88-131 | And no other row does |
| TranscriptRemainder.RemainingRowSays | harness/smacx_strict_prompt.py:778-783 | Of an instruction that remains, and of an assistant row: the notice exactly for a user row that begins with the boundary and has another user row behind it, the row without the calls that were pruned, and otherwise the row as it is |
| TranscriptRemainder.ReplacedResultSays | harness/smacx_strict_prompt.py:784-839 | A replaced result that remains is exactly the marker of its kind: superseded and consumed for an executed menu, superseded for an old frame, a superseded query otherwise, always a bare success |
| TranscriptRelief.InstructionIsSent | harness/smacx_strict_prompt.py:778-783 | A user row with no user row behind it is sent as it is; one with a later user row is sent as the notice if and only if it begins with the boundary, and otherwise as it is; system rows are sent as they are |
| TranscriptRelief.NewestIsSent | harness/smacx_strict_prompt.py:725-733 | The results of the newest batch and the row that asked for them are sent as they are |
| TranscriptRelief.NothingOldIsOffered | harness/smacx_strict_prompt.py:784-815 | In what is sent, outside the newest batch every old frame is superseded, and no result and no menu inside an execution offers a decision that was executed |
| TranscriptRelief.EvidenceSurvives | harness/smacx_strict_prompt.py:784-930 | A failure, an obligation or an unreadable result is sent whole if and only if it is not given up, in terms of the input rows |
| TranscriptRelief.KeptResultIs | harness/smacx_strict_prompt.py:784-839 | What is sent of a result that is not given up: the row itself in the newest batch or when it cannot be read, its whole outcome, or for an execution its outcome aged field by field |
| TranscriptRelief.FollowedIs | harness/smacx_strict_prompt.py:873-930 | Relief counts exactly the results of these tools behind a result that are not pruned |
| TranscriptRelief.RelievedRowIs | harness/smacx_strict_prompt.py:873-930 | Over the ceiling exactly the successful queries with a later one become evictions, and the successful plain durable writes with four later cognition results become receipts; everything else stays |
| TranscriptRelief.SentIs | harness/smacx_strict_prompt.py:932-957 | What is sent: the remainder within the ceiling; over it the relieved rows without the disposable groups that have 24 groups or more behind them, above the target also without those that have eight or more, and the budget error if that is still over |
| TranscriptExamples.FailedFrameIsLost | harness/smacx_strict_prompt.py:804-815 | In a turn of any calls a failed state frame with another one behind it is lost, for every budget |
| TranscriptExamples.RefusalIsForgotten | harness/smacx_strict_prompt.py:804-815 | A failed `smac_decision` before a `smac_wait`: the collection succeeds and every result sent says `ok` |
| TranscriptExamples.OldWriteIsForgone | harness/smacx_strict_prompt.py:873-911 | In a turn of durable writes that is over the ceiling every write with four later ones is given up |
| TranscriptExamples.ObligationIsForgotten | harness/smacx_strict_prompt.py:873-911 | Five durable writes, the first with an obligation, over the ceiling before relief and within it after: no result sent has an obligation |
| TranscriptGc.IndexPass | harness/smacx_strict_prompt.py:721-783 | Calls, the newest batch, consumed decisions, state rows, the places that offer a decision, and the boundaries of old episodes rewritten, as `InstructionIsSent` and the lemmas of `TranscriptTerms` say of the input |
| TranscriptGc.OneMoreVisit | harness/smacx_strict_prompt.py:784-803 | Visiting one more place that offers a consumed decision gives the row with that place retired, in whatever order the places are visited |
| TranscriptGc.RetireConsumed | harness/smacx_strict_prompt.py:784-803 | Going through the consumed decisions in any order, and for each through its places, retires exactly their menus outside the newest batch |
| TranscriptGc.SupersedeFrames | harness/smacx_strict_prompt.py:804-815 | Replaces exactly the stale state frames |
| TranscriptGc.CollapseQueries | harness/smacx_strict_prompt.py:822-839 | Replaces exactly the queries that a later identical one overtakes |
| TranscriptGc.PreserveContinuation | harness/smacx_continuation.py:37-131 | Receipts, pruning of settled pairs, then deduplication above the size threshold |
| TranscriptGc.DropRepeatedProse | harness/smacx_continuation.py:118-126 | The backward scan drops exactly the rows whose text stands again further on |
| TranscriptGc.JournalCognition | harness/smacx_strict_prompt.py:873-911 | All but the newest four cognition results become receipts when they are durable successful writes |
| TranscriptGc.EvictQueries | harness/smacx_strict_prompt.py:915-930 | All but the newest query result are evicted when successful and not pending |
| TranscriptGc.CollectOldDisposablePairs | harness/smacx_strict_prompt.py:520-554 | Exactly the rows of all disposable groups but the newest `keep` |
| TranscriptGc.CompactManagedContext | harness/smacx_strict_prompt.py:675-957 | What is sent is the collection that `SentIs` describes, within the ceiling, and keeps every promise if the transcript was paired; otherwise the budget error |
| ActivityPages.ReadStream | src/smacx_activity.py:69-84 | One stream is read along whole lines only, each begun within the limit and the budget; the events are its records of the match; it stops only at the limit, the budget, an unfinished line or one of more than 262,144 bytes, and reports the latter two exactly then, and an invalid record exactly when it read one |
| ActivityPages.ReadPage | src/smacx_activity.py:50-92 | Refuses exactly a missing cursor, one of more than 256 names or one with a negative offset, and fails exactly on a value that is not an object among the lines it comes to; reads every stream from its offset, or from the front if it is shorter; hands out exactly where it stopped; the events are exactly the records of the match among the lines passed, in order; each gap is reported if and only if its cause is met; more if and only if something is left and it moved on |
| ActivityPages.LineEndIs | src/smacx_activity.py:72-79 | A whole line ends with the first newline, which is among the first 262,145 bytes; without one the data is at its end, unfinished or too large |
| ActivityPages.KeptIsPicked | src/smacx_activity.py:81-84 | The events kept of some lines are exactly those that are records of the match, in order |
| ActivityPages.ReadsChain | src/smacx_activity.py:69-79 | Reading on from where a reading stopped reads what one reading would have |
| ActivityPages.ReadsGrow | src/smacx_activity.py:66-79 | What was read stays read while a stream grows |
| ActivityRuns.DeliveredExactlyOnce | src/smacx_activity.py:50-92 | Over any chain of pages on append-only streams every whole line is delivered once and in order, and cursors sit on line boundaries |
| ActivityRuns.MoreMeansNearer | src/smacx_activity.py:85-91 | More to come implies the unread bytes shrank, so draining a fixed directory ends |
| ActivityRuns.NoMoreMeansDrained | src/smacx_activity.py:72-91 | No more to come implies each readable stream is at its last whole line or before an over-long one |
| ActivityRuns.RecordsExactlyOnce | src/smacx_activity.py:69-84 | So the events over any chain of pages are, stream by stream, the records of the match up to the cursor, once and in order |
| ActivityExport.PagesCompose | src/smacx_activity.py:69-91 | Two consecutive pages of a directory deliver what one page without limits would have, in the same order |
| ActivityExport.Export | portal/Smacx.Portal/Controllers/AiActivityController.cs:45-57 | The export loop ends, never finds its cursor stalled, and delivers the records of all readable streams to their last whole line, each once and in order; it ends with a cursor the next page accepts if and only if the names in the cursor and of the streams with a whole line behind it are at most 256 and no value behind it is not an object; from an empty cursor it is never refused |
| ActivityExport.FullCursor | src/smacx_activity.py:50-92 | A cursor of 256 vanished files, named as the source names them, and one new file with one whole line: the page succeeds, its cursor has 257 names of 47 characters with one digit each, and the next page refuses it |
| StreamCapture.CapturedStream.Pass | src/smacx_diagnostics.py:526-534 | A chunk passes through unchanged; what was pending and the chunk are cut at their newlines, the lines handed on, the tail pending, and dropped and noted as omitted exactly when it is over-long |
| StreamCapture.CapturedStream.Iterate | src/smacx_diagnostics.py:524-537 | The consumer gets the chunks as they came; the lines handed on include a final one without newline |
| StreamCapture.CutsAreUnique | src/smacx_diagnostics.py:526-534 | There is one way to cut a stream into lines ended by newlines and a tail without one, and the split is it |
| StreamCapture.WholeLinesAre | src/smacx_diagnostics.py:526-536 | The lines of a whole stream are what its newlines end, and a last line without one if anything is left |
| StreamCapture.NothingOmittedMeansExact | src/smacx_diagnostics.py:529-533 | However the stream is cut, a capture that omitted nothing is exactly its newline split |
| StreamCapture.ShortLinesAreExact | src/smacx_diagnostics.py:526-536 | A stream whose lines are short is captured exactly, with nothing omitted |
| StreamCapture.EveryChunkingIsExact | src/smacx_diagnostics.py:526-536 | Every chunking hands on exactly the newline split if and only if no line and no rest is over-long |
| StreamCapture.ChunkingInvariance | src/smacx_diagnostics.py:526-536 | The lines handed on are the same for all chunkings if and only if no line that ends is over-long and the rest behind the last newline is over-long by at most one byte; a limit of zero drops any rest |
| BoundedCapture.DiagnosticWriter.Emit | src/smacx_diagnostics.py:185-232 | Commits the emit that `EmitAnswers` and `EmitEffect` describe, under the lock: refusal, data record, or the one gap record, with the marker, also when the write fails |
| BoundedCapture.EmitAnswers | src/smacx_diagnostics.py:185-232 | A record is recorded if and only if there is no marker, the writer is not exhausted, the write succeeds, and neither the bytes of the stream nor those of the match with it pass their budget; one that passes a budget is answered as a gap |
| BoundedCapture.EmitEffect | src/smacx_diagnostics.py:185-232 | The numbers, counters, flags and records after an emit, exactly |
| BoundedCapture.ExhaustionHasReason | src/smacx_diagnostics.py:198-208 | For every interleaving a writer is exhausted only by an attempt of its own that would have passed one of the two budgets |
| BoundedCapture.MarkerHasReason | src/smacx_diagnostics.py:198-219 | For every interleaving the marker exists only if an attempt would have passed the budget of the match |
| BoundedCapture.GapHasReason | src/smacx_diagnostics.py:198-208 | For every interleaving each gap record stands for an attempt of its stream that would have passed one of the two budgets |
| BoundedCapture.EveryInterleavingIsSound | src/smacx_diagnostics.py:185-219 | For every interleaving of writers no data record passes a stream or match budget, a gap record is the last of its stream, and numbers rise, without holes while writes succeed |
| BoundedCapture.MarkerIsFinal | src/smacx_diagnostics.py:187-188 | Once the capacity marker exists nothing is written any more |
| BoundedCapture.ExhaustedIsFinal | src/smacx_diagnostics.py:189-190 | An exhausted writer writes nothing more |
| BoundedCapture.OneGapAtMost | src/smacx_diagnostics.py:203-208 | A stream has at most one gap record |
| BoundedCapture.ReceiptStands | src/smacx_diagnostics.py:220-232 | For every interleaving a receipt of something written stands for a record that stays in the log, a data record of that size if and only if it says recorded |
| BoundedCapture.RecordHasReceipt | src/smacx_diagnostics.py:220-232 | Every record of the log has the receipt of the attempt that left it |
| ContainerLogs.ParsedIffEncoded | src/smacx_docker.py:240-255 | Data parses to a frame sequence if and only if it is its encoding |
| ContainerLogs.FramingIsInjective | src/smacx_docker.py:234-237 | No two frame sequences share their bytes |
| ContainerLogs.LengthRoundTrips | src/smacx_docker.py:247 | The big-endian length decodes to what was encoded |
| ContainerLogs.Decode | src/smacx_docker.py:240-255 | Data that some positions cut into frames, each a stream number of at most 2, three zeros, a big-endian length and as many bytes, gives the joined payloads; anything else is returned untouched |
| CheckpointIdentity.IdentityHash | src/smacx_checkpoint_policy.py:33-37 | The loop computes the fold, within 64 bits |
| CheckpointIdentity.MixIsInjective | src/smacx_checkpoint_policy.py:36 | A step is injective in the state and in the 32-bit word |
| CheckpointIdentity.HashGrows | src/smacx_checkpoint_policy.py:33-37 | The hash of nothing is the seed; one more field is reduced modulo 2^32, combined bit by bit with the hash so far, multiplied by the FNV prime and reduced modulo 2^64 |
| CheckpointIdentity.OneFieldTamperDetected | src/smacx_checkpoint_policy.py:33-37 | Changing one field keeps the hash if and only if it keeps the field modulo 2^32 |
| CheckpointIdentity.TamperedFieldRejected | src/smacx_checkpoint_policy.py:40-52 | Evidence with one field changed otherwise is no longer accepted |
| CheckpointIdentity.CanonicalVehicleFields | src/smacx_checkpoint_policy.py:40-52 | Accepts exactly a list of 3 + 8n integers with n at most 2048 in its third, whose turn, faction, handles and hash match, and returns all of it but the second field |
| CheckpointIdentity.ValidatePeerCapsules | src/smacx_checkpoint_policy.py:54-62 | Passes exactly when every capsule is evidence that continues the layout; otherwise the first failure in order |
| CheckpointIdentity.ValidPeersShareLayout | src/smacx_checkpoint_policy.py:54-62 | Passing means that all capsules share one layout |
| CheckpointIdentity.IdentityDifferences | src/smacx_checkpoint_policy.py:65-79 | The report is the list of all differences behind one of the field counts if they differ, cut at 32 |
| CheckpointIdentity.DifferingIs | src/smacx_checkpoint_policy.py:70-77 | The differences are, in order, exactly the fields with different values, but for an ignored perspective, each named by its header field or its vehicle row and field, with both values |
| CheckpointIdentity.EachPlaceOnce | src/smacx_checkpoint_policy.py:70-77 | The differences list each field that differs and no other, no two under one name |
| CheckpointIdentity.SameLayoutIffNoDifference | src/smacx_checkpoint_policy.py:52-79 | Two capsules share a layout if and only if ignoring the perspective leaves nothing to report |
| CheckpointRetention.ProvenKeys | src/smacx_checkpoint_policy.py:7-14 | The keys kept are exactly those of the verified candidates |
| CheckpointRetention.RetainedCheckpoints | src/smacx_checkpoint_policy.py:5-20 | Exactly the candidates at the places to be kept, in order: a place is kept if its checkpoint is verified, no verified one before it has its name, and fewer than three such stand before it or it is the first restore-tested one |
| CheckpointRetention.RetentionIsBounded | src/smacx_checkpoint_policy.py:15-20 | At most four, all verified, with distinct keys, and a restore-tested one whenever there is one |
| CheckpointRetention.StagingSlot | src/smacx_checkpoint_policy.py:23-30 | The first of five slots not occupied; refused only when all five are |
| CheckpointRetention.FourLeaveOneFree | src/smacx_checkpoint_policy.py:23-30 | Beside up to four checkpoints one of the five slots is free |
| CheckpointRetention.StageBeside | src/smacx_worker_manager.py:3642-3643 | A new save is always staged, in the first of the five slots a to e that is neither the native slot of a kept checkpoint nor, where it has none, its slot |
| PreparationModel.StepsAreCoherent | src/smacx_choice_preparation.py:35-77 | For every purpose any choice of earlier fields leaves an option of the later one |
| PreparationModel.OptionRemains | src/smacx_choice_preparation.py:127-134 | A proper draft always has an option to offer |
| PreparationModel.ChosenIsProper | src/smacx_choice_preparation.py:166-171 | Choosing an open option keeps selected fields, offered values and cross-field constraints |
| PreparationModel.CompletedIsSound | src/smacx_choice_preparation.py:172-178 | Completion gives economy, psych and labs of ten in all and none negative, different abilities, a target other than the source, and offered values only |
| ChoicePreparation.BodiesAreProper | src/smacx_choice_preparation.py:79-104 | Every draft a request opens is proper |
| ChoicePreparation.StoreKeepsGood | src/smacx_choice_preparation.py:109-146 | Storing keeps the table within its limit and fails only on more than 128 options |
| ChoicePreparation.AcceptKeeps | src/smacx_choice_preparation.py:148-178 | An attempt spends its reference if and only if its arguments fit the draft, and otherwise leaves the draft as it was; a completion is sound |
| ChoicePreparation.OversizedIsSpent | src/smacx_choice_preparation.py:132-172 | An attempt is refused as too large if and only if it chooses an issued option, a step remains and that step would show more than 128 options; then its reference is spent and nothing takes its place |
| ChoicePreparation.OversizedAdvance | src/smacx_choice_preparation.py:148-172 | The same of a call: if and only if it names a live draft of its frame and comes to such a step |
| ChoicePreparation.ReferenceIsWasted | src/smacx_choice_preparation.py:132-172 | A design with one chassis and 129 weapons: choosing the chassis fails, leaves no draft, and the reference is unknown afterwards |
| ChoicePreparation.EveryStoredDraftIsProper | src/smacx_choice_preparation.py:79-178 | In every reachable table the drafts are proper, offer exactly what is open, at least one and at most 128 options, within the limit |
| ChoicePreparation.EachReferenceAdvancesOnce | src/smacx_choice_preparation.py:148-178 | After a reference advanced, every later use is refused as unknown |
| ChoicePreparation.EveryCompletionIsSound | src/smacx_choice_preparation.py:148-178 | Whatever was asked before, a completion is sound for the draft its reference named |
| PreparationEffects.StepsOfferTheCatalog | src/smacx_choice_preparation.py:35-77 | Each purpose asks for its fields in order, and each step offers exactly what the catalog has for its own field: chassis, weapon, armor, reactor and two abilities or none; the four social categories; zero to ten; prototypes in use and other custom ones |
| PreparationEffects.BodiesAreOpened | src/smacx_choice_preparation.py:79-104 | A request opens exactly the draft of its purpose, an upgrade beside a design, where the catalog admits them and has something for every field, and one for every energy choice that can be asked |
| PreparationEffects.OptionsAreAllowed | src/smacx_choice_preparation.py:127-134 | The options of a draft are exactly the offers of its step that its selection allows: psych within what economy leaves of ten, a second ability other than the first, a target other than the source |
| PreparationEffects.StoreEffect | src/smacx_choice_preparation.py:109-146 | Storing leaves exactly the drafts that are not expired and, with the live ones behind them and the new one, within the limit, then the draft with the next reference, its expiry and its options, unless those are more than 128 |
| PreparationEffects.AdvanceAnswers | src/smacx_choice_preparation.py:148-178 | Every answer to an attempt, from the draft it names: unknown, out of scope, an amount bound or refused, an option refused, gone on with or completed, with labs as the rest of ten |
| PreparationEffects.RunOpens | src/smacx_choice_preparation.py:79-178 | In every reachable table each draft was opened by an earlier request, with its frame, its kind and from its catalog |
| PreparationEffects.OptionsComeFromTheCatalog | src/smacx_choice_preparation.py:127-146 | So in every reachable table each option shown is in the catalog of that request and allowed by the selection |
| PreparationService.ChoicePreparations.DropExpired | src/smacx_choice_preparation.py:111-113 | Drops exactly the expired drafts |
| PreparationService.ChoicePreparations.MakeRoom | src/smacx_choice_preparation.py:114-115 | Drops the oldest drafts until one more fits |
| PreparationService.ChoicePreparations.Store | src/smacx_choice_preparation.py:109-146 | Commits the storing of a draft |
| PreparationService.ChoicePreparations.Begin | src/smacx_choice_preparation.py:79-107 | Commits the storing of every draft the request opens, in order |
| PreparationService.ChoicePreparations.Advance | src/smacx_choice_preparation.py:148-178 | Commits one attempt on a reference |

## Left out

- Attention: redelivery counts, telemetry, the campaign journal, captured and persisted times, the capture steps that `lease` runs first, chat receipts, and the choice among several duplicates by captured time. Nothing in the invariant depends on them.
- Attention: one perspective and one timeline; the published cursor is an input; the session and run check of the sovereign owner is an input; argument validation of references and modes is by type. The `superseded` item status is absent, because no modelled code writes it.
- Tokens and ids are numbers that are never issued twice; the digest of a token is the token.
- Watches, operations, plan dependencies, health and hand-off of the attention service.
- SiteOutputs.FeasibleOutputs: non-integer population and limit values are excluded by type; the fixed texts of the report are not modelled.
- Deployment alternatives: the route planning they call is not part of this model.
- TranscriptGc.CompactManagedContext: reasoning removal, canonical system rows, restored terminal receipts and the appended runtime context are not modelled; sizes and token counts are arbitrary functions of the rows.
- Cognition arguments: their replacement (harness/smacx_strict_prompt.py:906-911) is not modelled; with continuation on, which is the default and what is modelled, it reaches only rows that are not sent, because `preserve_continuation` copied them before.
- TranscriptGc.CompactReceipts: the result of a row is its own body, where the source looks it up by id; they differ only when an id has several results, which a paired transcript excludes.
- Transcript formatting: compact spelling of a result is modelled as removal of a sole transport wrapper, without white space.
- The hand-off compaction and the specialist prompt branch of the strict prompt module.
- ActivityExport.Export: one seat with one profile, in a directory that does not change while it is exported; page limits of at least one event, as all callers have. The callers also refuse a cursor of more than 16,000 characters (src/smacx_harness_manager.py:717, portal/Smacx.Portal/Controllers/AiActivityController.cs:82), which is not modelled; 257 names of 47 characters stay below it.
- ActivityPages.ReadPage: file contents do not change while one page is read; what a line decodes to is an arbitrary function of its bytes; the redacting projection of events is not modelled.
- StreamCapture.CapturedStream.Pass: what happens to a line once it is handed on (decoding, batching, activity) and the digest are not modelled; `omitted` stands only for text dropped as over-long.
- BoundedCapture.DiagnosticWriter.Emit: record sizes are inputs; a failed write stores nothing of the record. Redaction, compression and the human log are not modelled.
- ContainerLogs.Decode: the final decoding of bytes as text.
- CheckpointIdentity.CanonicalVehicleFields: the hash text is read as the number it denotes.
- CheckpointRetention.StagingSlot: the digest prefix of a slot is an input.
- PreparationService.ChoicePreparations.Advance: the clock is read once per call; catalog rows are decoded before; labels, effects and details of options are not modelled.
- Ballot and numeric binding of prepared choices, HTTP, control server, capability tables, prompt files and benchmarks.
