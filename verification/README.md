# Verified models of the game server's state machines

Dafny models of the parts of the repository that carry state across calls or
have an algorithm worth a theorem: LLM admission control, the turn-result
stores, consequence chains, the SSE replay buffer, prompt budgeting, the audit
log's cursors, turn persistence under faults, the session sweep, the genesis
phase machine, and two algorithms of the spec index.

Code that changes state in place is a class whose methods are proved equal to
functions on values; the theorems are about those functions, over runs. A run
is an arbitrary sequence of atomic events (the code between two awaits, one
Redis command, one database write). An event that is not possible in a state
leaves it alone, so a theorem about all sequences is about all interleavings.
`dafny verify dfyconfig.toml` checks everything.

| file | models |
|---|---|
| `RateLimitBudget.dfy`, `RateLimitRuns.dfy` | `src/tta/llm/rate_limiter.py` |
| `CircularDeps.dfy`, `AcceptanceCriteria.dfy` | `specs/index_specs.py` |
| `MemoryTurnResults.dfy`, `RedisTurnResults.dfy` | `src/tta/api/turn_results.py` |
| `Consequences.dfy`, `ConsequenceService.dfy`, `ConsequenceLaws.dfy`, `ConsequenceRuns.dfy` | `src/tta/choices/consequence_service.py`, `src/tta/models/consequence.py` |
| `SseBuffer.dfy` | `src/tta/api/sse.py` |
| `ContextBudget.dfy`, `StableSort.dfy` | `src/tta/llm/context_budget.py` |
| `AuditLog.dfy`, `AuditCursor.dfy`, `Base64Url.dfy`, `Text.dfy` | `src/tta/persistence/audit_repo.py` |
| `TurnDispatch.dfy`, `TurnRuns.dfy`, `TurnAccounting.dfy`, `TurnMishaps.dfy` | `src/tta/pipeline/orchestrator.py`, recovery in `src/tta/api/routes/games_turns.py` |
| `Lifecycle.dfy` | `src/tta/lifecycle/cleanup.py` |
| `GenesisState.dfy`, `Genesis.dfy`, `GenesisRuns.dfy`, `GenesisOverlaps.dfy` | `src/tta/genesis/genesis_v2.py` |

## Where the code does less than its documentation says

For each of these a theorem over all runs says exactly when the promise holds,
and a concrete run shows it failing, unless it always does.

- `_enforce` ignores the `False` that `admit_or_queue` returns when BEST_EFFORT
  is over its backpressure limit. The dropped call runs anyway and later
  releases a slot it never had: `DroppedCallBreaksCap`. When calls and releases
  match, and when the cap holds: `ClientMatchesIffNothingDropped`.
- A timeout or cancellation that reaches a waiter already handed a slot loses
  the slot for good: `RacedTimeoutLosesSlot`, `CapacityKeptIffBalanced`,
  `CapacityKeptIffNothingLost`, `TierDiesWhenAllSlotsLost`.
- In the in-memory result store, a waiter that leaves early pops the event its
  co-waiters still wait on: `CoWaiterTimeoutLosesResult`,
  `BlockedWaiterIsAnsweredIffNotDeserted`.
- In the Redis store, a publisher that fails between SET and PUBLISH strands a
  waiter past its GET: `BrokenPublisherStrandsListener`,
  `ListenerIsAnsweredIffGetInTime`, `BrokenPublisherNeverAnswers`.
- `prune_chains` cannot prune a chain without entries, so the cap can be
  exceeded: `EmptyChainEscapesCap`, `CapHoldsIffVictimsHaveEntries`.
- `replay_after` decides by one command and answers by another; an event
  evicted between the two is left out of a hit: `EvictionBetweenCommands`,
  `HitIsCompleteIffNothingEvicted`. The same goes for a look between the two
  commands of an append: `UntrimmedLookHits`, `HitIsCompleteIffHeld`.
- A `last_id` remembered across the expiry of the counter key can be taken for
  current: `StaleIdAfterRestart`, `StaleHitOmitsIff`.
- Recovery of the turn count is a query and an update that does not look again,
  and so is the clearing of a stuck turn. Turns that finish in between, or are
  between their own writes, leave the count too low or too high with nothing
  due: `OvertakenRecoveryUndercounts`, `UnquietRecoveryOvercounts`,
  `LateClearingOvercounts`. The exact balance is `TurnCountBalances`; the
  condition on what happens between query and update, and that it is needed,
  are `TurnCountIsAccurate` and `AccurateIffClean`.
- Revealing a hidden consequence is said to make it produce its world change.
  It never does: `HiddenNeverEmits`.
- Two overlapping requests to a genesis session can lose an input:
  `OverlapLosesInput`, `NothingLostIffUndisturbed`.
- With a negative `expire_days` a repeated sweep expires what the first one
  paused: `NegativeAgeExpiresPaused`, `RepeatedPassIsIdle`.

## Model

| member | source | states |
|---|---|---|
| RateLimitBudget.Budget.constructor | src/tta/llm/rate_limiter.py:51-80 | every tier starts with its configured permits (BEST_EFFORT: one), an empty queue and no active call |
| RateLimitBudget.Budget.Admit | src/tta/llm/rate_limiter.py:86-121 | admitted exactly when the tier's semaphore has a free permit; a refusal changes nothing, and no other tier changes either way |
| RateLimitBudget.Budget.AdmitOrQueueCall | src/tta/llm/rate_limiter.py:123-171 | the tier's whole new state and outcome up to the first await; CRITICAL is always admitted; no other tier changes |
| RateLimitBudget.ArrivalOutcome | src/tta/llm/rate_limiter.py:107-162 | an arrival is admitted if and only if a permit is free, dropped if and only if none is and at least the limit wait, and queued at the end otherwise |
| RateLimitBudget.Budget.Resume | src/tta/llm/rate_limiter.py:190-192 | a granted waiter only raises `_active`; it takes no permit |
| RateLimitBudget.Budget.RemoveFromQueue | src/tta/llm/rate_limiter.py:275-280 | the timed-out entry leaves the queue, and an entry already taken out by `release` is silently not found |
| RateLimitBudget.Budget.ReleaseSlot | src/tta/llm/rate_limiter.py:194-230 | the slot goes to the head of the queue if there is one, and only otherwise back to the semaphore |
| RateLimitBudget.Client.Begin | src/tta/llm/rate_limiter.py:416-420 | a call reaches the inner client unless it is queued, dropped calls included |
| RateLimitBudget.Client.End | src/tta/llm/rate_limiter.py:373-375 | every non-CRITICAL call releases once, whatever its admission was |
| RateLimitRuns.SlotConservation | src/tta/llm/rate_limiter.py:107-230 | over every run, permits + running + granted + lost = cap + unmatched releases, and `_active` is off by exactly the unmatched releases |
| RateLimitRuns.StepMovesSlots | src/tta/llm/rate_limiter.py:160-230 | which single events create, move or lose a slot |
| RateLimitRuns.EnforcingClientHoldsCap | src/tta/llm/rate_limiter.py:355-375 | if drops are acted on, at most cap inner calls are in flight in any interleaving, every release matches an admission, and `_active` is the number running |
| RateLimitRuns.ClientMatchesIffNothingDropped | src/tta/llm/rate_limiter.py:416-420 | the client as written: all admissions and releases match if and only if no arrival meets the drop guard; in flight + free + granted + lost = cap + drops in every run, so the cap holds if and only if free, granted and lost slots make up for the drops |
| RateLimitRuns.HighAndLowHoldCap | src/tta/llm/rate_limiter.py:145-158 | HIGH and LOW keep their cap in every run, since they have no drop guard |
| RateLimitRuns.DroppedCallBreaksCap | src/tta/llm/rate_limiter.py:145-158 | a BEST_EFFORT run with two calls in flight on one slot, and `_active` below the number running |
| RateLimitRuns.ArrivalIsPlaced | src/tta/llm/rate_limiter.py:141-162 | over every run, a new call runs, waits or is dropped by just the free permits, the length of the queue and the limit |
| RateLimitRuns.DropsOnlyWhenFull | src/tta/llm/rate_limiter.py:145-158 | over every run with a limit no more than that many wait, a drop happens if and only if no permit is free and exactly that many wait, and without a limit none ever does |
| RateLimitRuns.OnlyFullBestEffortDrops | src/tta/llm/rate_limiter.py:145-158 | over runs of all tiers only BEST_EFFORT drops, and only with `backpressure` calls waiting |
| RateLimitRuns.CapacityKeptIffBalanced | src/tta/llm/rate_limiter.py:176-230 | for any client: a tier has its whole capacity if and only if losses and unmatched releases are equal in number |
| RateLimitRuns.CapacityKeptIffNothingLost | src/tta/llm/rate_limiter.py:176-188 | HIGH and LOW of the client as written, and every tier if drops were acted on: the whole capacity is kept if and only if no granted waiter left and no slot went to an abandoned entry, and a standing queue is served if and only if fewer than cap slots are lost |
| RateLimitRuns.RacedTimeoutLosesSlot | src/tta/llm/rate_limiter.py:275-280 | a timeout after the grant, which the swallowed ValueError hides, loses the slot |
| RateLimitRuns.TierDiesWhenAllSlotsLost | src/tta/llm/rate_limiter.py:225-230 | once cap slots are lost, no call of the tier runs in any continuation |
| RateLimitRuns.QueueIsServed | src/tta/llm/rate_limiter.py:225-230 | for any client: behind a standing queue exactly cap + unmatched releases - losses calls are running or granted |
| RateLimitRuns.GrantsFollowQueueingOrder | src/tta/llm/rate_limiter.py:160-230 | over every run, entries served followed by entries queued are the queueing order minus the entries timed out in the queue |
| RateLimitRuns.NoBarging | src/tta/llm/rate_limiter.py:107-113 | an arrival is admitted at once only when every entry queued before it has been served or has timed out |
| RateLimitRuns.TiersRunIndependently | src/tta/llm/rate_limiter.py:68-80 | in a run over all tiers, each tier sees just its own events |
| RateLimitRuns.ComposedCap | src/tta/llm/rate_limiter.py:339-420 | for every tier over interleavings of all tiers: the cap holds for HIGH and LOW, for BEST_EFFORT if drops were acted on, and as written if and only if free, granted and lost slots make up for the drops |
| CircularDeps.Search.Dfs | specs/index_specs.py:289-299 | terminates on the unseen specs; the path is restored, the node is finished, and every new issue's edge starts at a spec this call explored; the path stays the list of GRAY specs, once each, joined by edges |
| CircularDeps.Search.Enter | specs/index_specs.py:290-291 | the node becomes GRAY at the end of the path and no longer counts as unseen |
| CircularDeps.Search.Report | specs/index_specs.py:293-295 | a GRAY dependency yields a simple closed walk of real edges that ends with the edge just followed |
| CircularDeps.Search.Leave | specs/index_specs.py:298-299 | the node is popped and finished after all its edges are explored, which keeps the finishing order topological |
| CircularDeps.Search.Follow | specs/index_specs.py:292-297 | after an edge has been followed, its end is finished or the edge is reported |
| CircularDeps.CheckCircularDeps | specs/index_specs.py:273-305 | for any iteration order: every issue is a simple cycle, no edge is reported twice, the finishing order is topological for the unreported edges, removing the reported edges leaves no cycle, and there are no issues if and only if the graph is acyclic |
| CircularDeps.NoIssuesIffAcyclic | specs/index_specs.py:284-305 | a finishing order that explains all unreported edges makes "no issues" equivalent to acyclicity |
| CircularDeps.FinishingKeepsOrder | specs/index_specs.py:298-299 | a spec whose edges all end in finished specs or are reported can be finished next, and the order stays topological |
| CircularDeps.EndOfPathIsCycle | specs/index_specs.py:294-295 | the path from the GRAY dependency on, closed by the edge followed, is a simple cycle of real edges |
| CircularDeps.OrderedIsAcyclic | specs/index_specs.py:284-305 | a graph whose edges all lead to earlier specs of an order has no closed walk |
| MemoryTurnResults.InMemoryStore.PublishResult | src/tta/api/turn_results.py:59-63 | the result is stored and the current event of the turn, if any, is set |
| MemoryTurnResults.InMemoryStore.Enter | src/tta/api/turn_results.py:69-72 | a stored result is returned at once; otherwise all waiters of a turn share one event |
| MemoryTurnResults.InMemoryStore.Wake | src/tta/api/turn_results.py:74-80 | a waiter whose event is set takes the stored result and pops the shared event |
| MemoryTurnResults.InMemoryStore.GiveUp | src/tta/api/turn_results.py:75-78 | a timed-out waiter returns None and pops the shared event all the same |
| MemoryTurnResults.BlockedWaiterIsAnsweredIffNotDeserted | src/tta/api/turn_results.py:59-80 | in every interleaving, a waiter still blocked after its turn's publication can return, and then with its turn's result, if and only if no co-waiter left early before the publication |
| MemoryTurnResults.DesertedWaiterIsNeverAnswered | src/tta/api/turn_results.py:77-78 | otherwise no continuation ever answers it |
| MemoryTurnResults.AnswersAreRight | src/tta/api/turn_results.py:69-80 | late askers are answered at once, woken waiters always have an answer, and no answer belongs to another turn |
| MemoryTurnResults.StoredIffPublished | src/tta/api/turn_results.py:59-63 | over every run a result is stored if and only if it was published, whether or not anybody waited |
| MemoryTurnResults.AskedIffPublished | src/tta/api/turn_results.py:69-72 | over every run, who asks after the publication is answered at once, and who asks before waits for the event the turn's waiters share |
| MemoryTurnResults.CoWaiterTimeoutLosesResult | src/tta/api/turn_results.py:72-78 | a run in which one waiter's timeout loses the other's result |
| RedisTurnResults.RedisStore.StoreResult | src/tta/api/turn_results.py:102 | SET touches the turn's key and no subscription |
| RedisTurnResults.RedisStore.Notify | src/tta/api/turn_results.py:104 | PUBLISH reaches every current subscriber of the turn's channel and no other |
| RedisTurnResults.RedisStore.CheckKey | src/tta/api/turn_results.py:121-123 | a stored key ends the wait with its value, a missing one leaves the subscription in place |
| RedisTurnResults.RedisStore.Poll | src/tta/api/turn_results.py:127-139 | a message ends the wait with the oldest payload |
| RedisTurnResults.ListenerIsAnsweredIffGetInTime | src/tta/api/turn_results.py:96-139 | in every interleaving with key expiry and broken publishers, the next poll of a waiter past its GET returns the result if and only if PUBLISH has run and its GET was not a late one on an expired key, and does nothing otherwise |
| RedisTurnResults.SubscriberIsAnswered | src/tta/api/turn_results.py:113-139 | once PUBLISH has run, a waiter with its GET ahead is answered by that GET exactly while the key lives, and by the next poll otherwise if it subscribed in time |
| RedisTurnResults.KeyHeldIffAlive | src/tta/api/turn_results.py:96-104 | over every run and by the events alone, a turn's key is held if and only if its result was stored and its own key has not expired since, whatever other turns do |
| RedisTurnResults.GetIsAnsweredIffKeyAlive | src/tta/api/turn_results.py:113-139 | over every run and by the events alone, a GET returns the result if and only if it was stored and has not expired; failing that the next poll does if and only if the notification came after the subscription; so only expiry makes a GET too late |
| RedisTurnResults.AnswersAreRight | src/tta/api/turn_results.py:121-161 | no answer belongs to another turn, and only giving up returns None |
| RedisTurnResults.BrokenPublisherNeverAnswers | src/tta/api/turn_results.py:101-104 | in every run, once a turn's publisher has failed, no continuation answers a waiter past its GET on that turn; it can only give up |
| RedisTurnResults.BrokenPublisherStrandsListener | src/tta/api/turn_results.py:101-104 | a run in which a failure between SET and PUBLISH leaves a waiter polling although the key is set |
| ConsequenceService.InMemoryService.CreateChain | src/tta/choices/consequence_service.py:201-235 | the chain is appended to its session and its entries point to it and to the creation turn |
| ConsequenceService.InMemoryService.Evaluate | src/tta/choices/consequence_service.py:237-318 | new chains, updated chains, world changes and hints, each as its own function of the old chains |
| ConsequenceService.InMemoryService.EvaluateEntriesOf | src/tta/choices/consequence_service.py:261-309 | which entries of a chain fire or hint, in order, and when the chain counts as updated |
| ConsequenceService.InMemoryService.ResolveChain | src/tta/choices/consequence_service.py:320-336 | the first chain with the id, and no other, has its open entries resolved and is returned |
| ConsequenceService.InMemoryService.RevealHiddenEntry | src/tta/choices/consequence_service.py:418-435 | the first hidden entry with the id, and nothing else, becomes visible and active and is returned |
| ConsequenceService.InMemoryService.Lapse | src/tta/choices/consequence_service.py:360-374 | exactly the active chains idle for 50 turns go dormant, and their triggers are the closures |
| ConsequenceService.InMemoryService.PruneExcess | src/tta/choices/consequence_service.py:376-395 | the victims' entries are pruned and their ids and triggers are returned in pruning order |
| ConsequenceService.InMemoryService.PruneChains | src/tta/choices/consequence_service.py:348-395 | both passes together on the session, other sessions untouched |
| ConsequenceLaws.ScoreSeparates | src/tta/choices/consequence_service.py:68-100 | an active chain scores at least 5 if protected and 0 to 4 otherwise |
| ConsequenceLaws.VictimsAreTheExcess | src/tta/choices/consequence_service.py:377-384 | the victims are active chains, as many as exceed the cap |
| ConsequenceLaws.VictimsAreLowest | src/tta/choices/consequence_service.py:381-384 | no victim outscores a survivor |
| ConsequenceLaws.ProtectedGoLast | src/tta/choices/consequence_service.py:83-98 | a protected chain is a victim only if every unprotected active chain is |
| ConsequenceLaws.TiesGoOldestFirst | src/tta/choices/consequence_service.py:381-382 | among equal scores the earlier chain is pruned first |
| ConsequenceLaws.VictimsInOrder | src/tta/choices/consequence_service.py:68-100 | the pruning order without scores: grounds of protection first, then permanence, then pending over active over dormant over none, then age; whatever goes before a victim is a victim |
| ConsequenceLaws.ScoresFollowOrder | src/tta/choices/consequence_service.py:59-100 | the scores of active chains are in just that order |
| ConsequenceLaws.WhoCompetes | src/tta/choices/consequence_service.py:377-384 | which chains are candidates, by their entries and dormancy, and how many of them go |
| ConsequenceLaws.PruneChainsAt | src/tta/choices/consequence_service.py:384-388 | each chain after pruning is its lapsed self, with all entries pruned if it is a victim |
| ConsequenceLaws.PruningTouches | src/tta/choices/consequence_service.py:360-388 | idle chains, fifty turns or more, go dormant with their open entries, victims have every entry pruned, and nothing but statuses and dormancy changes anywhere |
| ConsequenceLaws.NamesInOrder | src/tta/choices/consequence_service.py:384-395 | the ids and triggers returned are the victims', one for each, in pruning order |
| ConsequenceLaws.PruneOutcome | src/tta/choices/consequence_service.py:360-395 | exactly the victims that have entries stop being active, for any chains and any cap |
| ConsequenceLaws.CapHoldsIffVictimsHaveEntries | src/tta/models/consequence.py:108-117 | the cap holds after pruning if and only if no victim is without entries |
| ConsequenceLaws.CapHolds | src/tta/choices/consequence_service.py:376-388 | if every chain has an entry, the number of active chains afterwards is the smaller of the number before and the cap |
| ConsequenceLaws.EmptyChainEscapesCap | src/tta/models/consequence.py:108-117 | two chains without entries survive a cap of one |
| ConsequenceRuns.RunEvolves | src/tta/choices/consequence_service.py:201-435 | over every run no entry returns to PENDING, dormancy is permanent, and no chain or entry is lost, moved or relabelled |
| ConsequenceRuns.EvaluationTouches | src/tta/choices/consequence_service.py:256-301 | exactly the pending entries that are in their window of turns and not hidden become active, and the chain was last active then if there are any; nothing else changes |
| ConsequenceRuns.UpdatedIffDue | src/tta/choices/consequence_service.py:311-312 | the chains reported as updated are those in which an entry came due |
| ConsequenceRuns.ResolvingCloses | src/tta/choices/consequence_service.py:328-334 | resolving leaves nothing pending or active, dates what was, and resolves the chain unless it is empty or has dormant entries |
| ConsequenceRuns.ResolvesTheFirst | src/tta/choices/consequence_service.py:325-335 | the first chain with the id, in session order, is resolved and returned, and nothing else changes |
| ConsequenceRuns.ResolvesNothing | src/tta/choices/consequence_service.py:336 | without such a chain nothing changes and None is returned |
| ConsequenceRuns.RevealingTouches | src/tta/choices/consequence_service.py:425-434 | the first hidden entry with the id becomes visible and active, and the chain's activity is dated if a turn is given |
| ConsequenceRuns.RevealsTheFirst | src/tta/choices/consequence_service.py:423-434 | the first chain hiding such an entry, in session order, is the one touched, and the entry is returned |
| ConsequenceRuns.RevealsNothing | src/tta/choices/consequence_service.py:435 | without such an entry nothing changes and None is returned |
| ConsequenceRuns.LapsedTriggersTell | src/tta/choices/consequence_service.py:361-374 | the closures of the first pass are the triggers of the chains idle for fifty turns |
| ConsequenceRuns.NewChainOwnsEntries | src/tta/choices/consequence_service.py:213-227 | a new chain is awake and active as of its turn, and its entries differ from those given in chain and turn alone |
| ConsequenceRuns.EmittedAtMostOnce | src/tta/choices/consequence_service.py:261-301 | over every run each entry's world change is emitted at most once |
| ConsequenceRuns.ChangesAreFirings | src/tta/choices/consequence_service.py:265-301 | an evaluation's world changes are those of the firing entries, one for each, all in their timescale window and none hidden |
| ConsequenceRuns.ClosedChainsAreSilent | src/tta/choices/consequence_service.py:320-388 | the entries of a chain that was resolved, pruned or put to sleep never emit in any continuation |
| ConsequenceRuns.HiddenNeverEmits | src/tta/choices/consequence_service.py:275-301 | an entry hidden now emits no world change in any continuation, revealed or not |
| ConsequenceRuns.HintsAreOfPendingEntries | src/tta/choices/consequence_service.py:275-309 | a text is a hint if and only if it is the hook of an entry of an active chain that the evaluation leaves pending, foreshadowed or hidden in its window |
| ConsequenceRuns.SecondEvaluationIsIdle | src/tta/choices/consequence_service.py:237-318 | evaluating the same turn again changes no state, emits nothing and gives the same hints |
| SseBuffer.SseEventBuffer.GetNextId | src/tta/api/sse.py:44-53 | ids count up by one per draw |
| SseBuffer.SseEventBuffer.AppendEvent | src/tta/api/sse.py:56-72 | the buffer stays in id order and holds the new event and the old ones with another text, except what is too many for one hundred, which is older than all that stays |
| SseBuffer.SseEventBuffer.Replay | src/tta/api/sse.py:75-103 | None if and only if the buffer is empty and some events are claimed, or the oldest is more than one ahead; otherwise all events held above the id, in id order |
| SseBuffer.FormatTellsId | src/tta/api/sse.py:106-132 | events with different ids have different texts, so that a sorted set of texts keeps them apart |
| SseBuffer.FormatReads | src/tta/api/sse.py:128-132 | the text of an event begins with its id line |
| SseBuffer.BufferIsNewestPartOfLog | src/tta/api/sse.py:56-72 | over every interleaving of the single commands, in any order of ids and with gaps, the trimmed buffer holds in id order exactly the events with fewer than cap newer ones among those appended since it last expired |
| SseBuffer.LookTellsEviction | src/tta/api/sse.py:88-99 | on a trimmed buffer the first command gives a hit if and only if the client is at most one behind the oldest event held, and a miss whenever an event it needs has been evicted by then |
| SseBuffer.LookIsAnswered | src/tta/api/sse.py:89-99 | over every run, what a client is answered by the first command: a miss, an empty replay, or the second command, by the buffer and its id alone |
| SseBuffer.EvictionIsTold | src/tta/api/sse.py:97-99 | over every clean run, a client lacking an event that a trimmed buffer no longer holds is answered None |
| SseBuffer.HitOmitsWhatIsNotHeld | src/tta/api/sse.py:101-103 | over every run, with either key expiring at any time: a hit leaves out a logged event if and only if its id is not above the client's or the buffer does not hold it at the second command; the answer is in id order |
| SseBuffer.HitIsCompleteIffHeld | src/tta/api/sse.py:86-103 | a hit returns exactly the events of the present lifetime above the id, in order, if and only if all of them are still held at the second command; on a trimmed buffer, if and only if none expired with an earlier buffer and they are at most cap |
| SseBuffer.HitIsCompleteIffNothingEvicted | src/tta/api/sse.py:89-102 | for a trimmed first look, with any commands of others up to the second but no expiry of the buffer: everything needed was there at the look, and the answer is complete if and only if nothing needed is evicted in between, that is, if at most cap events are above the id by then |
| SseBuffer.EvictionBetweenCommands | src/tta/api/sse.py:89-102 | a run in which an append between the two commands evicts the event needed: a hit without it |
| SseBuffer.UntrimmedLookHits | src/tta/api/sse.py:68-72 | a run in which a client looks between the two commands of a late append, and gets a hit although an event it needs is gone |
| SseBuffer.StaleHitOmitsIff | src/tta/api/sse.py:44-103 | for a client of an earlier lifetime of the counter whose id was a hit in a later one: the answer has everything it has not seen if and only if no event of the later lifetime has an id up to its own or has expired, at most cap have been logged, and it had missed nothing before that is not there again |
| SseBuffer.StaleIdAfterRestart | src/tta/api/sse.py:44-72 | a run in which the counter expires and then the buffer, and an old id gets an empty hit although a new event was appended |
| ContextBudget.FitChunksToBudget | src/tta/llm/context_budget.py:64-107 | the result is the longest prefix of the stable priority order that fits, never shorter than all P0 and P1, with the exact token sum, and the rest named from the end backwards |
| ContextBudget.CountChunks | src/tta/llm/context_budget.py:75-78 | missing counts are filled in place, present ones are kept |
| ContextBudget.TokensAreHalfTheLength | src/tta/llm/context_budget.py:54-61 | the estimate is half the length rounded down, and at least one |
| ContextBudget.FitCounted | src/tta/llm/context_budget.py:80-107 | the deletion loops refine the longest-fitting-prefix form |
| ContextBudget.DropPass | src/tta/llm/context_budget.py:88-96 | deleting by index from the end removes a suffix of the sorted list and nothing else |
| ContextBudget.SortingListsClasses | src/tta/llm/context_budget.py:80-81 | the stable sort lists the four priority classes one after the other, each in the order given |
| ContextBudget.DropsFlavourFirst | src/tta/llm/context_budget.py:88-96 | no P2 is dropped while a P3 is kept, and no P0 or P1 is dropped |
| ContextBudget.FitIsUniqueAndComplete | src/tta/llm/context_budget.py:83-107 | the result is determined by the chunks and the budget, exceeds the budget only when only P0 and P1 are left, and kept plus dropped chunks are exactly those given |
| ContextBudget.FitIsTight | src/tta/llm/context_budget.py:86-107 | what is kept is within the budget unless it is only P0 and P1, and with the chunk dropped last it would be over |
| ContextBudget.ClassesPermute | src/tta/llm/context_budget.py:80-81 | listing the priority classes one after the other loses and adds no chunk |
| StableSort.SortListsClasses | src/tta/llm/context_budget.py:80-81 | a sort that orders by key and keeps the order within each key is the concatenation of the key classes |
| StableSort.SortIsStable | src/tta/choices/consequence_service.py:381 | the items of each key come out in the order they went in |
| StableSort.SortSorts | src/tta/choices/consequence_service.py:381 | the result is sorted and a permutation |
| AuditCursor.CursorRoundTrip | src/tta/persistence/audit_repo.py:50-61 | `decode_cursor` undoes `encode_cursor` for every timestamp, with any zone offset or none, and every identifier, because the first bar is the separator |
| AuditCursor.IsoRoundTrip | src/tta/persistence/audit_repo.py:53-61 | the timestamp text reads back to the same timestamp, with or without a fraction, and with any zone offset or none |
| AuditCursor.UuidRoundTrip | src/tta/persistence/audit_repo.py:53-61 | the identifier text reads back to the same identifier |
| AuditCursor.CursorIsText | src/tta/persistence/audit_repo.py:53-54 | a cursor is the base64url of the timestamp, a bar, and the identifier |
| AuditCursor.DateParts | src/tta/persistence/audit_repo.py:53 | a timestamp's text has year, month and day in their places |
| AuditCursor.ClockParts | src/tta/persistence/audit_repo.py:53 | and then the clock, the fraction if there is one, and the zone |
| AuditCursor.OffsetReads | src/tta/persistence/audit_repo.py:53 | an offset of whole minutes is written as sign, hours and minutes |
| AuditCursor.UuidShape | src/tta/persistence/audit_repo.py:53 | an identifier's text has its digits in groups of eight, four, four, four and twelve |
| AuditCursor.InstantsInOrder | src/tta/persistence/audit_repo.py:106-115 | the instants that rows are compared by are in the order of date and clock, leap years included |
| AuditCursor.OffsetsShift | src/tta/persistence/audit_repo.py:106-115 | a datetime ahead of UTC is earlier by its offset |
| Base64Url.DecodeEncode | src/tta/persistence/audit_repo.py:54-59 | base64url with padding (section 5 of RFC 4648) decodes to the octets encoded |
| Base64Url.Vectors | src/tta/persistence/audit_repo.py:54 | the test vectors of section 10 of RFC 4648 and the two characters of section 5 |
| AuditLog.Repository.AppendEntry | src/tta/persistence/audit_repo.py:25-48 | a new identifier is appended, a known one is refused, and identifiers stay distinct |
| AuditLog.Repository.QueryPage | src/tta/persistence/audit_repo.py:63-134 | collecting clauses for the filters given and selecting by them gives the page of the matching rows below the cursor, or the error for a bad cursor or a negative limit |
| AuditLog.QueryIsExact | src/tta/persistence/audit_repo.py:82-134 | the page in the reader's terms: every filter met, times inclusive, below the cursor, newest first, at most the limit and a thousand, and nothing wanted left out while there is room; errors exactly for a bad cursor or a negative limit |
| AuditLog.Repository.WhereClauses | src/tta/persistence/audit_repo.py:83-110 | the clauses joined by AND hold of exactly the rows that match the filters and lie below the cursor |
| AuditLog.CursorsCarryKeys | src/tta/persistence/audit_repo.py:104-108 | following cursors is following the (timestamp, id) keys of the last rows |
| AuditLog.PagesNeverRepeatOrMiss | src/tta/persistence/audit_repo.py:82-134 | on any growing log, following cursors lists matching rows in strictly descending order, so none twice, and once it ends no matching row of the first page's log is missing |
| AuditLog.PagesListTheLog | src/tta/persistence/audit_repo.py:82-134 | if the rows appended meanwhile are newer, following the cursors lists exactly the matching rows of the first log, newest first, and has ended if and only if there was one query more than the pages that hold them |
| AuditLog.PagesRoundUp | src/tta/persistence/audit_repo.py:82-115 | the number of those pages is the number of rows over the page size, rounded up |
| AuditLog.RestAfterPage | src/tta/persistence/audit_repo.py:104-115 | the rows below a page's last key are the rows after the page |
| AuditLog.DescendingIsOrdered | src/tta/persistence/audit_repo.py:110-116 | with distinct identifiers the order of a page is strict |
| AuditLog.DescendingMembers | src/tta/persistence/audit_repo.py:86-116 | a query selects exactly the rows that match its filters and lie below its cursor |
| TurnDispatch.Game.PersistTurn | src/tta/pipeline/orchestrator.py:305-375 | the turn's row and `turn_persisted` for every combination of failing writes |
| TurnDispatch.Game.Dispatch | src/tta/pipeline/orchestrator.py:305-419 | the in-place code has the effect of its writes taken one at a time |
| TurnDispatch.Game.ReadFinished | src/tta/api/routes/games_helpers.py:53-62 | the count is that of the turns stored as complete or moderated |
| TurnDispatch.Game.Recover | src/tta/api/routes/games_turns.py:143-157 | a recovery that nothing interrupts has the effect of its three steps |
| TurnDispatch.DispatchInOneGo | src/tta/pipeline/orchestrator.py:305-569 | the separate write steps, run one after the other, come to the same rows, counters and single publication |
| TurnDispatch.DispatchStores | src/tta/pipeline/orchestrator.py:305-419 | exactly which outcomes, narratives and failing writes leave a turn complete, moderated, failed or processing, move the count, or ask for recovery |
| TurnRuns.TurnLeavesProcessing | src/tta/pipeline/orchestrator.py:366-375 | over any run with anything else going on: a turn past its writes is in `processing` if and only if its first write and the failsafe both failed and no submission cleared it, and publication is attempted once for each turn that is over and for no other |
| TurnRuns.StatusTellsOutcome | src/tta/pipeline/orchestrator.py:308-345 | over any run, a turn is complete, moderated or counted only if its first write succeeded with a narrative and the outcome Complete or Moderated, and moderated only if that was Moderated and the moderation write succeeded |
| TurnDispatch.DispatchLeavesProcessing | src/tta/pipeline/orchestrator.py:305-375 | the same for one dispatch on its own |
| TurnAccounting.TurnCountBalances | src/tta/pipeline/orchestrator.py:377-419 | for every interleaving and fault pattern, with recoveries and clearings writing at any time after their queries: the count exceeds the finished turns if and only if turns doubled or counted unfinished outnumber finished turns not counted; in a quiet state without a due recovery, count + lost + overlooked = finished + doubled + counted unfinished |
| TurnAccounting.TurnCountIsAccurate | src/tta/pipeline/orchestrator.py:377-419 | in every run whose updates are clean the count never exceeds the finished turns, and with nothing lost it equals them in a quiet state if and only if `needs_recovery` is false; clean means that between a recovery's query and update as many turns settle as finished, less those failed afterwards, as the query found finished but under way, and that a clearing hits no finished turn at or past its count |
| TurnAccounting.AccurateIffClean | src/tta/api/routes/games_turns.py:143-254 | nothing less will do: after a clean run let one update of a recovery come (or of a clearing, all settled turns being counted) and any further dispatches without a failing write; when they have run their course, the count is right if and only if that update was clean |
| TurnAccounting.CleanIffFits | src/tta/api/routes/games_turns.py:145-156 | over every run, the condition on the steps between query and update holds if and only if the number read is still that of the finished turns past their writes |
| TurnAccounting.TallyIsChange | src/tta/pipeline/orchestrator.py:305-419 | over any steps, the finished turns past their writes grow by those that settle and shrink by those cleared |
| TurnMishaps.OvertakenRecoveryUndercounts | src/tta/api/routes/games_turns.py:145-156 | a run in which a turn finishes between a recovery's query and its update: the count stays one short with nothing lost and no recovery due |
| TurnMishaps.LateClearingOvercounts | src/tta/api/routes/games_turns.py:218-254 | a run in which a turn finishes between the query for stuck turns and the update: it is counted and then failed |
| TurnMishaps.UnquietRecoveryOvercounts | src/tta/api/routes/games_turns.py:143-157 | a run in which recovery meets a turn awaiting its count write, and the count ends above the finished turns |
| Lifecycle.Sessions.RunLifecyclePass | src/tta/lifecycle/cleanup.py:51-129 | the four updates, row by row, come to the four rules in order, with the numbers of rows they affect |
| Lifecycle.Sessions.UpdateGames | src/tta/lifecycle/cleanup.py:53-94 | an UPDATE changes exactly the rows its WHERE selects and counts them |
| Lifecycle.Sessions.DeletePlayers | src/tta/lifecycle/cleanup.py:97-119 | the players deleted are the lapsed anonymous ones without an open game, and their number is returned |
| Lifecycle.GamesStepOnce | src/tta/lifecycle/cleanup.py:52-95 | the game rules never act on each other's results within a pass: each game takes its one step as if alone, and the counts are those of the state before |
| Lifecycle.SweepRules | src/tta/lifecycle/cleanup.py:52-95 | what becomes of each game, by its status, turns and the ages of its times, and that all others stay as they are |
| Lifecycle.PlayersGoIff | src/tta/lifecycle/cleanup.py:97-119 | which players are deleted, by their record and the games that the pass leaves, and that no other record changes |
| Lifecycle.CountsAreChanges | src/tta/lifecycle/cleanup.py:64-129 | the numbers returned are those of the rows brought to each status |
| Lifecycle.PassMovesOneStep | src/tta/lifecycle/cleanup.py:52-95 | a pass moves a game at most one step, and final or deleted games never change |
| Lifecycle.PassDeletesOnlyOwnersOfNothing | src/tta/lifecycle/cleanup.py:97-115 | a player is deleted if and only if lapsed, anonymous and without an open game in the state the pass leaves |
| Lifecycle.PassSpendsPotential | src/tta/lifecycle/cleanup.py:52-119 | the counts of a pass are exactly the rank it uses up |
| Lifecycle.SweepIsBounded | src/tta/lifecycle/cleanup.py:33-132 | over any run of passes at any times the counts sum to at most two per game and one per player |
| Lifecycle.RunLeavesClosedGames | src/tta/lifecycle/cleanup.py:52-119 | over any run of passes, closed and deleted games stay as they were, and nobody deleted owns an open game at the end |
| Lifecycle.SecondPassAtOnce | src/tta/lifecycle/cleanup.py:66-81 | what a second pass at the same moment does to games: nothing, unless the expiry age is negative |
| Lifecycle.RepeatedPassIsIdle | src/tta/lifecycle/cleanup.py:33-132 | repeating a pass at the same moment changes nothing if and only if the expiry age is not negative or no game was paused |
| Lifecycle.NegativeAgeExpiresPaused | src/tta/lifecycle/cleanup.py:66-95 | with a negative expiry age a second pass at the same moment expires the game that the first one paused |
| AcceptanceCriteria.CountCriteria | specs/index_specs.py:139-196 | the single pass with deferred group headings equals the declarative count: items + in-section checkboxes + in-section AC scenarios + group headings with nothing of their own before the next boundary |
| AcceptanceCriteria.SettledAtEnd | specs/index_specs.py:193-196 | at the end of the file one pending heading is still to be counted, and no other |
| GenesisState.DictRoundTrip | src/tta/genesis/genesis_v2.py:135-170 | `from_dict` undoes `to_dict` for every state |
| GenesisState.DictShape | src/tta/genesis/genesis_v2.py:135-151 | the keys of the stored dictionary and what is under each |
| GenesisState.OldDicts | src/tta/genesis/genesis_v2.py:154-170 | a dictionary without keys is read as a fresh state, an empty universe as none, and an unknown phase is an error |
| GenesisState.LinesAreNamed | src/tta/genesis/genesis_v2.py:230-262 | how the lines of narrator, player and system are stored |
| Genesis.Genesis.ProcessPhase | src/tta/genesis/genesis_v2.py:278-516 | the handler's effect on every field, for each phase, and its reply or failure |
| Genesis.Genesis.ChooseName | src/tta/genesis/genesis_v2.py:444-453 | the search through the words of the input sets the chosen name and nothing else |
| Genesis.Genesis.BuildSeed | src/tta/genesis/genesis_v2.py:482-495 | the seed sums up the state's recorded parts in order |
| Genesis.SeedReads | src/tta/genesis/genesis_v2.py:483-495 | the parts of the seed in words, of which those not known are left out |
| Genesis.StripTakesSpaces | src/tta/genesis/genesis_v2.py:330 | stripping takes away the spaces at both ends and no more |
| Genesis.WordsAreParted | src/tta/genesis/genesis_v2.py:446-447 | the input falls into words at its spaces |
| Genesis.CleaningKeepsLetters | src/tta/genesis/genesis_v2.py:448 | cleaning a word keeps its letters and apostrophes |
| Genesis.Genesis.MaybeAdvancePhase | src/tta/genesis/genesis_v2.py:626-639 | the next phase with its counter reset, and completion on reaching the last |
| Genesis.Genesis.Play | src/tta/genesis/genesis_v2.py:257-269 | the whole change one accepted input makes |
| Genesis.Orchestrator.Start | src/tta/genesis/genesis_v2.py:210-232 | the row after both writes, either of which may fail |
| Genesis.Orchestrator.Advance | src/tta/genesis/genesis_v2.py:234-272 | the rows and the response for every input, model failure and write failure |
| GenesisRuns.SaveThenLoad | src/tta/genesis/genesis_v2.py:652-675 | what is saved is what is loaded next |
| GenesisRuns.StartIsReady | src/tta/genesis/genesis_v2.py:210-232 | after `start` the session is in the initial stage with its universe |
| GenesisRuns.StateFollowsInputs | src/tta/genesis/genesis_v2.py:234-272 | over any run on any sessions, phase, counters, transcript and recorded facts are those of the first fourteen inputs of the session's fruitful requests |
| GenesisRuns.GenesisRefinesCounter | src/tta/genesis/genesis_v2.py:264-269 | after n fruitful requests: phase min(n/2, 7), counter n mod 2 (0 once complete), completed if and only if n reaches 14 |
| GenesisRuns.RequestTells | src/tta/genesis/genesis_v2.py:234-272 | one request in terms of the transcript: redirection, no change, or the input and the stripped reply, with the second interaction moving on to the next phase by name |
| GenesisRuns.ExtractionsTell | src/tta/genesis/genesis_v2.py:336-341 | traits, at most three, and the composition come from the model, on the second interaction of their phases, and change at no other time |
| GenesisRuns.StockTexts | src/tta/genesis/genesis_v2.py:243-255 | the answers to a completed session and to a harmful input, word for word |
| GenesisRuns.OnlyItsOwnRow | src/tta/genesis/genesis_v2.py:652-675 | a request changes no row but its own and makes none; a session without a state is read as fresh; a start whose first write fails changes nothing |
| GenesisRuns.CompleteStays | src/tta/genesis/genesis_v2.py:243-244 | a completed session is the same after any run of requests to any sessions |
| GenesisRuns.FailuresCanBeErased | src/tta/genesis/genesis_v2.py:260-272 | any run comes to the same rows without the requests that raised |
| GenesisRuns.RequestExtends | src/tta/genesis/genesis_v2.py:234-639 | the transcript only grows, recorded facts are never replaced, and the phase never goes back or skips |
| GenesisRuns.SeedTellsTheStory | src/tta/genesis/genesis_v2.py:474-495 | a completed session's seed sums up its final state and is never the stock sentence; its slip and name come from the inputs of their phases |
| GenesisRuns.NameIsFirstProperWord | src/tta/genesis/genesis_v2.py:444-453 | the name is the first proper word, cleaned, or else the first forty characters of the stripped input |
| GenesisOverlaps.AloneIsOneStep | src/tta/genesis/genesis_v2.py:234-272 | a request whose save directly follows its load is the request in one step |
| GenesisOverlaps.StateFollowsTranscript | src/tta/genesis/genesis_v2.py:234-272 | however loads and saves of requests interleave, the stored phase, counters and facts are those of the player's lines in the stored transcript |
| GenesisOverlaps.NothingLostIffUndisturbed | src/tta/genesis/genesis_v2.py:241-271 | over every interleaving: the stored transcript is at every moment that of all inputs saved so far if and only if every save finds the player's lines its load found, or writes again the very lines that completed the session meanwhile |
| GenesisOverlaps.OverlapsRefineCounter | src/tta/genesis/genesis_v2.py:264-269 | in such an interleaving n fruitful saves give phase min(n/2, 7), counter n mod 2 (0 once complete), and completion if and only if n reaches 14 |
| GenesisOverlaps.OverlapLosesInput | src/tta/genesis/genesis_v2.py:241-271 | for any two fruitful requests that load the same fresh state, the input of the one saved first is lost |

## Left out

- `run_pipeline`: its stage loop only threads a state through stage functions that are not modelled.
- Background work of `dispatch_pipeline` (titles, summaries, snapshots, world changes) and its cancellation: none of it touches the turn's row or the counters.
- The inside of `generate` and `stream` after admission: the inner LLM call is one event, which ends at any time.
- CRITICAL calls of the client bypass the budget and have no tier in the runs; `Budget` itself covers CRITICAL in `admit`, `admit_or_queue` and `release`.
- Queue timeouts, poll deadlines and TTLs as durations: each may fire at any point of a run, which allows every run the real clocks allow and more.
- SlotConservation: a cancelled waiter whose entry stays queued loses no slot until a release hands one to that entry; the equation counts the loss at that moment.
- BlockedWaiterIsAnsweredIffNotDeserted: says that the waiter can return with the result, not that the scheduler lets it run before its deadline.
- Redis and in-memory stores: a turn has one outcome, given by a function of the turn, since each turn is dispatched once; JSON decoding of a payload is not modelled.
- Redis connection errors while waiting are the same event as giving up; the unsubscribe clean-up is taken to succeed. SUBSCRIBE is taken to have effect before the GET that follows on another connection, although the source does not wait for the confirmation.
- The recursion limit of the host language: `check_circular_deps` is modelled without a bound on the depth.
- Strings of `check_circular_deps`: an issue is the cycle itself, not the sentence around it; the specs' dependency texts are taken as already reduced to spec numbers, and the set of dependencies is followed in an arbitrary order.
- Regular expressions: a line of a spec is given by which patterns it matches, and harmful input by an arbitrary predicate on the text.
- The other fields of `parse_spec` (front matter, word count, warnings).
- Aliasing of chains, entries and prompt chunks shared by several owners: chains and entries are values held in the service's dictionary, so the same entry object in two chains is not modelled. Chunks are values in the caller's array, and their in-place counting is modelled there.
- `get_active_chains`, `get_foreshadowing_hints`, `active_entries` and the anchors of the consequence service: comprehensions over the same state.
- `ConsequenceEntry` and `ConsequenceChain` fields that no operation reads (`trigger` of an entry, parents, creation times).
- ResolveChain and RevealHiddenEntry require that every listed session has its chains, which the dictionary guarantees.
- Metrics and logging everywhere; chunk contents beyond their length.
- FitChunksToBudget: token counts are unbounded integers, as in the source.
- HitIsCompleteIffHeld, HitIsCompleteIffNothingEvicted and StaleHitOmitsIff are about lifetimes that do not overlap: the counter expires with no drawn id still to be written, and the first draw after it finds the buffer expired too, as it is unless that draw falls between the two expiries of one idle period. HitOmitsWhatIsNotHeld holds without that. Scores are exact integers, which floating-point scores are up to 2^53.
- AppendEvent requires the buffer to be in id order, which a sorted set is; GetNextId and the runs have no TTL durations, a key may expire at any step.
- `decode_cursor` is modelled on the texts that `encode_cursor` can produce and rejects more malformed cursors than the library functions do (lenient base64, other ISO forms, other UUID spellings). A time without a zone cannot be compared with the column and raises; the filters' times are taken to have one.
- PagesListTheLog: needs the rows appended between pages to be newer than the log the first page met; without that, PagesNeverRepeatOrMiss states what remains.
- `create_and_append` of the audit repository, the CSV export and the admin routes beyond the next cursor.
- TurnCountIsAccurate: needs clean updates, because the code miscounts otherwise; TurnCountBalances states the books without that condition, and AccurateIffClean that it is needed. The one case that leaves open is a clearing of a turn whose count write has failed: the count stays right, but a recovery is due for nothing.
- Timestamps written along with turns and counters. Each statement takes effect at one moment, that of its commit, and a write that raises has had no effect; a submission's clearing and its insertion of the new turn are two moments, which allows more runs than their common transaction.
- The age that a turn in `processing` must have before a submission clears it: it may be cleared at any time. The units of the sweep's four ages and their default values: they are given in the unit of the clock.
- Sessions of the lifecycle sweep change only by the sweep: player activity between passes is not modelled. The commit that is skipped when no row changed has nothing to commit.
- Genesis prompts and the texts sent to the model; its replies, and whether they fail, are inputs of each request.
- `json.dumps` and the JSONB column: the dictionary is taken to come back as it was stored. Values of another shape than `to_dict` writes are rejected on reading, where the source would carry them along until they fail.
- GenesisRuns: each request is one step from load to save there; GenesisOverlaps takes the two apart. `start` is not interleaved with other requests.
- `apply_seed_composition`: not called by the source.
