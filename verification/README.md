# 2papi: verified models

A Dafny model of the parts of the 2papi gateway and its control plane whose promises span whole
runs, and proofs of those promises. `dafny verify dfyconfig.toml` checks everything.

| part | files |
|---|---|
| response cache with near-duplicate lookup | `WordOverlap`, `CacheState`, `CacheRuns`, `CacheLoading`, `ResponseCache` |
| per-key metering: slots, request and token buckets, spend ledgers | `Metering`, `MeteringRuns`, `RequestRate`, `BucketHistory`, `SpendLedgers`, `LateCalls`, `SlotDiscipline`, `Admission` |
| routing and failover | `Resilience`, `FailoverRuns`, `Endpoint`, `AttemptLoops`, `StableSorting`, `Router`, `RoutePlan` |
| fallback graph | `FallbackGraph` |
| snapshot publish, adopt, acknowledge | `SnapshotStore`, `SnapshotProtocol`, `SnapshotRecords`, `SnapshotSecrets` |
| canonical JSON | `JsonString`, `JsonNumber`, `KeyOrder`, `CanonicalJson` |
| event delivery and prepaid ledger | `Recorder`, `EventLedger` |

`Wrappers`, `Lexicographic` and `Sums` hold shared definitions.

Objects that the source updates in place are classes whose methods are proved against functions of
the old state. Protocols are state machines over atomic steps (one critical section or one
transaction each); their theorems hold for every run, that is for every interleaving. Time is a
real number; money is a real number in the gateway and whole micro-dollars in the control plane's
tables; hashes are injective.

Every lemma switches automatic induction off: inductions are the recursive calls that are written.

## What does not hold

Some promises one would expect are false of the code. Each has a counterexample and the exact
condition under which it holds.

- A cache `get` whose halves are apart removes a live entry exactly when the key was stored again in
  between, the entry read has expired by the end and the one stored last has not
  (`CacheRuns.GetRemovesLiveIff`, `CacheRuns.GetCanDropFreshEntry`).
- Loading a cache file over a non-empty cache can leave keys in the map that no list names. Every order
  of the keys is safe exactly when the cache was empty, or every key it held is a live key of the file
  and the live keys leave room (`CacheLoading.LoadsConsistentlyIff`, `CacheLoading.EmptyFileLosesKey`).
- The effective team budget is the least positive cap exactly when the team budget is not negative
  or no other cap is positive (`Metering.EffectiveBudgetIsLeastPositiveIff`,
  `Metering.NegativeTeamBudgetIsUnlimited`).
- A record holds what was committed to its window, when calls take effect out of the order of their
  clocks, exactly when no call of another window, Begin or Finalize, looked at the ledger while
  something was recorded: a call that read the clock before midnight deletes today's record
  (`LateCalls.RecordsExactIff`, `LateCalls.LateCallLosesDay`).
- The proxy never gives back a slot taken before a rate or budget refusal: a key is closed for good
  exactly when as many slots have leaked as it has (`SlotDiscipline.ClosedForGoodIff`,
  `SlotDiscipline.TwoQuickRequestsCloseKey`).
- The MCP handler finalizes refused calls: the slots in use stay right exactly when the refusal was not
  for concurrency, and otherwise K + 1 requests can be live (`SlotDiscipline.FinalizedRefusalIff`,
  `SlotDiscipline.FinalizingRefusalBreaksCap`).
- The control plane's fallback check passes exactly the lists with known fallbacks and no
  first-fallback cycle, the gateway's exactly the acyclic ones; a cycle through second fallbacks tells
  them apart (`FallbackGraph.ValidateFallbackChains`, `FallbackGraph.SecondEdgeCycleIsMissed`).
- A client that stays connected can be left without any response: exactly when a reached attempt
  fails with a context error of its own, or its upstream answers with a status below 100, which the
  HTTP server refuses with a panic (`Endpoint.OneResponseIff`, `Endpoint.DeadlineOfUpstreamIsSilent`).
- Such a panic also leaves the slot taken, since its release is not deferred: once all requests have
  ended, no slot is taken exactly when none of them reached one (`AttemptLoops.NoSlotLeaksIff`,
  `Endpoint.LeaksIff`, `Endpoint.LowStatusLeaksSlot`).
- A gateway with something on record runs exactly that if and only if its last adoption has been stored
  and answered since; a secret replaced and put back around an adoption leaves it on the wrong snapshot
  with the right record, and its next poll does nothing (`SnapshotRecords.RunsRecordIff`,
  `SnapshotRecords.RecordCanBelieRunning`).
- The check and the insert of an acknowledgement are separate queries: what passed the check is true
  when inserted exactly if the stored secrets give the same snapshot then
  (`SnapshotProtocol.InsertedTrueIff`, `SnapshotProtocol.RotationOvertakesInsert`).
- From tables without a schema-2 version, one appears exactly by a publication with no minimum of
  active gateways set and no gateway active; with the default minimum of one it never does
  (`SnapshotProtocol.V2AppearsIff`, `SnapshotProtocol.V2NeverStarts`).
- A prepaid balance is in step with the ledger exactly when no debit was skipped since the start or the
  last reconcile, and that reconcile did not lift an overdrawn team to zero
  (`EventLedger.BalancesCover`, `EventLedger.LiftedOutOfStep`).
- Closing the event recorder is safe exactly when no `Record` call is between its check and its send
  (`Recorder.CloseIsSafeIff`, `Recorder.RecordRacesClose`).

## Model

| member | source | states |
|---|---|---|
| `WordOverlap.DistinctWords` | internal/cache/cache.go:561-575 | the words in order of first appearance: same set, none twice |
| `WordOverlap.WordSignature` | internal/cache/cache.go:583-589 | the loop computes the union of the bits of all words |
| `WordOverlap.SignatureCovers` | internal/cache/cache.go:577-589 | a word of the list always has its bit in the signature, for any non-zero assignment of bits, so there are no false negatives |
| `WordOverlap.CountBits` | internal/cache/cache.go:484-489 | the number of query bits found in a signature is at least the size of the true intersection |
| `WordOverlap.PruneIsSound` | internal/cache/cache.go:612-622 | if an upper bound of the intersection cannot reach the threshold, the Jaccard overlap is below it |
| `WordOverlap.Overlap` | internal/cache/cache.go:624-643 | one pass over distinct words computes the Jaccard overlap of the two sets |
| `ResponseCache.BestIsUnique` | internal/cache/cache.go:495-511 | highest score, smallest key on ties, threshold reached: at most one entry meets this, whatever the iteration order |
| `ResponseCache.TTLResponseCache.ScoreOrPrune` | internal/cache/cache.go:464-494 | a candidate is either scored exactly or, when a prune drops it, truly below the threshold |
| `ResponseCache.TTLResponseCache.FindSimilar` | internal/cache/cache.go:426-511 | with both prunes and any map order, returns what the unpruned scan defines: the best of the unexpired entries stored for the same, named model, or none if each of these scores below the threshold |
| `ResponseCache.TTLResponseCache.Lookup` | internal/cache/cache.go:148-174 | exact hit exactly for a live stored key; otherwise the best near-duplicate, unexpired and stored for the same, named model, or a miss, over the entries that the get has left; the cache after it is the cache after the get; exactly one counter moves |
| `ResponseCache.TTLResponseCache.constructor` | internal/cache/cache.go:58-69 | an empty, consistent cache; a non-positive size means 2048 |
| `ResponseCache.TTLResponseCache.ReadEntry` | internal/cache/cache.go:93-103 | first half of get: the stored entry, expired or not |
| `ResponseCache.TTLResponseCache.FinishRead` | internal/cache/cache.go:104-120 | second half of get: drop the key if the entry read has expired, otherwise move it to the front |
| `ResponseCache.TTLResponseCache.Get` | internal/cache/cache.go:93-120 | with nothing in between, serves exactly the live stored entries; the cache is unchanged for an absent key, without the key if it had expired, and with it in front otherwise |
| `ResponseCache.TTLResponseCache.SetWithRequest` | internal/cache/cache.go:224-279 | make room, then store the entry with distinct words and their signature in front; nothing for an empty key or a non-positive TTL |
| `ResponseCache.TTLResponseCache.Evict` | internal/cache/cache.go:231-254 | expired entries first, then from the back of the list until there is room |
| `ResponseCache.TTLResponseCache.Clear` | internal/cache/cache.go:290-299 | the empty cache |
| `ResponseCache.TTLResponseCache.LoadFromFile` | internal/cache/cache.go:320-352 | visits the keys of the file in some order and does exactly what loading in that order means |
| `CacheLoading.AnyOrderLoads` | internal/cache/cache.go:335-350 | in every order: list and index hold live keys of the file, normalised, nothing live is left out while there is room, the size bound holds, entries already in memory stay |
| `CacheLoading.LoadsConsistentlyIff` | internal/cache/cache.go:335-350 | every order leaves the cache consistent exactly when it was empty, or every key it held is a live key of the file and the live keys are fewer than the size bound |
| `CacheLoading.EmptyFileLosesKey` | internal/cache/cache.go:335-350 | an empty file loaded over one entry leaves a key in the map that no list names |
| `CacheState.MakeRoomDrops` | internal/cache/cache.go:231-254 | a full cache drops exactly its expired entries, or the last of the list if none has expired; afterwards there is room |
| `CacheState.SetKeepsInv` | internal/cache/cache.go:224-279 | storing keeps map, index and list equal and duplicate-free, the size bound, and signed word sets |
| `CacheState.FinishGetKeepsInv` | internal/cache/cache.go:104-120 | finishing a get keeps the same invariant, whatever happened since its first half |
| `CacheRuns.EveryRunKeepsInv` | internal/cache/cache.go:93-299 | in every interleaving of critical sections from the empty cache: same keys everywhere, none twice, at most maxSize, signed word sets, list ordered by last touch |
| `CacheRuns.FullSetDropsLeastRecent` | internal/cache/cache.go:224-279 | in every reachable state a Set drops others only when full: exactly the expired ones, or else the single least recently touched one |
| `CacheRuns.GetRemovesLiveIff` | internal/cache/cache.go:97-112 | a get with any steps of other threads between its halves removes a live entry exactly when they stored the key again, the entry read has expired and the one stored last has not, and nobody removed that one |
| `CacheRuns.GetCanDropFreshEntry` | internal/cache/cache.go:97-112 | three steps in which a get removes an entry stored while it was waiting for the write lock |
| `Metering.Auth.Begin` | internal/policy/policy.go:141-237 | slot, request bucket, token bucket and budgets in order; a refusal keeps what earlier stages changed; Admission.VerdictIs says what it answers in terms of the run alone |
| `BucketHistory.RequestPassesIff` | internal/policy/policy.go:159-182 | after any run, with clocks in any order, a call of a key with rate r that has its slot passes the RPM stage exactly when r >= 1 and, for every earlier use of the bucket, the requests let through from then on and this one are at most r + r*T, T the minutes since that use |
| `BucketHistory.TokensPassIff` | internal/policy/policy.go:183-279 | after any run a call past the RPM stage passes the TPM stage exactly when, for every earlier use of the bucket, the tokens charged from then on leave at least one of r + r*T |
| `BucketHistory.OnlyDrawsMatter` | internal/policy/policy.go:159-204 | when clocks move forward only the windows that start at a request let through, or at a charge, matter: a call that took nothing changes no later answer |
| `Admission.VerdictIs` | internal/policy/policy.go:141-237 | after every disciplined run Begin answers exactly: no slot while live and leaked requests fill the cap; rate limited when some window since a request let through, or since a charge, has no room for one more; over budget when the commits of the key in this day or month reach its budget or share, or those of its team this day the effective budget; otherwise admitted |
| `Admission.KeyTotal` | internal/policy/policy.go:112-120 | what the current window of a key ledger adds up is what the key committed in the same calendar month for a monthly budget, and on the same day otherwise |
| `Admission.DayIff` | internal/policy/policy.go:112-120 | a day of the ledgers is 86400 seconds, counted from the epoch |
| `Metering.Auth.CheckBudgets` | internal/policy/policy.go:205-236 | key budget, effective team budget, then team share, each against the ledger of the current window |
| `Metering.Auth.Finalize` | internal/policy/policy.go:253-300 | releases a slot if any is held; a committed request charges tokens, key ledger and team ledger |
| `Metering.Auth.SpendFor` | internal/policy/policy.go:302-312 | the record of the current window; one of another window is deleted and counts as nothing |
| `Metering.Auth.TeamSpendFor` | internal/policy/policy.go:239-251 | the same for the team ledger |
| `Metering.EffectiveBudgetIsLeastPositiveIff` | internal/policy/policy.go:127-139 | the enforced budget is the least positive of team, organisation and balance caps exactly when the team budget is not negative or no other cap is positive; a negative team budget is returned as it is, and so never enforced |
| `Metering.NegativeTeamBudgetIsUnlimited` | internal/policy/policy.go:127-139 | a negative team budget switches the other caps off |
| `MeteringRuns.OtherKeysUntouched` | internal/policy/policy.go:62-70 | a call changes nothing recorded under another key |
| `MeteringRuns.KeyLimitsHold` | internal/policy/policy.go:148-284 | in every disciplined run a key with concurrency K has at most K slots taken, its token bucket is at least 1 - K*M, and its recorded spend is strictly below budget + K*C, across day and month rollovers |
| `RequestRate.RequestRateHolds` | internal/policy/policy.go:159-182 | after any history and over any interval of T minutes at most r + r*T requests pass the RPM stage, and the bucket stays within 0 and r |
| `SpendLedgers.KeyLedgerIsExact` | internal/policy/policy.go:280-284 | in every disciplined run the record of a key for the current day or month is the sum of the costs it committed in it |
| `SpendLedgers.TeamLedgerIsExact` | internal/policy/policy.go:285-299 | in every disciplined run, whatever ledgers the keys have, the record of a team for the current day is the sum of the costs all its keys committed that day |
| `SpendLedgers.TeamLimitHolds` | internal/policy/policy.go:216-299 | in every disciplined run the team record stays strictly below the effective budget plus C for every slot its keys have together |
| `LateCalls.ReadingRightIff` | internal/policy/policy.go:205-299 | one call, Begin or Finalize, leaves the reading of a key or team window right exactly when it is of that window, or does not look at the ledger, or nothing is recorded for the window |
| `LateCalls.RecordsExactIff` | internal/policy/policy.go:205-312 | in every run, in any order of clocks, a record never exceeds what was committed to its window, and equals it exactly when no call of another window looked at the ledger while something was recorded |
| `LateCalls.LateCallLosesDay` | internal/policy/policy.go:239-251 | after a request of today that cost 7, a Begin or a commit that read the clock before midnight leaves the record of today at 0 |
| `LateCalls.LateBeginIsAdmitted` | internal/policy/policy.go:216-226 | the late Begin gets past the team budget, because it asks for yesterday |
| `SlotDiscipline.LeaksOnlyGrow` | internal/proxy/proxy.go:568-588 | in every run of the proxy, slots taken by refused requests are never given back |
| `SlotDiscipline.ClosedIffLeaked` | internal/proxy/proxy.go:568-588 | in every run of the proxy a key is closed exactly when live requests and leaked slots together take all its slots; with no live request, exactly when refusals have leaked them all |
| `SlotDiscipline.ClosedForGoodIff` | internal/proxy/proxy.go:568-588 | no later run of the proxy opens the key exactly when as many slots have leaked as it has |
| `SlotDiscipline.TwoQuickRequestsCloseKey` | internal/proxy/proxy.go:568-588 | a key with one slot and one request a minute is closed by two quick requests |
| `SlotDiscipline.FinalizedRefusalIff` | internal/mcp/mcp.go:70-74 | a refused call and its Finalize leave the slots in use as they were exactly when the refusal was not for concurrency |
| `SlotDiscipline.FinalizingRefusalBreaksCap` | internal/mcp/mcp.go:70-74 | for every K: with K calls admitted, one refused and finalized, and one more call, K + 1 requests are live |
| `Resilience.State.CircuitOpen` | internal/resilience/state.go:39-52 | an opening older than the reset is forgotten together with the failures; a closed answer means no opening is recorded |
| `Resilience.State.LockedOut` | internal/resilience/state.go:54-73 | locked until the recorded time has passed; undisturbed, a past record is removed |
| `Resilience.SweepIsInvisible` | internal/resilience/state.go:60-69 | whatever happened between the two sections of the lockout check, the second changes no later answer: a lockout set in between survives it |
| `Resilience.LockoutLasts` | internal/resilience/state.go:75-82 | an account is locked exactly until the lockout has passed, through any sweep in between; a non-positive lockout changes nothing |
| `Resilience.State.Failure` | internal/resilience/state.go:96-104 | counts a failure and records the circuit open from the threshold on |
| `Resilience.State.Success` | internal/resilience/state.go:106-118 | resets the failures and averages the latency |
| `Resilience.State.TryAcquire` | internal/resilience/state.go:120-128 | takes a slot unless the positive cap is reached |
| `Resilience.State.Release` | internal/resilience/state.go:130-136 | gives a slot back if any is taken |
| `Resilience.LatencyBetween` | internal/resilience/state.go:111-117 | the averaged latency stays between the samples it averages |
| `FailoverRuns.ActiveIsHolders` | internal/resilience/state.go:120-136 | in every interleaving the active count of an account is the number of requests holding one of its slots, attempts and probes alike, and stays within the cap |
| `FailoverRuns.InterleavingIsRun` | internal/proxy/proxy.go:602-676 | requests whose own calls are in order form a run of the shared system in every interleaving |
| `Endpoint.LoopObeys` | internal/proxy/proxy.go:590-684 | for every script the calls of the loop, probes and cut candidates included, are in order: a slot is taken only for an account in hand and given back before anything else, and at the end nothing is in hand but the slot of an attempt that panicked |
| `AttemptLoops.LoopsAreSafe` | internal/proxy/proxy.go:590-684 | any number of loops over any scripts in any interleaving: active equals holders and stays within the cap, a count at F means the circuit is recorded open, with K live entries the count stays within F - 1 + K and a lockout at L fires only if K >= L - F + 1 |
| `AttemptLoops.NoSlotLeaksIff` | internal/proxy/proxy.go:605-613 | once every request has made all its calls, in any interleaving, no slot of an account is taken exactly when no request reached an attempt on it that panicked |
| `FailoverRuns.LockoutFollowsCount` | internal/proxy/proxy.go:667-668 | after a counted failure the account is locked out for the configured time exactly when the limit is set and reached; otherwise its lockout stays as it was |
| `FailoverRuns.FailuresAreBounded` | internal/resilience/state.go:96-104 | with at most K live plan entries of an account: a count at F means the circuit is recorded open, the count never exceeds F - 1 + K, and a lockout at L fires only if K >= L - F + 1 |
| `AttemptLoops.BoundIsReached` | internal/proxy/proxy.go:663-676 | for every F and K there is an interleaving of attempt loops with K live entries whose count reaches F - 1 + K, so the lockout does fire for L up to that |
| `FailoverRuns.NoLockoutOneAtATime` | internal/proxy/proxy.go:663-676 | with requests one at a time, each account once per plan, and L > F, the lockout never fires |
| `Endpoint.Try` | internal/proxy/proxy.go:766-918 | status and commit of an attempt, or a panic, for every upstream outcome; an attempt that returns uncommitted sends nothing and adds no headers |
| `Endpoint.Settle` | internal/proxy/proxy.go:626-676 | after an attempt: success is credited, a committed failure ends the loop, 429 cools the account, anything else is counted as a failure, with exactly the calls each needs |
| `Endpoint.RunPlan` | internal/proxy/proxy.go:602-677 | the loop over one plan stops at the first visit it does not pass and makes exactly the calls of the visits up to there |
| `Endpoint.Serve` | internal/proxy/proxy.go:590-684 | for every script: exactly the response owed and at most one, no visit after the stop, headers only from the attempt committed to (or panicking), cooled and failed accounts exactly those given up on, and exactly the calls into the account state that the script asks for |
| `Endpoint.Reply` | internal/proxy/proxy.go:590-684 | the response owed is at most one: 503 without a first plan, the reply of the first visit not passed, 502 if all were passed and the client is there |
| `Endpoint.OneResponseIff` | internal/proxy/proxy.go:787-791 | a client that stays gets exactly one response unless a reached attempt fails with a context error of its own or answers with a status below 100 |
| `Endpoint.LeaksIff` | internal/proxy/proxy.go:611-613 | the loop leaves a slot taken exactly when a reached attempt answers with a status below 100 |
| `Endpoint.LowStatusLeaksSlot` | internal/proxy/proxy.go:903-904 | an upstream that answers with status 42 leaves the client without a response and the slot taken |
| `Endpoint.DeadlineOfUpstreamIsSilent` | internal/proxy/proxy.go:787-791 | an attempt running into its own deadline ends the request without a response |
| `Endpoint.ChargedIffClientStays` | internal/proxy/proxy.go:626-640 | for every script: a charged request got a response of its own, and a response of an attempt is charged exactly if the client is still there afterwards and the status is at least 200 |
| `StableSorting.AnyStableSort` | internal/router/router.go:92-117 | sorted with every group of ties as it was: exactly one result, so the sorting algorithm does not matter |
| `Router.Check` | internal/router/router.go:49-53 | the five checks of one account decide by the state they start in; everything the orders sort by, the cooldowns and the slots stay, and only worn circuits and past lockouts may go |
| `Router.Candidates` | internal/router/router.go:47-54 | the candidate loop selects exactly the usable accounts in declared order, gives every probe slot back, and changes nothing else that is not over |
| `Router.ComparisonIsOrder` | internal/router/router.go:92-117 | the comparison of every strategy is a strict weak order |
| `Router.BeforeIsRank` | internal/router/router.go:92-259 | each comparison is the left-to-right order of the key its strategy names |
| `Router.MoveToFront` | internal/router/router.go:75-80 | despite shifting in place the result is the chosen account followed by the others in order |
| `Router.PowerOfTwoChoices` | internal/router/router.go:126-158 | of two distinct draws the one with fewer requests in flight first, or the lower latency among equals, the first draw if both tie; the other second, the rest in order; a permutation |
| `Router.AdaptiveIsLoad` | internal/router/router.go:234-262 | the adaptive comparison in whole numbers: 1000 for a request in flight, 1 for a millisecond of latency (50 while none is known), 50 off for a unit of weight; then the smaller priority number |
| `Router.AdaptivePrefers` | internal/router/router.go:234-262 | with everything else equal fewer requests in flight, a latency lower by a whole millisecond, or a higher weight comes first, and an unknown latency ranks as 50 ms |
| `Router.AdaptiveExchange` | internal/router/router.go:234-262 | one request in flight outweighs exactly up to 999 ms of latency or up to 19 of weight, and one of weight up to 49 ms |
| `RoutePlan.AdaptivePlanByLoad` | internal/router/router.go:234-262 | in the full order of an adaptive route an earlier account has no more load than a later one, and no larger priority number when the loads are equal |
| `RoutePlan.SortingPlanByRank` | internal/router/router.go:92-118 | in the full order of a sorting strategy an earlier account never has the larger key |
| `RoutePlan.Reweigh` | internal/router/router.go:55-62 | the loop gives every candidate with a positive per-source weight that weight and leaves the others as they are |
| `RoutePlan.RouterState.Plan` | internal/router/router.go:43-124 | the plan is the eligible accounts, reweighted, in the order of the sticky account or the strategy by the account state found at the start, cut to the attempt limit except for quota failover; only the round-robin cursor moves, and of the account state only what is over goes |
| `RoutePlan.OrderSame` | internal/router/router.go:47-118 | looking for candidates changes no order |
| `RoutePlan.RouterState.ApplyLastGood` | internal/router/router.go:160-173 | the last good account first if it is a candidate, otherwise balanced order |
| `RoutePlan.StuckAccountLeads` | internal/router/router.go:69-82 | a client that committed to an account gets it first under every strategy but round robin, quota failover, power of two choices and adaptive, exactly until the sticky time has passed and while the account is a candidate; otherwise the strategy decides alone |
| `RoutePlan.ProvenAccountLeads` | internal/router/router.go:160-182 | the account committed as last good leads the next plan of its alias if it is a candidate; otherwise the order is balanced |
| `RoutePlan.PlanIsCutPermutation` | internal/router/router.go:120-124 | every plan is the beginning of a permutation of the candidates, cut to the limit, duplicates preserved, uncut for quota failover |
| `RoutePlan.SortingPlanIsStableSort` | internal/router/router.go:92-118 | without a sticky account a sorting strategy yields exactly the stable sort by its key |
| `RoutePlan.RoundRobinIsFair` | internal/router/router.go:84-89 | any k consecutive round-robin plans over n unchanged candidates put each position first floor(k/n) or ceil(k/n) times, below the 64-bit wrap of the cursor |
| `FallbackGraph.BuildPassesIffAcyclic` | internal/config/config.go:542-554 | a model list passes the cycle check exactly when its fallback graph has no cycle |
| `FallbackGraph.CycleSearch.ModelFallbackCycle` | internal/config/config.go:630-649 | the recursive search terminates, restores its path set, and computes the specified depth-first search |
| `FallbackGraph.FallbacksAre` | internal/config/config.go:630-649 | the edges the searches follow are the fallbacks listed for each model |
| `FallbackGraph.FoundIsCycle` | internal/config/config.go:630-649 | an alias the search names lies on a cycle |
| `FallbackGraph.CheckCycles` | internal/config/config.go:542-554 | the loop over all models reports nothing exactly on acyclic lists, and otherwise an alias on a cycle |
| `FallbackGraph.ValidateFallbackChains` | control-plane/lib/snapshots.ts:187-206 | passes exactly the lists whose fallbacks are all known and whose first fallbacks form no cycle |
| `FallbackGraph.FollowFirst` | control-plane/lib/snapshots.ts:195-204 | following first fallbacks from one model finds a cycle or proves there is none from it |
| `FallbackGraph.AcyclicIsFirstAcyclic` | control-plane/lib/snapshots.ts:187-206 | what passes the gateway's check passes the control plane's |
| `FallbackGraph.SecondEdgeCycleIsMissed` | control-plane/lib/snapshots.ts:187-206 | a cycle through a second fallback passes the control plane and not the gateway |
| `FallbackGraph.ModelChain` | internal/proxy/proxy.go:686-702 | the first-fallback path without repeats, at most 9 long; on acyclic lists the unguarded path, so the seen guard never fires |
| `SnapshotStore.StoredDraftIsNext` | control-plane/lib/control.ts:194-206 | a stored draft is what the next publication takes, and changes nothing published |
| `SnapshotStore.ControlPlane.AssertSchemaV2Publishable` | control-plane/lib/control.ts:275-284 | passes exactly if enough gateways are active and each has adopted a v2 snapshot last |
| `SnapshotStore.ControlPlane.PublishLatest` | control-plane/lib/control.ts:200-211 | publishes the newest draft above every published version, or one compiled on the spot; a refusal changes nothing |
| `SnapshotStore.PublishRaises` | control-plane/lib/control.ts:200-211 | a publication strictly raises the highest published version and publishes only that one |
| `SnapshotStore.PublishRefusedIff` | control-plane/lib/control.ts:200-211 | a publication is refused exactly when its version has schema 2 or its configuration needs it, and the gate is shut |
| `SnapshotStore.HeartbeatDecides` | control-plane/lib/control.ts:215-217 | a heartbeat keeps the gateway active for exactly the time to live and decides the form of its next envelope |
| `SnapshotStore.ControlPlane.SnapshotEnvelope` | control-plane/lib/snapshot-envelope.ts:8-65 | records the advertised capability, then answers with the highest published version, its identity and, for exactly its accounts, the secrets stored now, in the legacy form as in the full one |
| `SnapshotStore.EnvelopeCarries` | control-plane/lib/snapshot-envelope.ts:39-64 | whatever its form, an envelope carries the configuration of the highest published version and for exactly its accounts the secrets stored now, in the full form with revisions and MCP headers; there is one exactly when something is published, the gateway can take the form and every account has a credential |
| `SnapshotStore.ChangeReachesEnvelope` | control-plane/lib/snapshots.ts:208-251 | a rotation or an edit of a secret reaches the very next envelope, for that account alone; only a rotation raises the revision |
| `SnapshotStore.ControlPlane.PersistGatewayAck` | control-plane/lib/control.ts:219-273 | a v2 acknowledgement is stored only if capability, publication and all four identity parts match |
| `SnapshotStore.DigestsAgree` | control-plane/lib/snapshots.ts:10-23 | the digest taken from a materialised snapshot is the one taken from the accounts table |
| `SnapshotProtocol.EveryAckIsTrue` | control-plane/lib/control.ts:231-252 | in every run, each stored v2 adopted acknowledgement named a version published then, whose materialisation then was the snapshot the gateway held; check and insert are one step here, although the code runs them as separate queries outside a transaction |
| `SnapshotProtocol.InsertedTrueIff` | control-plane/lib/control.ts:241-272 | with other steps between check and insert, the acknowledgement is true when inserted exactly if the stored secrets give the same snapshot then |
| `SnapshotProtocol.RotationOvertakesInsert` | control-plane/lib/control.ts:241-272 | a rotation of one of its accounts between check and insert makes the stored acknowledgement untrue |
| `SnapshotProtocol.AcceptedIffUnchanged` | control-plane/lib/control.ts:231-252 | a v2 adoption is accepted exactly when the capability on record covers it and the stored secrets still give the gateway's snapshot |
| `SnapshotProtocol.RotationRefusesAck` | control-plane/lib/control.ts:241-251 | a rotation between fetch and acknowledgement, amid any other steps, makes the acknowledgement refused: nothing stored, recorded identity unchanged |
| `SnapshotProtocol.FetchedIsAccepted` | control-plane/lib/snapshot-envelope.ts:48-64 | an acknowledgement right after the fetch is accepted exactly when the schema is one the gateway advertises |
| `SnapshotProtocol.PollRecords` | cmd/gateway/main.go:426-448 | an undisturbed poll leaves the gateway with the identity of the envelope on record, and running its snapshot exactly if that identity was not on record before or the snapshot ran already |
| `SnapshotSecrets.PollTakesStoredSecrets` | cmd/gateway/main.go:426-448 | an undisturbed poll that finds an identity not on record leaves the gateway running the highest published version with exactly the secrets stored at the fetch, in the legacy form for schema 1 and the full one otherwise, whatever becomes of the acknowledgement |
| `SnapshotSecrets.RunningWasStored` | cmd/gateway/main.go:426-448 | in every run what a gateway runs was at one moment of the run the configuration of a version published then with exactly the secrets stored at that same moment |
| `SnapshotRecords.RunsRecordIff` | cmd/gateway/main.go:440-447 | in every run a gateway with something on record runs exactly that if and only if its last adoption has been stored and answered since |
| `SnapshotRecords.InTunePollRuns` | cmd/gateway/main.go:426-448 | a poll of a gateway that runs what it has on record leaves it on the published snapshot |
| `SnapshotRecords.RecordCanBelieRunning` | cmd/gateway/main.go:440-446 | a secret replaced, adopted, and put back before the acknowledgement leaves the gateway on the wrong snapshot with the right record, and its next poll leaves it so |
| `SnapshotRecords.RotatingPollRuns` | cmd/gateway/main.go:426-448 | in every run that changes credentials only by rotation, a poll of the v2 form leaves the gateway on the published snapshot, whatever acknowledgements were refused or lost |
| `SnapshotProtocol.PollsConverge` | cmd/gateway/main.go:426-448 | with no change in between the next poll is a no-op |
| `SnapshotProtocol.Poller.AdoptOnce` | cmd/gateway/main.go:426-448 | heartbeat, fetch, adopt and acknowledge in sequence are exactly one poll, and leave schemas 1 and 2 with envelope 2 advertised |
| `SnapshotProtocol.VersionsOnlyGoUp` | cmd/gateway/main.go:412-424 | in every run the version a gateway runs never falls, published versions stay published, and a version passed over is never published |
| `SnapshotProtocol.V2NeverStarts` | control-plane/lib/control.ts:275-284 | with a minimum of one active gateway, tables without a v2 version never get one |
| `SnapshotProtocol.FirstV2Gate` | control-plane/lib/control.ts:275-284 | with no v2 acknowledgement stored, the gate opens exactly when no minimum is set and no gateway is active |
| `SnapshotProtocol.V2AppearsIff` | control-plane/lib/control.ts:200-211 | in every run from tables without v2, one is published or acknowledged exactly if the run holds a publication of one with no minimum set and no gateway active |
| `JsonString.StringRoundTrip` | control-plane/lib/canonical-json.ts:4-4 | reading a quoted string gives the string back, with whatever follows |
| `JsonString.UnitSpelling` | control-plane/lib/canonical-json.ts:4-4 | which units are written as themselves, which by a two-character escape, and which by four lower-case hexadecimal digits |
| `JsonString.EscapeSplits` | control-plane/lib/canonical-json.ts:4-4 | a string is written piece by piece, as long as no surrogate pair is split |
| `JsonNumber.LayoutForm` | control-plane/lib/canonical-json.ts:5-8 | a number is written with an exponent exactly below 10^-6 and from 10^21 on, and with a point exactly where digits follow it |
| `JsonNumber.NumberRoundTrip` | control-plane/lib/canonical-json.ts:5-8 | reading a printed number gives the number back, zero unsigned |
| `Lexicographic.LessIff` | control-plane/lib/canonical-json.ts:12-12 | the key order is: a proper prefix first, otherwise the smaller element where two keys first differ |
| `CanonicalJson.PrintedInKeyOrder` | control-plane/lib/canonical-json.ts:10-13 | the members read back from the text of an object are its members, in ascending order of their keys by UTF-16 code units, written out |
| `KeyOrder.SortedAgree` | control-plane/lib/canonical-json.ts:10-13 | sorting by key makes two member lists agree in order exactly when they agree by key |
| `CanonicalJson.PrintRoundTrip` | control-plane/lib/canonical-json.ts:3-15 | a reader recovers the canonical value from the printed text followed by any legal continuation |
| `CanonicalJson.SameTextIffSameValue` | control-plane/lib/canonical-json.ts:3-15 | two values print to the same text exactly when they are the same up to member order and the sign of zero |
| `CanonicalJson.ReorderingKeepsText` | control-plane/lib/canonical-json.ts:10-13 | reordering members never changes the text |
| `CanonicalJson.PrintsIffExpressible` | control-plane/lib/canonical-json.ts:5-14 | the printer throws exactly on non-finite numbers and unsupported types anywhere in the value |
| `CanonicalJson.PrintedTextIsWellFormed` | control-plane/lib/canonical-json.ts:3-15 | the text never holds an unpaired surrogate, so hashing its bytes loses nothing |
| `EventLedger.Ledger.StoreRequestEvents` | control-plane/lib/request-events.ts:67-135 | stores the events that are new, adds exactly those to the daily totals and charges them to teams with a positive balance |
| `EventLedger.BatchAddsNew` | control-plane/lib/request-events.ts:75-98 | what a batch adds to any total over the table is the total of its new events |
| `EventLedger.TotalsAreExact` | control-plane/lib/request-events.ts:99-110 | in every run the daily totals of a key are the sums over its distinct successful stored events |
| `EventLedger.RowsCountEvents` | control-plane/lib/request-events.ts:99-110 | in every run the row of a key and day holds the number, the cost and the tokens of the stored events that succeeded for that key on that day |
| `EventLedger.RowsExistIff` | control-plane/lib/request-events.ts:99-110 | in every run there is such a row exactly when there is such an event |
| `EventLedger.TeamSpendIs` | control-plane/lib/balance.ts:15-35 | what counts as spend of a team is the cost of the stored events that succeeded for its keys |
| `EventLedger.DeliveryOrderIsIrrelevant` | control-plane/lib/request-events.ts:75-110 | runs that deliver the same events in any batches, order and number of times end with the same daily totals |
| `EventLedger.Ledger.CreditPayment` | control-plane/lib/webhooks.ts:80-92 | a payment is recorded and credited together, once |
| `EventLedger.CreditedOnce` | control-plane/lib/webhooks.ts:80-92 | after any later run a credited payment is unchanged and crediting it again does nothing |
| `EventLedger.Ledger.ReconcileTeamBalances` | control-plane/lib/balance.ts:9-44 | sets every balance to the larger of the ledger and zero; counts all teams and exactly those more than a micro-dollar apart |
| `EventLedger.ReconcileTwice` | control-plane/lib/balance.ts:15-35 | a second reconcile in a row finds nothing to do |
| `EventLedger.BalanceStep` | control-plane/lib/request-events.ts:115-125 | one step keeps the balance at or above the ledger; from equality, exactly a skipped debit or a lifting reconcile breaks it; only a reconcile that does not lift restores it |
| `EventLedger.BalancesCover` | control-plane/lib/request-events.ts:115-125 | in every run the live balance is at least credits minus successful spend, and equal exactly when no debit was skipped since the start or the last reconcile, and that one did not lift |
| `EventLedger.LiftedOutOfStep` | control-plane/lib/balance.ts:15-35 | a top-up of 5, one request of 8 and a reconcile leave a balance of 0 where the ledger says -3 |
| `Recorder.RunLoop` | internal/telemetry/telemetry.go:155-186 | every arrival is handed to the publisher once, in order, in batches of 1 to the batch size |
| `Recorder.NothingIsLost` | internal/telemetry/telemetry.go:114-186 | in every interleaving accepted = published + gathered + queued in order, dropped counts exactly the events refused by a full queue, and nothing is left when the loop has ended |
| `Recorder.LoopEndsExactly` | internal/telemetry/telemetry.go:171-186 | in every run from a closed channel the loop receives at most once per queued event and once more, has ended exactly when it did so, and can go on until then |
| `Recorder.CloseIsSafeIff` | internal/telemetry/telemetry.go:114-153 | closing never leads to a panic exactly when no caller is between its check and its send |
| `Recorder.RecordRacesClose` | internal/telemetry/telemetry.go:114-153 | a run in which a caller sends on the closed channel |
| `Recorder.AsyncRecorder.Record` | internal/telemetry/telemetry.go:114-123 | an undisturbed call enqueues, or counts a drop if the queue is full, or does nothing once closed |
| `Recorder.AsyncRecorder.Close` | internal/telemetry/telemetry.go:139-153 | closes once |
| `Recorder.AsyncRecorder.Drain` | internal/telemetry/telemetry.go:155-186 | after closing, the loop publishes everything accepted and ends |

## Left out

- Extracting the words and the hash of a request body, cache keys, stored headers and hit history: inputs of the cache model.
- Floating point: overlap scores, tokens, costs and routing scores are real numbers.
- The per-request "remaining" headers of the policy gate, and the hashing of keys to shards: the shards are one map, because a key lives in one shard.
- MeteringRuns.KeyLimitsHold: assumes that calls of all keys take effect in the order of their clock readings, as do SpendLedgers.KeyLedgerIsExact, SpendLedgers.TeamLedgerIsExact and SpendLedgers.TeamLimitHolds; the code reads the clock before it takes a lock, and LateCalls says what a late Begin or Finalize does to the ledgers. Only requests that were admitted commit a cost, as both callers do.
- RequestRate.RequestRateHolds: r is the rate the bucket was created with; a later change of the key's rate does not reach an existing bucket in the code, and configurations are fixed in the model's runs.
- BucketHistory.RequestPassesIff: the rate is the configured one, as for RequestRate.RequestRateHolds; the same holds for BucketHistory.TokensPassIff.
- Admission.VerdictIs: calls take effect in the order of their clocks, as for MeteringRuns.KeyLimitsHold; BucketHistory needs no such order for the buckets, and LateCalls says what happens to the ledgers without it.
- SpendLedgers.TeamLimitHolds: all keys of a team carry the same effective budget and a concurrency cap; adoption of a new snapshot during a run is not a step.
- RoutePlan.RouterState.Plan: states the order for undisturbed reads; a comparison that reads the shared state while other requests change it is not modelled (AttemptLoops covers slots and failures under interleaving).
- Router.Candidates: one clock reading for the whole loop.
- Resilience.State.LockedOut: the method runs its two sections back to back; SweepIsInvisible is about any state in between. Lockouts take no part in the interleaving theorems.
- Endpoint.Serve: what the planner probes, keeps and cuts is part of the script (IsScript ties them together); body translation, compression, caching of the response, telemetry fields and usage parsing are not modelled. An upstream status is any integer; a status from 100 to 199 is what the response is started with, and the HTTP server completes it with a final one.
- The other checks of configuration building, and the resolution of per-source upstream models and prices.
- SnapshotStore.ControlPlane.PersistGatewayAck: one atomic step, and so SnapshotProtocol.EveryAckIsTrue; the route issues its queries outside a transaction (SnapshotProtocol.InsertedTrueIff).
- Deleting accounts, the history migration that rewrites old versions, the transport of the envelope and building the configuration from it (a flag says whether it builds).
- CanonicalJson.PrintRoundTrip: finding the shortest decimal of a double is the engine's job; sparse arrays and objects with custom enumeration are not modelled.
- EventLedger.TotalsAreExact: the purge of events older than 30 days, team changes of keys and manual balance adjustments are not steps.
- Recorder.NothingIsLost: a publisher error loses its batch in the code; publishing here means handing the batch over.
- Adapters, transports, cryptography, the SSE and Anthropic translations, compression, the dashboard and the terminal interface.
