# Verified model of the inference control plane

The gateway accepts chat completion requests, picks a provider for each, falls back to others when one fails, and
keeps count of what happened. This project models its admission, routing, fallback, budget, caching, accounting and
load-evaluation machinery in Dafny and proves laws about whole runs of it, under every interleaving of calls.

The shape follows the source. Code that updates fields is a class (`CircuitBreaker`, `TokenBucket`,
`ProviderRuntime`, `RoutingEngine`, `MemoryKeyValue`, `ResilientKeyValue`, `ExactResponseCache`, `IdempotencyStore`,
`SessionBudget`, `Telemetry`), loops are loops (`RunFallback`, `AggregateRuns`), and each method's `ensures` equates
the new state with a step function on values. The theorems are lemmas about those step functions: about every finite
sequence of steps, with no bound on its length. Time, tokens, scores and money are exact reals, and the clock does not
go back.

| module | what it is about |
|---|---|
| `Contracts` | requests, descriptors and results |
| `Breaker`, `Bucket` | the two admission guards, each against a specification that knows nothing of its fields |
| `Runtime`, `Admission` | breaker, bucket and bulkhead composed around calls in flight, and admission as a function of history |
| `Recovery`, `Overlap` | when recovery works and when calls outlive an opening, exactly |
| `Routing`, `RoutingTheorems` | provider selection, and what it promises on the fields of requests and providers |
| `RoundRobin`, `AdaptivePolicy`, `Preference` | the policies |
| `Fallback`, `FallbackTheorems` | the retry loop and what its attempt path is |
| `KeyValue`, `ResponseCache`, `Idempotency` | lazy expiry, cache hits, and which requests share a record |
| `Budget` | the Bedrock session budget under interleaved and cut-off calls |
| `Telemetry`, `Gateway`, `Accounting` | counters, the endpoint, and conservation between requests and counters |
| `Service`, `ServiceHistory` | any number of requests in progress on one backend, index and telemetry, as one machine, and its history |
| `Replays`, `CostCeiling` | what replays and costs are in every run of that machine |
| `Percentiles`, `LoadReport`, `LoadTheorems`, `LoadPool` | evaluation arithmetic, aggregation and the worker pool |

How the parts depend on the outside: what a provider call, a cache backend or a concurrent request does is given by
the environment (an `Outcome`, a `Fate`, a `World`, an `Env`), and every theorem holds for all environments. Because no lock body
of the runtime suspends, the part of `invoke` before the provider call and the part after it are one atomic step each.

## Model

| member | source | states |
|---|---|---|
| `Breaker.CircuitBreaker.AllowRequest` | control_plane/reliability.py:57-67 | the verdict and all four fields after a request, for every state and clock reading; `GrantsAreDecidedByHistory` says what the verdict means |
| `Breaker.CircuitBreaker.NoteSuccess` | control_plane/reliability.py:69-73 | a success closes the circuit from any state, also from open |
| `Breaker.CircuitBreaker.NoteFailure` | control_plane/reliability.py:75-81 | a failure is counted, gives the probe flag back, and opens the circuit half-open or at the threshold |
| `Breaker.StateIsFunctionOfHistory` | control_plane/reliability.py:57-81 | at every point of every run: closed iff the trailing failures of the log are below the threshold, half-open iff not closed and something was granted since the last outcome, probe flag iff half-open, opening time = last failure when not closed |
| `Breaker.GrantsAreDecidedByHistory` | control_plane/reliability.py:57-67 | a request is granted iff the log is not tripped, or nothing was granted since the last outcome and the recovery timeout has passed since the last failure |
| `Breaker.SingleFlight` | control_plane/reliability.py:57-81 | once the threshold is reached any two grants have a recorded outcome between them and each comes at least the recovery timeout after the last failure, with no assumption on the clock |
| `Breaker.RefusalsAreDecidedByHistory` | control_plane/reliability.py:61-66 | which refusal: the recovery timeout has not passed since the last failure, or a granted probe has not reported back |
| `Bucket.TokenBucket.TryAcquire` | control_plane/reliability.py:102-110 | lazy capped refill, then a token is taken iff there is a whole one; the refill is kept on a refusal |
| `Bucket.RefillComposes` | control_plane/reliability.py:104-107 | refilling at t and then at u is refilling once at u |
| `Bucket.ClockGoingBackGivesNothing` | control_plane/reliability.py:105-107 | a clock that goes back neither gives nor takes tokens |
| `Bucket.LevelIsSlack` | control_plane/reliability.py:102-110 | after any arrivals the bucket holds at least x at t iff every window since an accepted request leaves room for x |
| `Bucket.DecidesArrivalCurve` | control_plane/reliability.py:102-110 | a request at t is accepted iff for every accepted time s the count in [s, t] including this one is at most capacity + rate * (t - s), and capacity is at least one |
| `Bucket.RefusalLeavesNoTrace` | control_plane/reliability.py:102-110 | leaving a refused request out of the arrivals changes no later decision |
| `Runtime.ProviderRuntime.BeginInvoke` | control_plane/reliability.py:151-163 | breaker, then bucket, then bulkhead; each of the three rejections leaves behind exactly what the checks before it took |
| `Runtime.ProviderRuntime.EndInvoke` | control_plane/reliability.py:164-179 | whatever way the call ended, its slot is back, it is counted once, and the breaker is told; `Admission` says on the events what it is counted as and told |
| `Runtime.RunKeepsInvariant` | control_plane/reliability.py:151-179 | every interleaving of admissions and outcomes keeps slots, counters, breaker, bucket and calls in flight consistent |
| `Runtime.ProbeGetsThrough` | control_plane/reliability.py:152-155 | in every consistent state a probe the breaker lets through also gets its slot, and its token if a token refills within the recovery interval |
| `Runtime.RecoveryNeverWedges` | control_plane/reliability.py:57-81 | with deadline < recovery timeout and recovery timeout * rate >= 1, in every reachable state half-open means exactly one call in flight, the probe, and a granted probe is always admitted |
| `Runtime.BulkheadNeverDropsProbe` | control_plane/reliability.py:154-155 | for every configuration with a rate that is not negative the bulkhead never rejects a probe |
| `Runtime.AccountingLaws` | control_plane/reliability.py:151-191 | free slots + in flight = max concurrency; requests = successes + failures + in flight; tokens granted = requests + overload rejections |
| `Admission.BreakerFollowsHistory` | control_plane/reliability.py:151-179 | after every sequence of events the breaker of a runtime is where its calls lead, an answer being a success and a deadline, provider error or other exception a failure |
| `Admission.CountersFollowHistory` | control_plane/reliability.py:181-191 | successes are the calls that returned with an answer, failures all others that returned |
| `Admission.BucketFollowsHistory` | control_plane/reliability.py:152-153 | the bucket is asked exactly by the calls that the history of outcomes and grants lets through |
| `Admission.InFlightFollowsHistory` | control_plane/reliability.py:157-163 | in flight are exactly the calls that were counted and have not returned |
| `Admission.InvokeIsDecidedByHistory` | control_plane/reliability.py:151-163 | in every run: circuit open iff the outcomes so far forbid it; else rate limited iff the tokens granted leave none on the arrival curve; else overloaded iff max concurrency calls have not returned; else admitted, as a probe iff the circuit is tripped |
| `Recovery.WedgedForever` | control_plane/reliability.py:65-66 | half-open with the flag set and nothing in flight: every continuation is rejected and only moves the clock |
| `Recovery.NeverWedgesExactlyWhenRefilled` | control_plane/reliability.py:152-153 | no run wedges iff recovery timeout * rate >= 1, for every configuration with a positive rate, a whole token of capacity, a slot and a deadline that is not negative; how long the deadline is and the threshold do not matter |
| `Overlap.NoSecondToken` | control_plane/reliability.py:102-110 | if deadline * rate < 2 - capacity, a call in flight within its deadline leaves the bucket below one token, whatever happened since |
| `Overlap.CallsOverlapExactlyWhen` | control_plane/reliability.py:151-163 | some run has two calls in flight iff max concurrency >= 2 and deadline * rate >= 2 - capacity, for every usable configuration |
| `Overlap.ProbeIsAloneExactlyWhen` | control_plane/reliability.py:130-135 | only the probe is ever in flight half-open iff the deadline is below the recovery timeout or calls cannot overlap |
| `Overlap.StaysOpenExactlyWhen` | control_plane/reliability.py:69-73 | an open circuit stays shut for its whole recovery interval in every run iff that interval is empty or calls cannot overlap |
| `Routing.RoutingEngine.SelectProvider` | control_plane/routing.py:39-114 | the decision or error for every request and exclusion set, and that the index moves exactly on a successful round-robin selection |
| `RoutingTheorems.EligibleExactlyWhen` | control_plane/routing.py:131-150 | eligible iff registered, not excluded, in the allowed list if any, not in the own exclusions, trusted if required, and within the limits of latency, cost and quality, each on the fields |
| `RoutingTheorems.SelectedKeepsConstraints` | control_plane/routing.py:131-158 | whatever is selected, by policy or by model, keeps each of these constraints |
| `RoutingTheorems.EligibleAreReported` | control_plane/routing.py:112 | for auto requests every provider that keeps them is reported, in registry order |
| `RoutingTheorems.SelectionSucceedsExactlyWhen` | control_plane/routing.py:46-82 | selection succeeds iff a provider is eligible and, if the request names one, that one, which it then takes; the model is unknown iff nobody serves it |
| `RoutingTheorems.TurnTakenExactlyWhen` | control_plane/routing.py:84-88 | a turn is taken iff an auto round-robin request finds somebody eligible |
| `RoutingTheorems.EstimateMeans` | control_plane/routing.py:116-129 | without prices the estimate is zero, and each price enters with its own number of tokens by the million |
| `RoutingTheorems.PromptTokensMeans` | control_plane/routing.py:121-124 | a quarter of the characters of all contents joined by single blanks, rounded down, and at least one |
| `Routing.OwnExclusionsAreRedundant` | control_plane/routing.py:44-45 | adding the request's own exclusions to the exclusion set never changes who is eligible |
| `Routing.FirstMin` | control_plane/routing.py:89-97 | the first smallest key, so ties go to registry order |
| `Routing.FirstMax` | control_plane/routing.py:98-102 | the first largest key, so ties go to registry order |
| `RoundRobin.TurnsGoRound` | control_plane/routing.py:84-88 | after k turns the index and every provider's count are those of q whole rounds and r steps from the starting position |
| `RoundRobin.RoundRobinIsBalanced` | control_plane/routing.py:84-88 | while the round-robin selections see the same n providers, k of them pick each one floor or ceil of k/n times, whatever other policies select in between |
| `AdaptivePolicy.AdaptiveIsUndominated` | control_plane/routing.py:160-174 | the smallest score is never that of a candidate which another matches or beats everywhere with a strict win under a positive weight |
| `AdaptivePolicy.SelectedIsUndominated` | control_plane/routing.py:104-105 | so no adaptive selection from a registry picks a provider that another eligible one dominates |
| `AdaptivePolicy.AdaptiveWeighsMetrics` | control_plane/routing.py:160-174 | a candidate is chosen iff no other has an advantage over it and each earlier one a real disadvantage, the advantage being the weighted differences of cost and latency as shares of the largest ones, of utilization and of quality |
| `AdaptivePolicy.SelectedWeighsMetrics` | control_plane/routing.py:104-105 | so an adaptive selection takes the first eligible provider over which, on the fields of the providers, no other has an advantage |
| `AdaptivePolicy.AdaptiveIgnoresCostUnit` | control_plane/routing.py:166-170 | multiplying all costs by a positive factor never changes the choice, also when all are zero |
| `AdaptivePolicy.AdaptiveIgnoresLatencyUnit` | control_plane/routing.py:167-171 | the same for all latencies |
| `AdaptivePolicy.AdaptiveIgnoresWeightUnit` | control_plane/routing.py:168-174 | only the ratios of the weights matter |
| `Preference.StableSortOrders` | control_plane/routing.py:89-103 | the independent insertion sort orders by the policy key, ties in registry order |
| `Preference.ChoiceIsFirst` | control_plane/routing.py:89-103 | a key-driven policy picks the provider that comes before all other eligible ones in that order |
| `Fallback.TryProvider` | control_plane/main.py:351-380 | one attempt: simulated failure before cache before call, the one call record each leaves, and a cache fill exactly after a fresh success with the cache in use |
| `Fallback.RunFallback` | control_plane/main.py:328-389 | the loop with its mutable exclusions computes the recursive specification, has recorded one failure per failed attempt and a success only for a fresh answer, and has filled the cache with that answer and nothing else |
| `FallbackTheorems.AttemptMeans` | control_plane/main.py:351-370 | a simulated failure fails whatever else there is; else the cache answers iff enabled, not bypassed and filled; else the provider does |
| `FallbackTheorems.OutcomeLeaves` | control_plane/main.py:351-380 | a fill iff the cache is in use and a provider has just answered, with that answer; a failure for each failed attempt in order, a success iff a provider answered |
| `FallbackTheorems.ServeExplained` | control_plane/main.py:336-389 | every run is a path of failed attempts, each routed with everything before it excluded, and ends for exactly one of the four reasons |
| `FallbackTheorems.PathWithinEligible` | control_plane/main.py:336-380 | no provider is attempted twice and only initially eligible ones are |
| `FallbackTheorems.ExhaustedMeansAllTried` | control_plane/main.py:334-346 | when the loop gives up all eligible providers have been attempted: the bound never cuts the search short |
| `FallbackTheorems.FallbackIsExhaustive` | control_plane/main.py:334-389 | auto, not single_provider: 422 iff nothing was eligible; 503 iff something was and every attempt failed, and then the attempts are exactly the eligible providers, each once (an empty registry gives 503) |
| `FallbackTheorems.NoSubstitution` | control_plane/routing.py:46-58 | explicit-model and single_provider requests make at most one attempt, and only at the named provider |
| `FallbackTheorems.NamedRequestExactly` | control_plane/main.py:334-389 | a request that names a provider: 404 iff its model is served by nobody, 422 iff its provider is not eligible, and otherwise that provider is attempted once and answers, or 503 |
| `FallbackTheorems.PathFollowsPreference` | control_plane/main.py:328-380 | for lowest_cost, lowest_latency and highest_quality the attempt path is a prefix of the stable sort of the initially eligible providers, whatever fails, hits or is rejected |
| `FallbackTheorems.AnswerReport` | control_plane/main.py:391-420 | failed providers and reported eligible ones partition the initially eligible; the reported provider is the last attempted, satisfies every constraint, and its attempt gave the result |
| `KeyValue.MemoryKeyValue.Lookup` | control_plane/cache.py:32-41 | an entry is answered iff it has not expired, and an expired one is deleted on the way |
| `KeyValue.MemoryKeyValue.Store` | control_plane/cache.py:43-45 | the entry replaces what the key held, with its own expiry |
| `KeyValue.ResilientKeyValue.Lookup` | control_plane/cache.py:79-84 | a failing backend is a miss and is counted, and never reaches the caller |
| `KeyValue.ResilientKeyValue.Store` | control_plane/cache.py:86-90 | a failing write is counted and swallowed, whether or not the value got stored |
| `KeyValue.LazyStoreRefinesTimedMap` | control_plane/cache.py:27-45 | over any history every read answers what the latest effective write says, until its TTL has elapsed: deletion cannot be observed |
| `KeyValue.ReadValueWasWritten` | control_plane/cache.py:27-90 | every value read was written under that key within its TTL and not overwritten since |
| `ResponseCache.ExactResponseCache.Get` | control_plane/cache.py:119-135 | every lookup is a hit or a miss, an unreadable value is a miss and an error, and the statistics say so |
| `ResponseCache.ExactResponseCache.Put` | control_plane/cache.py:137-148 | what the backend then holds, and that writes counts attempts, lost ones too |
| `ResponseCache.HitIsGenuine` | control_plane/cache.py:104-148 | over any history with swallowed failures a hit is the latest kept result that the same provider produced for the same model, messages, temperature and max_tokens within the TTL |
| `ResponseCache.KeptResultIsFound` | control_plane/cache.py:119-148 | conversely a kept result is found until it expires or is replaced |
| `CostCeiling.EstimateCoversCost` | control_plane/providers/deterministic.py:18-41 | the routing estimate is never below what a deterministic provider charges |
| `CostCeiling.CompleteMeans` | control_plane/providers/deterministic.py:18-41 | the name and the last user message, a quarter as many tokens as characters but at least one and at most max_tokens, at the two prices by the million |
| `CostCeiling.SameKeySameAnswer` | control_plane/cache.py:104-117 | requests with the same cache key get the same answer from a deterministic provider |
| `CostCeiling.CachedIsComplete` | control_plane/main.py:355-379 | at any point of any run from an empty backend, what the gateway itself has cached for a deterministic provider is what that provider would answer now to every request with the same key |
| `CostCeiling.AnswersStayBelowCeiling` | control_plane/main.py:285-417 | in every run from an empty backend with deterministic providers, however requests interleave and the backend fails: every 200, fresh, cached or replayed, after any fallbacks, has cost <= reported maximum <= the limit of its request |
| `Idempotency.IdempotencyStore.Replay` | control_plane/cache.py:178-198 | no record, conflict or replay, decided by the fingerprint, and which counter moves |
| `Idempotency.IdempotencyStore.Remember` | control_plane/cache.py:200-219 | the record is stored under the pair's key with the record TTL, or lost and counted |
| `Idempotency.SharedRecordExactlyWhen` | control_plane/cache.py:166-168 | two client and key pairs share a record iff they are equal or one reads as the other at another colon |
| `Idempotency.ColonFreeClientsAreSeparate` | control_plane/cache.py:166-168 | clients without a colon in their id never share records |
| `Idempotency.ClientsWithColonsCanCollide` | control_plane/cache.py:166-168 | a concrete pair of different clients that does share one |
| `Replays.OthersAreUnaffected` | control_plane/main.py:290-427 | no step of a request of another pair, nor of one between replay check and answer, creates, changes or removes a record |
| `Replays.RecordStays` | control_plane/main.py:296-304 | a record stays through every run of other requests, lost and failing writes included, until its TTL has elapsed, if no second request of its pair was under way |
| `Replays.StoredResponseIsReplayed` | control_plane/main.py:290-326 | once a response is stored with no second request of its pair under way, every request of the pair that reaches the check within the TTL gets exactly that response if equal and a conflict otherwise, among any other requests; backend, round-robin index and the other requests stay, nothing is called or written, and only the replay is recorded |
| `Replays.ReplayIsGenuine` | control_plane/main.py:296-326 | in every run, overlapping requests and failing backend included, a replayed body is that of an equal request with the same record that was served afresh, and a conflict comes from a different one |
| `Replays.UnknownKeyIsServed` | control_plane/main.py:296-304 | in every run a request whose record no freshly served request shares goes on to be served, whatever the backend does |
| `Budget.SessionBudget.TryReserve` | control_plane/providers/bedrock.py:31-35 | the amount is reserved iff it fits beside what is spent and reserved |
| `Budget.SessionBudget.SettleCall` | control_plane/providers/bedrock.py:37-40 | the reservation turns into the actual cost |
| `Budget.SessionBudget.ReleaseCall` | control_plane/providers/bedrock.py:42-45 | the reservation is given back |
| `Budget.Complete` | control_plane/providers/bedrock.py:95-158 | uninterrupted: no reservation is left on any way out, spent grows by the reported cost iff the call succeeds, which error comes when, and refusal and charge in terms of the two prices |
| `Budget.CostMeans` | control_plane/providers/bedrock.py:89-93 | no tokens cost nothing, one input token more a millionth of the input price, one output token more a millionth of the output price |
| `Budget.ReadMeans` | control_plane/providers/bedrock.py:122-157 | a response is used iff both token counts and a text that is not empty are there; these are what it reports, and it finishes by length iff it stopped at max_tokens |
| `Budget.SpentIsCharged` | control_plane/providers/bedrock.py:37-40 | under every interleaving what is spent is exactly what the settled responses report |
| `Budget.BudgetIsAccounted` | control_plane/providers/bedrock.py:31-44 | under every interleaving reserved is the sum over calls on their way and calls cut off, and spent + reserved <= limit + total overage |
| `Budget.LimitHoldsExactlyWhen` | control_plane/providers/bedrock.py:31-44 | spent + reserved <= limit throughout a run iff every settled response costs no more beyond its reservation than is left under the limit at that moment |
| `Budget.BudgetIsSafe` | control_plane/providers/bedrock.py:106-151 | in particular if every response keeps within counted input and max_tokens, at every point of every interleaving |
| `Budget.LimitCanBeOverrun` | control_plane/providers/bedrock.py:150-151 | a request of 4096 max_tokens whose response reports 8192 ends with almost twice the limit spent |
| `Budget.ConverseIsCovered` | control_plane/providers/bedrock.py:106-117 | all calls still running, cut-off ones whose thread goes on included, have reservations of their own: whatever they cost together within what they asked for is part of the reserved amount |
| `Budget.CutOffReservationsStay` | control_plane/providers/bedrock.py:118-120 | what the deadline cut off stays reserved in every continuation |
| `Budget.ReservationsComeBackExactlyWhen` | control_plane/providers/bedrock.py:118-151 | when no call is on its way, exactly what cut-off calls held is still reserved, so nothing is iff no call that held something was cut off |
| `Budget.ReservationCanLeak` | control_plane/providers/bedrock.py:107-118 | one cut-off request of 4096 max_tokens leaves its whole reservation behind |
| `Budget.RefusedForEver` | control_plane/providers/bedrock.py:31-35 | once spent + cut-off reservations + a cost exceed the limit, every later call of that cost is refused in every continuation without negative usage |
| `Budget.OneCutOffCanEndSession` | control_plane/providers/bedrock.py:31-35 | one cut-off call can end a session in which nothing was spent: every later call with a token in it is refused for ever |
| `Telemetry.Telemetry.RecordProviderCall` | control_plane/telemetry.py:185-192 | the kept state stays the function of the log, with one call more |
| `Telemetry.Telemetry.RecordInference` | control_plane/telemetry.py:227-235 | the kept state stays the function of the log, with one event more |
| `Telemetry.CountersCount` | control_plane/telemetry.py:227-234 | each counter counts, and the latency sums, exactly its events in the log |
| `Telemetry.BufferHoldsLatest` | control_plane/telemetry.py:125 | the bounded buffer holds the latest events, newest first, however many there were |
| `Telemetry.AggregatesAggregate` | control_plane/telemetry.py:185-192 | each provider's aggregate is that of its own calls, successes + failures = calls, and it exists iff it was called |
| `Gateway.EarlyReplyMeans` | control_plane/main.py:261-326 | the loop is reached iff the request does not stream, its failure target is registered and simulated, its headers are valid and it has no record; a replay is given iff it is admissible and on record, and is the stored body; each rejection iff its fault is the first present |
| `Gateway.AdmissibleMeans` | control_plane/main.py:261-295 | no streaming, a failure target whose first registered provider is simulated, and both idempotency headers with some text in them or neither |
| `Gateway.StatusMeans` | control_plane/main.py:336-389 | of a request that reaches the loop: 200 iff an attempt answered, 404 iff the model is unknown, 422 iff nothing was eligible, 503 with all attempts iff they failed |
| `Gateway.EarlyStatusMeans` | control_plane/main.py:261-326 | of one that does not: 501, 422, 400, 409 and 200 iff streaming, target, headers, conflict and replay are first |
| `Gateway.EmittedMeans` | control_plane/main.py:317-449 | record by record what a request records: failures in order, a success iff a provider answered, and one event with the request id, provider, policy and fallbacks of the reply and HIT, MISS, BYPASS or REPLAY as the cache was used |
| `Gateway.WritesMean` | control_plane/main.py:378-427 | a cache fill with what the reply reports iff the cache is in use and a provider has just answered, and a record iff there is an answer, a client and a key |
| `Gateway.ChatCompletion` | control_plane/main.py:245-450 | the reply is the early one or that of the fallback loop, and writes and records are those behind the reply and no others, which `WritesMean` and `EmittedMeans` spell out |
| `Gateway.MetadataIsTruthful` | control_plane/main.py:406-419 | on every fresh 200 fallback_count is the number of failed attempts, provider is the last attempted, result and cache flag are that attempt's, and failed and eligible providers partition the initially eligible |
| `Gateway.UsageIsTruthful` | control_plane/main.py:392-417 | on every fresh 200 the usage and finish reason are those of the answering attempt, and the reported maximum is the estimate for a registered, constraint-satisfying provider of the reported name; the policy reads direct iff a model was named |
| `Gateway.RoutingIsTruthful` | control_plane/main.py:406-412 | an auto answer reports the policy of its request and, in registry order, those eligible once the failed ones were excluded |
| `Gateway.PolicyNames` | control_plane/contracts.py:13-20 | the six policies are reported by their names in the contract |
| `Accounting.CountInterleaving` | control_plane/telemetry.py:174-235 | however the records of requests interleave, what is counted in the log is what is counted in the requests |
| `Accounting.SumInterleaving` | control_plane/telemetry.py:174-235 | and what is added up over the log is added up over the requests |
| `Accounting.RequestIsAccounted` | control_plane/main.py:336-449 | one request's records: successes + hits + replays = events, and failures = its failed attempts |
| `Accounting.RequestIsCounted` | control_plane/main.py:317-449 | one request is counted as completed iff answered, as a hit iff the cache answered, as a replay iff it was one, and with the fallbacks its reply reports |
| `Accounting.SumsOverProviders` | control_plane/telemetry.py:186-192 | summed over all providers the aggregates are the calls of the log |
| `Accounting.RepliesAreWellFormed` | control_plane/main.py:391-420 | every reply of the endpoint, whatever it met, counts attempts but one as fallbacks and reports a hit only with the cache in use |
| `Accounting.TelemetryIsConserved` | control_plane/telemetry.py:174-235 | for every interleaving of the records of endpoint requests, whatever they met: successes over all providers = completed - hits - replays, failures = fallbacks of fresh answers + attempts of 503s, and completed, hits, replays and fallbacks = what the replies add up to |
| `Service.RunsRefineEndpoint` | control_plane/main.py:245-450 | in every run of any number of requests on one backend, index and telemetry, each finished request has the reply, the writes and the records of the endpoint for the lookup and the worlds it met |
| `Service.QuiescenceIsConserved` | control_plane/main.py:336-449 | in every run, when no request is in progress: successes = completed - hits - replays, failures = the failed attempts of the replies, and completed, hits, replays and fallbacks = what the replies add up to |
| `ServiceHistory.LookupFindsHistory` | control_plane/main.py:355-359 | in every run a cache lookup finds what the whole history of the backend says, so that HitIsGenuine and KeptResultIsFound hold of it |
| `ServiceHistory.CacheHitWasProduced` | control_plane/main.py:355-379 | in every run, whatever fails, a hit is what the same provider gave less than the TTL ago to a request of the run for the same model, messages, temperature and max_tokens, and the latest one kept |
| `ServiceHistory.DecisionsGoRound` | control_plane/routing.py:84-88 | in every run each round-robin decision turns to the provider that the turns so far lead to and moves the index by one, and no other step moves it |
| `ServiceHistory.RunsAreBalanced` | control_plane/routing.py:84-88 | in every run whose round-robin decisions see the same n providers, k of them turn to each floor or ceil of k/n times |
| `Percentiles.AscendingIsUnique` | control_plane/evaluation/load.py:61 | sorting has one result, so the insertion sort here is the library's |
| `Percentiles.RankInRange` | control_plane/evaluation/load.py:62 | for 0 < q <= 1 the rank is ceil(q * n) and lies within the list |
| `Percentiles.RankMeans` | control_plane/evaluation/load.py:62 | whatever the quantile, the smallest rank from 1 on that is not below q * n |
| `Percentiles.PercentileIsNearestRank` | control_plane/evaluation/load.py:57-63 | the percentile is the one value with at least rank values at most it and fewer than rank below it; an IndexError iff the rank is past the end |
| `Percentiles.PercentileIsMonotone` | control_plane/evaluation/load.py:57-63 | a higher quantile never gives a lower value |
| `Percentiles.PercentileIgnoresOrder` | control_plane/evaluation/load.py:57-63 | permuting the values changes nothing |
| `LoadReport.PercentilesAreOrdered` | control_plane/evaluation/load.py:95-100 | p50 <= p95 <= p99 <= max in every summary, and each percentile was measured |
| `LoadReport.DistributionCounts` | control_plane/evaluation/load.py:76-78 | a provider is listed iff it served a sample, with the number it served |
| `LoadTheorems.SummaryOfNothing` | control_plane/evaluation/load.py:66-104 | no samples: all counts, rates, latencies and costs are zero |
| `LoadTheorems.SummaryOfOneMore` | control_plane/evaluation/load.py:74-103 | one sample more with status 200 is one success more and adds its cost, fallbacks and provider; with any other, one failure more and nothing else, not even a latency |
| `LoadTheorems.LatenciesMean` | control_plane/evaluation/load.py:95-100 | p50, p95 and p99 are the latencies that split the samples with status 200 at 1/2, 19/20 and 99/100, and max is their longest |
| `LoadTheorems.SummaryRates` | control_plane/evaluation/load.py:92-94 | success rate times requests = successes, throughput times duration = requests, and zero where there is nothing to divide by |
| `LoadReport.GroupByProfile` | control_plane/evaluation/load.py:109-111 | one group per profile that occurs, holding its runs in order |
| `LoadReport.AggregateRuns` | control_plane/evaluation/load.py:107-145 | one aggregate per profile with the sums, rates and means over its runs; a ZeroDivisionError iff some profile has no request |
| `LoadTheorems.AggregateOfOne` | control_plane/evaluation/load.py:115-143 | the aggregate of one run is what the run reports |
| `LoadTheorems.AggregateOfOneMore` | control_plane/evaluation/load.py:115-143 | one run more adds its counts, cost and distribution and enters both means with the weight of one |
| `LoadReport.AggregateIsSummaryOfAll` | control_plane/evaluation/load.py:66-145 | the aggregate of per-run summaries equals one summary of all samples: requests, successes, failures, success rate, cost, distribution, fallbacks |
| `LoadReport.ReportFailsExactlyWhen` | control_plane/evaluation/load.py:125 | a profile's requests add up to zero iff none of its runs has a sample |
| `LoadPool.EveryPoint` | control_plane/evaluation/load.py:193-236 | at every point of every interleaving each request number is in exactly one place, waiting numbers go out in order, at most concurrency are under way, and turns taken + turns left is constant |
| `LoadPool.WorkersStart` | control_plane/evaluation/load.py:193-236 | all requests wait in order before min(concurrency, requests) workers, none if that is negative |
| `LoadPool.BoundIsReached` | control_plane/evaluation/load.py:236 | and that many requests can be under way at once |
| `LoadPool.EverySampleWasBrought` | control_plane/evaluation/load.py:234-242 | the samples are outcomes of requests, each of another turn and in the order of the turns |
| `LoadPool.NeverStuck` | control_plane/evaluation/load.py:200-205 | the pool can move iff some worker has not finished |
| `LoadPool.ExactlyOnceExactlyWhen` | control_plane/evaluation/load.py:236-247 | when all workers are done each number has exactly one sample iff concurrency >= 1 or there was no request, after 2 * requests + workers turns |
| `LoadPool.FinishedRunIsComplete` | control_plane/evaluation/load.py:236-247 | the summary of a finished run counts exactly the requests asked for |

## Where the code differs from its documentation

The model follows the code.

- README.md:61 says open circuits reject traffic until their recovery interval passes. The success of a call admitted
  before the opening closes the circuit early (`Overlap.StaysOpenExactlyWhen`: it holds exactly when calls
  cannot overlap).
- README.md:61 says exactly one request is then permitted as a probe. If less than one token refills in the recovery
  interval, the probe can be rate limited after it took the flag, and no request is ever permitted again
  (`Recovery.NeverWedgesExactlyWhenRefilled`).
- README.md:111 describes replay per client and key. The raw key joins the two with a colon, so clients with colons in
  their ids can share records (`Idempotency.SharedRecordExactlyWhen`).
- A failure threshold below one behaves as one (`Breaker.EffectiveThreshold`).
- An auto request on an empty registry is answered 503, not 422 (`FallbackTheorems.FallbackIsExhaustive`).
- docs/cloud-validation.md:49 calls the session reservation the authoritative spending guard. It guards the limit
  exactly as long as responses report no more beyond their reservations than is left under it
  (`Budget.LimitHoldsExactlyWhen`, `Budget.LimitCanBeOverrun`).
- The session budget never gets back what a cut-off call reserved (`Budget.ReservationsComeBackExactlyWhen`), and a
  session can end that way without anything spent (`Budget.OneCutOffCanEndSession`).
- `writes` in the cache statistics counts attempts, not successes (`ResponseCache.ExactResponseCache.Put`).
- A load run with a concurrency below one answers with an empty summary instead of an error
  (`LoadPool.ExactlyOnceExactlyWhen`).

## Left out

- HTTP, FastAPI, CORS, response headers, tracing spans and Prometheus objects; the Ollama, boto3 and Redis clients.
- Cancellation of a request from outside (a client that disconnects): assumed not to happen. The internal deadline is
  modelled.
- Event-loop lag: the deadline is taken to fire on time, or to stand for the effective bound on a call.
- SHA-256, JSON and pydantic: keys are their material, values are what was encoded.
- Rounding of floats and decimals, and overflow: all arithmetic is exact.
- Two requests of the same client and key in progress at once: the source keeps no record of a request in progress,
  so the replay law asks that no second one was under way when the response was stored. All others may overlap.
- What `Service` leaves to the outside: how provider calls end (`Runtime` is about that) and what the backend does
  with a read or write; cache statistics are proved per call only.
- Provider names are taken to be unique where ties are broken by registry position; the registry checks model names
  only.
- The latency sum, the average and the health snapshot of `ProviderRuntime`.
- The text of routing reasons and error messages.
- The token-counting call of the Bedrock provider being cut off: it happens before anything is reserved.
- Bedrock's request payload (system messages apart from the others).
- `compare_adaptive`, and the rounding of reported rates, means and percentiles.
- An uncaught error in a load worker, which ends the whole run.
- Settings parsing, the dashboard, deployment files, scripts and the fault-matrix scenarios.
