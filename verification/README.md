# Verified model of the AI router

The router sends each request for a model to one of several provider credentials. This project models the parts
of it whose behaviour spans whole runs, and proves what they promise:

- **Scheduling** (`Swrr`, `SwrrFairness`, `SwrrCycle`, `Candidates`, `RoundRobin`, `BalancerRuns`,
  `BalancerInterleaving`, `RetryChain`): smooth weighted round robin over the live credentials, the selection that
  combines bans, rate limits and priority tiers, and the retry chain of one request. Fairness is proved for the
  abstract schedule, carried to the node map the balancer updates, and to the answers of the balancer itself, for
  repeated selections and for any interleaving of callers.
- **Rate limits** (`Window`, `LocalBackend`, `UsageInjection`, `RpmLimiter`, `RedisScripts`, `RedisAdmission`,
  `RedisInterference`, `RedisRefinement`, `RedisRuns`, `RedisRunLength`, `RedisBackend`, `BackendRuns`,
  `HybridBackend`, `HybridWrites`): one sliding window over the full history, refined by pruned buffers, by Lua scripts over sorted
  sets that many callers run and retry, and by a hybrid of both with an asynchronous write queue.
- **Scopes** (`Scope`, `ScopeKeys`, `ScopeExpression`, `ScopeAlgebra`, `ScopeLegacy`): access expressions in
  disjunctive normal form, with a set meaning that normalisation, And, Or and the legacy projection are measured by.
- **Bans and token refresh** (`Fail2Ban`, `Fail2BanReplay`, `Fail2BanCounts`, `TokenRefresh`, `TokenDelivery`,
  `TokenResponses`, `TokenManager`): lazily expired bans against an eager replay and against the responses they count,
  and the coalescing refresh protocol as a state machine over its atomic steps.
- **Streams** (`AnthropicResponse`, `AnthropicStream`, `StreamAgreement`, `StreamLines`, `EventStream`, `EventLines`,
  `Lines`, `LineChunking`): the streaming converter against the non-streaming one, from lines to chunks, the binary
  frame decoder against framing and in front of that converter, and the line rewriters on arbitrary chunks.
- **Model index** (`ModelIndex`, `ModelManager`): the two maps between credentials and models.

Objects that the program updates in place are classes here; each method is specified by a function of the state
before, and the laws are lemmas about those functions. Times are milliseconds and never go back. `Collections` and
`Strings` hold shared vocabulary.

Where a promise does not hold for all inputs, the model keeps the code and states exactly when it does:
`EnforcedExactlyWhenLimitFitsBuffer`, `SameDecisions`, `SameAnswersUpTo`, `Publish`, `TestSeesPriority`,
`TableIsReplay`, `WaiterIsServedIffServer` (with `LateWaiterIsOrphaned`), `AndMeans`, `OrMeans`, `SimpleProjectionIsExact`, `FragmentsFollowOpenings`,
`StreamAgreesWithResponse`, `UsageAgrees`, `RebuiltMatches`, `ModelKeysCoincide`, and the two read-back lemmas of `UsageInjection`.
The comment at internal/auth/vertex.go:190 says that coalescing keeps one refresh per credential at a time; after a
timeout empties a waiting list a second one can start, so the model does not claim it. The comment at
internal/ratelimit/redis_backend.go:338 speaks of the latest timestamp, but retries reuse the captured one.

## Model

| member | source | states |
|---|---|---|
| Swrr.EffectiveWeight | internal/balancer/weighted.go:95-103 | a weight set for the model wins over one set for the credential, non-positive weights fall through, and the result is always at least 1 |
| Swrr.SwrrState.Advance | internal/balancer/weighted.go:36-53 | nodes that are not live are dropped, every live node gains its weight (new ones from 0), and the total of the live weights is returned |
| Swrr.SwrrState.Commit | internal/balancer/weighted.go:57-61 | only the committed node changes: it is charged the total, if it is there at all |
| SwrrFairness.LeftmostMaxIsUnique | internal/balancer/roundrobin.go:326-339 | the position tried first is the one and only leftmost largest counter |
| SwrrFairness.StepKeepsBalance | internal/balancer/weighted.go:36-61 | from any balanced counters, one advance and one commit leave counters that add up to zero with none a whole cycle behind |
| SwrrFairness.EveryRunIsBalanced | internal/balancer/weighted.go:36-61 | counters add up to zero after any number of rounds |
| SwrrFairness.Ledger | internal/balancer/weighted.go:36-61 | after k rounds a counter is exactly k times its weight minus W for each pick |
| SwrrFairness.CycleReturnsToZero | internal/balancer/weighted.go:36-61 | after W rounds every counter is zero again |
| SwrrFairness.Periodic | internal/balancer/weighted.go:36-61 | the schedule repeats with period W |
| SwrrFairness.EveryWindowIsExact | internal/balancer/roundrobin.go:326-350 | every window of W consecutive picks, wherever it starts, picks each credential exactly its weight times |
| SwrrFairness.PrefixNeverAheadByOne | internal/balancer/roundrobin.go:326-350 | no prefix of k rounds gives a credential k*w/W + 1 picks or more |
| SwrrFairness.EqualWeightsAreRoundRobin | internal/balancer/roundrobin.go:326-350 | with equal weights the k-th pick is credential k modulo the number of credentials |
| SwrrCycle.TotalWeight | internal/balancer/weighted.go:36-53 | the total Advance returns is the sum of the live weights |
| SwrrCycle.RoundRefinesStep | internal/balancer/weighted.go:36-61 | advance plus commit of the maximum on the node map is one step of the schedule on the row of counters |
| SwrrCycle.RunFollowsSchedule | internal/balancer/roundrobin.go:326-350 | from a fresh cycle with a fixed live set, every commit names the credential the schedule prescribes |
| SwrrCycle.EveryWindowOfCommitsIsExact | internal/balancer/roundrobin.go:326-350 | in every such run of the node map, W consecutive commits name each credential exactly its weight times |
| SwrrCycle.SameMaximum | internal/balancer/roundrobin.go:326-339 | with and without repeated names the leftmost maximum has the same name |
| SwrrCycle.EveryRunIsExactByName | internal/balancer/roundrobin.go:326-350 | the same by name, whether or not names are repeated among the live candidates |
| BalancerRuns.SelectRepeatedly | internal/balancer/roundrobin.go:237-370 | one selection repeated on the balancer object: on a cycle not used before, as long as every selection sees the same credentials live, any W consecutive answers, W the total of the live weights by name, name each of them exactly its weight times |
| BalancerInterleaving.ServeCalls | internal/balancer/roundrobin.go:237-576 | selections and retries of any callers in any order: every one is answered as promised, and in every cycle not used before whose commits see the same names and weights live, any W consecutive commits name each credential exactly its weight times |
| BalancerInterleaving.CycleIsRun | internal/balancer/roundrobin.go:314-359 | whatever other cycles do in between, the commits of one cycle are a run of its own |
| BalancerRuns.SteadyIsRun | internal/balancer/roundrobin.go:314-359 | such repeated selections are a run of the cycle's node map |
| BalancerRuns.OpenIsSteady | internal/balancer/roundrobin.go:296-312 | while no candidate is banned or over a limit, every selection sees all of them live |
| Candidates.CandidateMembers | internal/balancer/roundrobin.go:241-283 | a credential is a candidate exactly when it is untried, visible to the request, has the model, and meets the type, proxy, fallback and tier parts of the filter, each written out |
| Candidates.LiveWeightIsLast | internal/balancer/roundrobin.go:326-334 | namesakes share one weight, that of the last of them: the model's own if positive, else the credential's if positive, else 1 |
| Candidates.TestSeesPriority | internal/balancer/roundrobin.go:559-576 | the test for a tried prioritised credential sees every such credential if and only if whoever comes last of its name is one, too |
| Candidates.SelectionWrittenOut | internal/balancer/roundrobin.go:237-294 | a selection answers an unbanned credential with room among those whose fields fit, or fails when none is, naming the rate limit exactly when an unbanned one of them is over a limit |
| Candidates.RetryWrittenOut | internal/balancer/roundrobin.go:422-576 | the same for a retry: which credentials it may answer, tier by tier, written out from the current credential, what was tried and the request |
| Candidates.SplitMembers | internal/balancer/roundrobin.go:458-495 | who is in one of the two lists of a tiered retry, written out field by field |
| Candidates.CycleKeysSeparate | internal/balancer/roundrobin.go:278-394 | as long as no name contains the separator, two selections share a cycle exactly when they agree on the filtered model, the flags, the type, the priority and the names of the candidates in any order |
| Candidates.SeparatorInNameShares | internal/balancer/roundrobin.go:381-394 | a name with the separator in it shares the cycle of two others |
| Candidates.ExpiryIsSilent | internal/fail2ban/fail2ban.go:189-234 | removing an expired ban while checking changes no ban in force |
| Candidates.SortHead | internal/balancer/roundrobin.go:326-339 | the stable descending sort puts the leftmost largest counter first |
| Candidates.LiveSelectionCommitsMaximum | internal/balancer/roundrobin.go:314-359 | when every live candidate has room, the leftmost largest counter of the cycle is the one committed and charged |
| Candidates.LiveDecides | internal/balancer/roundrobin.go:237-370 | under one view of bans and limits the selection succeeds exactly when a candidate is live, and its error names the rate limit exactly when some unbanned candidate was over a limit |
| Candidates.BucketSelectionIsLowest | internal/balancer/roundrobin.go:506-535 | charging the maximum of the lowest live priority's cycle answers a live candidate of the lowest priority, and moves no other cycle |
| Candidates.PriorityFirst | internal/balancer/roundrobin.go:438-448 | a pick from the prioritised candidates meets the order promised for retries |
| Candidates.PriorityThenTail | internal/balancer/roundrobin.go:438-456 | falling through to the unprioritised tail meets that order, with rate-limit hits of both parts in the error |
| Candidates.TailRetries | internal/balancer/roundrobin.go:438-456 | and commits the maximum of the tail's one cycle, or moves none |
| RoundRobin.RoundRobin.constructor | internal/balancer/roundrobin.go:48-83 | every credential's limits are registered, those of the last namesake, a token limit of 0 as unlimited |
| RoundRobin.RoundRobin.CanPassRateLimits | internal/balancer/roundrobin.go:361-370 | the non-recording precheck holds exactly when TryAllowAll would succeed, and records nothing |
| RoundRobin.RoundRobin.LiveCandidates | internal/balancer/roundrobin.go:296-312 | exactly the unbanned candidates with room, in order, and whether some unbanned one had none |
| RoundRobin.RoundRobin.SwrrStateFor | internal/balancer/weighted.go:84-91 | the scheduler of a cycle is found or created, and no other cycle changes |
| RoundRobin.RoundRobin.SelectWeighted | internal/balancer/roundrobin.go:314-359 | the first credential in counter order with room is admitted and charged; exactly one admission is recorded on success and none otherwise |
| RoundRobin.RoundRobin.CommitInOrder | internal/balancer/roundrobin.go:340-359 | candidates are tried in order, refused ones record nothing, and only the admitted one is charged |
| RoundRobin.RoundRobin.NextExcluding | internal/balancer/roundrobin.go:237-294 | success returns an unbanned credential with room whose fields fit, each written out, the maximum of its cycle, records one admission under its counters and moves no other cycle; failure means every such credential is banned or over a limit, records and moves nothing and names the rate limit exactly when an unbanned one is over a limit |
| RoundRobin.RoundRobin.SplitPriorityRetryCandidates | internal/balancer/roundrobin.go:458-495 | one pass splits the untried, visible direct credentials that have the model into the prioritised tiers from a minimum on and the unprioritised tail, membership written out |
| RoundRobin.RoundRobin.GetCredentialByName | internal/balancer/roundrobin.go:120-127 | the index by name finds the last credential of that name |
| RoundRobin.RoundRobin.HasTriedPriorityCredential | internal/balancer/roundrobin.go:559-576 | true exactly when a tried name is, by that index, a prioritised direct credential |
| RoundRobin.RoundRobin.SelectPriorityRetry | internal/balancer/roundrobin.go:506-535 | picks the maximum of the cycle of the lowest live priority and moves no other cycle, or reports that none is live and whether one was over a limit, changing nothing |
| RoundRobin.RoundRobin.SelectUnprioritizedRetry | internal/balancer/roundrobin.go:537-557 | answers the committed maximum of the tail's cycle, or an error that carries an earlier rate-limit hit; no other cycle moves |
| RoundRobin.RoundRobin.RetryUnprioritized | internal/balancer/roundrobin.go:429-434 | the tail once a tier was tried, otherwise any credential of the same type; the answer is the committed maximum of that one cycle |
| RoundRobin.RoundRobin.NextPriorityRetry | internal/balancer/roundrobin.go:438-448 | prioritised tiers first, the tail only when no tier has a live candidate; the answer is the committed maximum of its tier's cycle and no other cycle moves |
| RoundRobin.RoundRobin.NextRetry | internal/balancer/roundrobin.go:422-456 | a retry takes a live credential from the first filter that has one, in the lowest tier where tiers count; it is the committed maximum of that filter's cycle, and no other cycle moves; whom it may answer is written out field by field; it fails only when nobody is left, with the right error, and records at most one admission |
| RetryChain.RetryAnswer | internal/balancer/roundrobin.go:422-576 | whatever a retry answers is untried and not a fallback, stays off proxies on the direct path, and, once the test saw a prioritised one tried, never goes back to an earlier tier |
| RetryChain.ChainExtends | internal/proxy/proxy.go:854-930 | adding an answer keeps the chain of used credentials ascending in tiers |
| RetryChain.Chain.Attempt | internal/proxy/proxy.go:522-930 | one attempt is forwarded once, and its outcome alone decides whether a retry is worth while and whether the request is over |
| RetryChain.Chain.NextPrepared | internal/proxy/proxy.go:862-895 | the inner loop ends because every unprepared candidate becomes tried; its answer is the next credential that could be prepared and untried, and without one nobody follows |
| RetryChain.Chain.ProviderRetries | internal/proxy/proxy.go:854-930 | exactly how far direct retries go: the first credential leads, every attempt before the last ended in a transport error or a retryable response, and the chain stops at a final outcome, at maxProviderRetries + 1 or when nobody follows; no credential twice, and tier ranks never decrease while namesakes agree |
| RetryChain.DisagreeingNamesakesGoBack | internal/balancer/roundrobin.go:559-576 | a chain that goes from the tail back to a tier when they do not agree |
| RetryChain.Chain.ProxyRetries | internal/proxy/proxy.go:522-576 | the same for proxies: only proxies, none twice, and on past an outcome only while it is worth a retry |
| RetryChain.Chain.Fallbacks | internal/proxy/retry.go:115-242 | fallback attempts use only fallback proxies that were not tried before, and stop only at an answer, when no fallback is left or at the configured maximum (5 by default) |
| RetryChain.Chain.Retries | internal/proxy/proxy.go:522-930 | the retries within the type of the first credential, direct or proxy, with their exact extent |
| RetryChain.Chain.Serve | internal/proxy/proxy.go:522-930 | the whole request: fallbacks are asked for exactly when the last direct attempt was worth a retry, every attempt but the last ended in an outcome that goes on, no credential is forwarded to twice, and attempts are bounded by the two maxima together |
| Window.RecordedIsAdmitted | internal/ratelimit/local_backend.go:69-87 | while the limit fits the buffer nothing is lost from the recorded history |
| Window.RecentCounts | internal/ratelimit/local_backend.go:56-67 | what a decision counts is the number of requests of the last sixty seconds |
| Window.NoWindowOverLimit | internal/ratelimit/local_backend.go:56-87 | over any run at limit L, no 60-second window, wherever it ends, contains more than L admissions |
| Window.RefusedOnlyWhenFull | internal/ratelimit/local_backend.go:78-87 | a request is refused exactly when the full unpruned history already fills the window |
| Window.LimitAboveBufferIsNotEnforced | internal/ratelimit/rpm.go:45-49 | a limit above the buffer size is not enforced: a burst passes it |
| Window.EnforcedExactlyWhenLimitFitsBuffer | internal/ratelimit/rpm.go:45-49 | a limit holds for every run if and only if it is at most the buffer size |
| BackendRuns.RunAttempts | internal/ratelimit/local_backend.go:118-123 | attempts on the backend object are answered as the window's run, so no 60-second window contains more admitted ones than the limit |
| BackendRuns.RunLocal | internal/ratelimit/local_backend.go:139-202 | whole runs of token recordings and attempts over all keys; no 60-second window contains more admissions charged to a key than the limit it is always asked with |
| BackendRuns.NoKeyOverLimit | internal/ratelimit/local_backend.go:165-202 | the same for the runs themselves, credential and model keys alike |
| LocalBackend.LocalCounter.CleanOldRequests | internal/ratelimit/local_backend.go:56-67 | keeps exactly the requests inside the window, in order, and counts them |
| LocalBackend.LocalCounter.CleanOldTokens | internal/ratelimit/local_backend.go:91-104 | keeps exactly the token records inside the window and adds them up |
| LocalBackend.LocalCounter.CheckRPM | internal/ratelimit/local_backend.go:78-87 | decides by the full history of the key, and records exactly when asked to and allowed |
| LocalBackend.LocalCounter.CheckTPM | internal/ratelimit/local_backend.go:106-111 | decides by the token total of the full history; an unlimited key is not pruned |
| LocalBackend.LocalBackend.TryAllowRPM | internal/ratelimit/local_backend.go:118-123 | the pruned buffer decides and records as the full history would |
| LocalBackend.LocalBackend.CanAllowRPM | internal/ratelimit/local_backend.go:125-130 | the same decision, recording nothing |
| LocalBackend.LocalBackend.CanAllowTPM | internal/ratelimit/local_backend.go:132-137 | the token decision, recording nothing |
| LocalBackend.LocalBackend.ConsumeTokens | internal/ratelimit/local_backend.go:139-149 | adds one token record to the key and changes no other |
| LocalBackend.LocalBackend.CurrentRPM | internal/ratelimit/local_backend.go:151-156 | reports the requests of the full history inside the window |
| LocalBackend.LocalBackend.CurrentTPM | internal/ratelimit/local_backend.go:158-163 | reports the tokens of the full history inside the window |
| LocalBackend.LocalBackend.TryAllowAll | internal/ratelimit/local_backend.go:165-202 | succeeds exactly when all limits of both keys hold, and then records one request under each counter; otherwise under neither |
| LocalBackend.AdmissionWrittenOut | internal/ratelimit/local_backend.go:165-202 | an admission asks room for requests and tokens under the credential and, with a model key, under the model, and records one request under each of them and nothing else |
| LocalBackend.LocalBackend.SetCurrentUsage | internal/ratelimit/local_backend.go:204-242 | replaces the history of the key by the injected one |
| LocalBackend.LocalBackend.DeleteKey | internal/ratelimit/local_backend.go:244-248 | forgets the key and nothing else |
| UsageInjection.InjectedInOrder | internal/ratelimit/local_backend.go:204-242 | injected timestamps never go back and lie inside the window, before now |
| UsageInjection.RequestsReadBackForASecond | internal/ratelimit/local_backend.go:204-242 | reads return exactly the injected count if and only if less than a second has passed (or it was 0) |
| UsageInjection.BucketsAreEven | internal/ratelimit/local_backend.go:204-242 | token buckets differ by at most one and are never empty |
| UsageInjection.BucketsSumToTotal | internal/ratelimit/local_backend.go:204-242 | token buckets add up to the injected total |
| UsageInjection.TokensReadBackForASecond | internal/ratelimit/local_backend.go:204-242 | token reads return exactly the injected total if and only if less than a second has passed (or it was 0) |
| RpmLimiter.RPMLimiter.AddCredentialWithTPM | internal/ratelimit/rpm.go:112-116 | sets the limits of one credential |
| RpmLimiter.RPMLimiter.AddModelWithTPM | internal/ratelimit/rpm.go:122-127 | sets the limits of one model of one credential |
| RpmLimiter.RPMLimiter.RemoveModel | internal/ratelimit/rpm.go:135-146 | drops the model's limits and its usage, nothing else |
| RpmLimiter.RPMLimiter.CanAllow | internal/ratelimit/rpm.go:175-186 | an unknown credential is refused, a known one decided by its request window; nothing is recorded |
| RpmLimiter.RPMLimiter.AllowTokens | internal/ratelimit/rpm.go:234-245 | the same for tokens |
| RpmLimiter.RPMLimiter.CanAllowModel | internal/ratelimit/rpm.go:215-226 | a model without limits is always allowed, another decided by its own window |
| RpmLimiter.RPMLimiter.AllowModelTokens | internal/ratelimit/rpm.go:253-264 | the same for tokens |
| RpmLimiter.RPMLimiter.TryAllowAll | internal/ratelimit/rpm.go:382-412 | succeeds exactly when every configured limit of the pair permits, and records under the credential and, if it has limits, the model, or nothing at all |
| RpmLimiter.RPMLimiter.ConsumeTokens | internal/ratelimit/rpm.go:272-282 | an unknown credential consumes nothing |
| RpmLimiter.CountersDiffer | internal/ratelimit/rpm.go:82-92 | credential and model counters never share a key |
| RpmLimiter.ModelKeysCoincide | internal/ratelimit/rpm.go:82-92 | two pairs share a counter exactly when they are the same, or one credential continues the other across the separator; credentials without a colon never do |
| RedisScripts.TableSize | internal/ratelimit/redis_backend.go:37-51 | the number of members the set shows is the number of requests of the history inside the window |
| RedisScripts.PrunedTable | internal/ratelimit/redis_backend.go:37-51 | removing old members loses nothing a later window shows |
| RedisScripts.TryAllowRPMRefines | internal/ratelimit/redis_backend.go:37-51 | with fresh members and a time to live of at least a window, the script decides by the history's window and records exactly when it answers 1 |
| RedisScripts.SameDecisions | internal/ratelimit/redis_backend.go:37-51 | the script and the local window admit exactly the same attempts in every run if and only if keys live at least as long as the window |
| RedisScripts.ShortTTLForgets | internal/ratelimit/redis_backend.go:37-51 | with any shorter time to live, negative ones included, the set forgets early and a second request passes a limit of one |
| RedisScripts.RetryRecordsOnce | internal/ratelimit/redis_backend.go:331-361 | running the script again with its captured member leaves at most the one recorded event, and says when that retry is refused |
| RedisScripts.MemberCountOfToken | internal/ratelimit/redis_backend.go:110-125 | the count written into a token member is read back from it |
| RedisScripts.TableTokens | internal/ratelimit/redis_backend.go:69-86 | the counts of the members shown add up to the tokens of the history inside the window |
| RedisScripts.CheckTPMRefines | internal/ratelimit/redis_backend.go:69-86 | the token script decides by the same token window as the local backend |
| RedisBackend.RedisBackend.EvalTryAllowRPM | internal/ratelimit/redis_backend.go:37-51 | one key changes, exactly as the script says |
| RedisBackend.RedisBackend.DoWithRetry | internal/ratelimit/redis_backend.go:331-361 | transient errors are retried up to the maximum, and the store is as after the scripts of all callers in the order they ran, the retried one with its captured member and time each time; the answer is that of the last attempt, and an error admits nothing |
| RedisBackend.RedisBackend.TryAllowRPMWithRetry | internal/ratelimit/redis_backend.go:363-382 | the same for one key; while nobody else ran anything the store is as after one run at most |
| RedisBackend.RedisBackend.CheckAll | internal/ratelimit/redis_backend.go:144-182 | every check of the script in its order, stopping at the first that fails, with nothing but pruning |
| RedisBackend.RedisBackend.EvalTryAllowAll | internal/ratelimit/redis_backend.go:144-190 | answers whether all checks hold, and leaves the store that AllowedAllSets, AttemptRefines and SameAnswers speak of |
| RedisBackend.RedisBackend.TryAllowAllWithRetry | internal/ratelimit/redis_backend.go:473-528 | the same for a credential and its model |
| RedisBackend.RedisBackend.ConsumeTokensWithRetry | internal/ratelimit/redis_backend.go:423-437 | the same for tokens, whose answer nobody reads |
| RedisBackend.RedisBackend.DeleteKey | internal/ratelimit/redis_backend.go:576-582 | both sets of the key are gone, and nothing else |
| RedisInterference.ExecuteTwice | internal/ratelimit/redis_backend.go:331-361 | running any of the scripts again at once leaves the store as it is |
| RedisInterference.SetsAreExact | internal/ratelimit/redis_backend.go:331-361 | however the scripts of all callers interleave, and however often some are retried, every set holds exactly what was recorded in it inside the window, each member at its captured time |
| RedisInterference.RecordedOnce | internal/ratelimit/redis_backend.go:331-361 | a member is in its set, once and at its captured time, exactly when some attempt recorded it and the window still covers it, whatever others ran between the attempts |
| RedisAdmission.AllowedAllSets | internal/ratelimit/redis_backend.go:144-190 | an admission adds one member to the set of each charged key; every other set is at most pruned |
| RedisAdmission.AllowedTwice | internal/ratelimit/redis_backend.go:331-361 | running luaTryAllowAll again with its captured members leaves the store as after one run, and never turns a refusal into an admission |
| RedisAdmission.ConsumedTwice | internal/ratelimit/redis_backend.go:90-100 | running luaConsumeTokens again leaves the store as after one run |
| RedisRefinement.DecisionsRefine | internal/ratelimit/redis_backend.go:144-190 | luaTryAllowAll decides as the in-process backend does on the same history, for both keys and both limits |
| RedisRefinement.StoreAfterAttempt | internal/ratelimit/redis_backend.go:144-190 | its sets then show the history with the admission, if there was one |
| RedisRefinement.AttemptRefines | internal/ratelimit/redis_backend.go:144-190 | store and in-process usage stay in step through an attempt |
| RedisRefinement.StoreAfterTokens | internal/ratelimit/redis_backend.go:90-100 | the sets after luaConsumeTokens show the history with the tokens |
| RedisRuns.SameAnswers | internal/ratelimit/redis_backend.go:90-190 | over every run of token recordings and attempts, with fresh members and keys that outlive the window, the scripts answer as the in-process backend does, as long as its buffers drop nothing |
| RedisRunLength.ShortRunFits | internal/ratelimit/local_backend.go:69-104 | a run no longer than the buffers drops nothing |
| RedisRunLength.OverfullRunDiffers | internal/ratelimit/local_backend.go:139-149 | a run that fills the token buffer is answered differently |
| RedisRunLength.SameAnswersUpTo | internal/ratelimit/redis_backend.go:90-190 | all fresh runs of at most n operations are answered alike if and only if n is at most the buffer size plus one |
| RedisRunLength.LimitedRunAgrees | internal/ratelimit/redis_backend.go:90-190 | under request limits that the buffer can hold, runs of any number of attempts are answered alike, up to the buffer's capacity of token records |
| BackendRuns.RunBoth | internal/ratelimit/redis_backend.go:90-190 | the two backend objects answer such runs alike |
| RedisBackend.TotalTokens | internal/ratelimit/redis_backend.go:156-169 | the sum over the members is the same in any order |
| HybridBackend.EffectiveLimitIsExact | internal/ratelimit/hybrid_backend.go:255-278 | for any limit other than -1 the effective limit is never -1 and holds local usage to what remote traffic leaves, a negative local total passing always |
| HybridBackend.UnclampedLimitWouldLift | internal/ratelimit/hybrid_backend.go:255-278 | without the clamp, one request over the limit would give the unlimited marker |
| HybridBackend.WriteQueue.Enqueue | internal/ratelimit/hybrid_backend.go:105-112 | each offer is queued, or dropped exactly when the queue is full |
| HybridBackend.WriteQueue.WorkerReceive | internal/ratelimit/hybrid_backend.go:175-179 | the head of the queue moves into the batch, a full batch is flushed at once; resting batches stay under 200 and every accepted operation is in exactly one place |
| HybridBackend.WriteQueue.WorkerTick | internal/ratelimit/hybrid_backend.go:180-181 | a tick flushes the whole batch |
| HybridBackend.WriteQueue.WorkerDrain | internal/ratelimit/hybrid_backend.go:161-174 | on shutdown everything accepted has been flushed, in order |
| HybridWrites.OffersAreMembers | internal/ratelimit/hybrid_backend.go:353-356 | an admission offers exactly one write for each of its keys, with its member and the captured time, a refusal none |
| HybridWrites.AdmissionReachesStore | internal/ratelimit/hybrid_backend.go:119-150 | written out, an admission adds to each of its keys in the shared store exactly the member the shared script would have added |
| HybridWrites.FlushedIsShown | internal/ratelimit/hybrid_backend.go:117-183 | whatever the batches, inside the window every key of the shared store shows exactly the members flushed to it, each at its captured time |
| HybridBackend.HybridBackend.TryAllowRPM | internal/ratelimit/hybrid_backend.go:282-295 | admits exactly when local plus estimated remote traffic is below the limit; records and offers one write exactly then |
| HybridBackend.HybridBackend.CanAllowRPM | internal/ratelimit/hybrid_backend.go:297-300 | the same decision, recording nothing |
| HybridBackend.HybridBackend.CanAllowTPM | internal/ratelimit/hybrid_backend.go:302-308 | the token decision against local plus remote traffic, for any local total |
| HybridBackend.HybridBackend.ConsumeTokens | internal/ratelimit/hybrid_backend.go:310-315 | records locally and offers one write |
| HybridBackend.HybridBackend.TryAllowAll | internal/ratelimit/hybrid_backend.go:329-358 | admits exactly when both keys are below both limits counting remote traffic (a negative local token total passes); one write is offered for each recorded counter |
| HybridBackend.HybridBackend.ReadLocal | internal/ratelimit/hybrid_backend.go:214-224 | the local counts of the keys that were tracked, at the moment of the read |
| HybridBackend.HybridBackend.Publish | internal/ratelimit/hybrid_backend.go:226-244 | whatever happened since the read, every key that was read gets total minus the count read, not below 0, and is then reported at the larger of local count and shared total if and only if its count still agrees with the one read |
| HybridBackend.AdmissionBetweenIsOnTop | internal/ratelimit/hybrid_backend.go:201-245 | a request admitted between the read and the publishing is counted on top of a larger shared total |
| HybridBackend.HybridBackend.SyncAroundDelete | internal/ratelimit/hybrid_backend.go:201-245 | a key deleted in between has its estimate back, though it is no longer tracked |
| HybridBackend.HybridBackend.DoSync | internal/ratelimit/hybrid_backend.go:201-245 | with nothing in between, local and remote of every tracked key add up to the larger of the two; a sync that timed out changes nothing, and untracked keys keep theirs |
| HybridBackend.HybridBackend.SyncAndReport | internal/ratelimit/hybrid_backend.go:317-327 | the reads after a sync report the larger of the local count and the shared total |
| HybridBackend.HybridBackend.DeleteKey | internal/ratelimit/hybrid_backend.go:365-376 | forgets the key locally and in the remote estimates, and sends its deletion to Redis |
| Fail2Ban.Fail2Ban.RecordResponse | internal/fail2ban/fail2ban.go:118-187 | changes exactly the pair it names, as the abstract pair machine does; what that machine counts, and when it bans, is said by CountersCountResponses and BanStarts |
| Fail2Ban.Fail2Ban.IsBanned | internal/fail2ban/fail2ban.go:189-234 | true exactly when the pair's ban is in force; an expired one is removed on the way |
| Fail2Ban.Fail2Ban.Unban | internal/fail2ban/fail2ban.go:255-268 | lifts one pair's ban and clears its counters |
| Fail2Ban.Fail2Ban.UnbanCredential | internal/fail2ban/fail2ban.go:271-286 | removes every entry whose key starts with the credential and a bar, and no other |
| Fail2Ban.Fail2Ban.HasAnyBan | internal/fail2ban/fail2ban.go:289-303 | true exactly when a key with that prefix has a ban in force |
| Fail2Ban.Fail2Ban.GetBannedCount | internal/fail2ban/fail2ban.go:350-361 | counts the keys whose ban is in force |
| Fail2BanReplay.BanKeyPrefix | internal/fail2ban/fail2ban.go:61-72 | for names without a bar the prefix test finds exactly the credential's own keys |
| Fail2BanReplay.BanKeyInjective | internal/fail2ban/fail2ban.go:61-72 | for names without a bar equal keys mean equal pairs |
| Fail2BanReplay.SeparatorInNameCollides | internal/fail2ban/fail2ban.go:61-72 | names with a bar can share a key |
| Fail2BanReplay.ExpiryTestsAgree | internal/fail2ban/fail2ban.go:118-140 | the two expiry tests agree at every instant if and only if the ban duration is not negative |
| Fail2BanReplay.SwallowedFailureShows | internal/fail2ban/fail2ban.go:118-187 | for every policy with a negative duration that some other counted failure outlasts, a history where the table and the replay differ |
| Fail2BanReplay.EventIsLocal | internal/fail2ban/fail2ban.go:118-286 | an event changes no pair it does not name |
| Fail2BanReplay.TableIsReplay | internal/fail2ban/fail2ban.go:118-286 | over all timed histories and pairs the lazily expired table shows, at every later instant, what an eager replay of the pair's own events shows, if and only if no counted code bans for a negative time or every one does so at its first failure |
| Fail2BanReplay.EveryPairIsSound | internal/fail2ban/fail2ban.go:118-187 | an unbanned pair has every counter below its threshold; a banned pair has its banning code exactly at max(1, MaxAttempts) |
| Fail2BanCounts.RunEvents | internal/fail2ban/fail2ban.go:118-286 | one call for every event of a history leaves the object with the table the lemmas about histories speak of |
| Fail2BanCounts.CountersCountResponses | internal/fail2ban/fail2ban.go:118-187 | over every history, an unbanned pair's counter of each tracked code is the number of its responses with that code since its last success, lifted ban or expired ban, and no other code has a counter |
| Fail2BanCounts.BanStarts | internal/fail2ban/fail2ban.go:118-187 | a ban starts exactly at the response that makes that number max(1, MaxAttempts), of a pair with no ban or an expired one; it keeps that instant, that code and the rule's duration |
| Fail2BanCounts.BanLasts | internal/fail2ban/fail2ban.go:118-286 | a ban lasts exactly until an event of its pair lifts it or finds it expired |
| Fail2BanCounts.LastResetExists | internal/fail2ban/fail2ban.go:118-286 | there is exactly one position the counting starts from |
| Fail2BanReplay.AnyBanIsSomeBan | internal/fail2ban/fail2ban.go:289-303 | HasAnyBan holds exactly when IsBanned holds for some model |
| Fail2BanReplay.CountIsNumberOfBannedPairs | internal/fail2ban/fail2ban.go:350-361 | GetBannedCount is the number of banned pairs |
| TokenRefresh.CreateKeepsInv | internal/auth/vertex.go:132-137 | a first caller opens a waiting list that its own request will serve |
| TokenRefresh.JoinKeepsInv | internal/auth/vertex.go:168-172 | a coalesced caller joins a list that is being served |
| TokenRefresh.GiveUpSendingKeepsInv | internal/auth/vertex.go:147-166 | an initiator that times out before sending takes the whole list with it |
| TokenRefresh.FinishKeepsInv | internal/auth/vertex.go:220-292 | success, failure and a recovered panic all take the list out exactly once |
| TokenRefresh.DeliverKeepsInv | internal/auth/vertex.go:237-243 | a delivery reaches a channel that was not sent to before |
| TokenRefresh.GiveUpWaitingKeepsInv | internal/auth/vertex.go:178-184 | a waiter that times out leaves no trace in any list |
| TokenRefresh.FailAllKeepsInv | internal/auth/vertex.go:453-482 | failing the waiters on Stop moves every listed one into a delivery of its own |
| TokenRefresh.StepKeepsInv | internal/auth/vertex.go:93-293 | every step of every goroutine keeps the protocol's invariant |
| TokenRefresh.EveryStateIsSound | internal/auth/vertex.go:93-293 | the invariant holds in every interleaving |
| TokenRefresh.AtMostOneResponse | internal/auth/vertex.go:215-293 | in every interleaving each channel is sent to at most once, so a buffered send never drops |
| TokenRefresh.NoWaiterIsOrphaned | internal/auth/vertex.go:132-185 | in every interleaving a listed credential has its creator's request still being sent, queued or processed |
| TokenResponses.ResponseIsItsOwn | internal/auth/vertex.go:215-293 | over every run, whatever a channel holds: its caller asked for a credential, and a later step took the channel off that credential's list with this very response, which is what a refresh of that credential ended with, or an error of an initiator that gave up or of Stop |
| TokenResponses.FinishAnswersEveryone | internal/auth/vertex.go:266-284 | everyone listed for a credential when its refresh ends gets what the refresh ended with, and nothing else, ever |
| TokenResponses.OwedSince | internal/auth/vertex.go:215-293 | what is owed now was owed from the step that took the channel off its list |
| TokenResponses.OffOnce | internal/auth/vertex.go:215-293 | no channel is taken off a list twice |
| TokenDelivery.WaiterIsServedIffServer | internal/auth/vertex.go:93-293 | in every reachable state a listed waiter has a continuation that sends it a response if and only if its credential has a server left: the worker, a request in processing, an initiator that can still give up, or the waiters still to be failed |
| TokenDelivery.EveryWaiterCanBeServed | internal/auth/vertex.go:93-293 | before the waiters are failed on Stop every listed waiter has such a continuation |
| TokenDelivery.LateWaiterIsOrphaned | internal/auth/vertex.go:94-203 | a caller that passed the stopped test before Stop and lists itself after the waiters were failed is never sent anything |
| TokenManager.VertexTokenManager.JoinRefresh | internal/auth/vertex.go:126-172 | one critical section: a new list for the first caller, one more channel at the end of the list for the others |
| TokenManager.VertexTokenManager.SendRefreshRequest | internal/auth/vertex.go:145-146 | the initiator's request is queued, as the protocol's step |
| TokenManager.VertexTokenManager.TakeRequest | internal/auth/vertex.go:204-214 | the worker takes the oldest request, as the protocol's step |
| TokenManager.VertexTokenManager.ReceiveResponse | internal/auth/vertex.go:175-177 | a waiter receives what its channel holds, as the protocol's step |
| TokenManager.VertexTokenManager.CancelSending | internal/auth/vertex.go:147-166 | the initiator's timeout before its request was sent, as the protocol's step |
| TokenManager.VertexTokenManager.FinishRefresh | internal/auth/vertex.go:266-271 | the worker's final critical section: everyone listed for the credential is handed its response, and the list is gone |
| TokenManager.VertexTokenManager.SendNext | internal/auth/vertex.go:275-284 | one non-blocking send of a delivery loop |
| TokenManager.VertexTokenManager.RemoveWaitingChan | internal/auth/vertex.go:487-510 | removes the channel from its list and an emptied list from the table |
| TokenManager.VertexTokenManager.EnterGetToken | internal/auth/vertex.go:94-96 | no caller enters once the manager is stopped |
| TokenManager.VertexTokenManager.FailAllWaiters | internal/auth/vertex.go:453-482 | hands everyone still listed an error, as the protocol's step |
| TokenManager.VertexTokenManager.ExitWorker | internal/auth/vertex.go:199-203 | the worker leaves on the closed stop channel, whatever is queued |
| TokenManager.FirstIsUnsent | internal/auth/vertex.go:275-284 | in a sound state the next channel of a delivery is empty, so the send succeeds |
| Scope.NormalizeIdempotent | internal/scope/scope.go:49-51 | trimming and lower-casing a second time changes nothing |
| Scope.NormalizeWrittenOut | internal/scope/scope.go:49-51 | the normal form is what stands between the surrounding white space, letter by letter in lower case |
| Scope.NormalizeList | internal/scope/scope.go:32-47 | the first occurrences of the normalised, non-blank values in order |
| Scope.SortedNormalizedIsCanonical | internal/scope/expression.go:224-228 | stored lists are sorted, without repetition, normalised and non-blank |
| Scope.NormalFormIsMeaning | internal/scope/expression.go:224-228 | two raw lists have one normal form exactly when they stand for the same scopes |
| Scope.IntersectsMeant | internal/scope/scope.go:135-152 | the list test depends on the set of scopes alone, with wildcards on either side |
| ScopeKeys.EncodeKeyValues | internal/scope/scope.go:101-109 | the loop writes the length-prefixed text of the list |
| ScopeKeys.KeyValuesParses | internal/scope/expression.go:241-249 | whatever follows, the list can be read back from the text: no value can imitate a separator or a length |
| ScopeKeys.KeyValuesInjective | internal/scope/expression.go:241-249 | equal keys mean equal lists, for arbitrary strings |
| ScopeKeys.Key | internal/scope/scope.go:89-99 | the key of a context, with its sets enumerated in any order |
| ScopeKeys.ContextKeyIsFaithful | internal/scope/scope.go:89-99 | equal context keys if and only if both are administrators or neither is and their scopes agree |
| ScopeKeys.SameKeySameDecision | internal/scope/scope.go:53-99 | contexts with equal keys make the same Allows decision on every input |
| ScopeExpression.NormalizeAlternative | internal/scope/expression.go:182-204 | the loop computes the normal form and rejects exactly the alternatives with a requirement that names no scope |
| ScopeExpression.AlternativeKeyInjective | internal/scope/expression.go:230-239 | equal alternative keys mean equal alternatives, for arbitrary strings |
| ScopeExpression.NormalAlternativeIsNormal | internal/scope/expression.go:182-204 | a normal form has canonical lists, no requirement twice, and its requirements in key order |
| ScopeExpression.NormalizeExpression | internal/scope/expression.go:33-56 | the loop with its key set and early exit computes the distinct normal forms, never more than 256, and the false expression exactly beyond that |
| ScopeExpression.NormalsMembers | internal/scope/expression.go:40-54 | nothing is lost and nothing added but duplicates and alternatives that can never hold |
| ScopeExpression.NormalizedIdempotent | internal/scope/expression.go:33-56 | normalising a second time changes nothing |
| ScopeAlgebra.NormalSatisfies | internal/scope/expression.go:131-141 | on normal alternatives the program's test is the set meaning of the alternative |
| ScopeAlgebra.NormalAlternativeMeans | internal/scope/expression.go:182-204 | normalising drops an alternative exactly when it can never hold and otherwise keeps its meaning for every context |
| ScopeAlgebra.AllowsExpressionMeans | internal/scope/expression.go:112-129 | an expression allows a context exactly when it is absent, or keeps within the cap and some alternative holds in the set meaning |
| ScopeAlgebra.NormalizedMeans | internal/scope/expression.go:33-56 | normalisation preserves the decision for every context |
| ScopeAlgebra.And | internal/scope/expression.go:58-88 | the loop, with its early exits, computes the conjunction |
| ScopeAlgebra.AndMeans | internal/scope/expression.go:58-88 | And allows exactly what all operands allow, except that a product beyond the cap allows nothing |
| ScopeAlgebra.AndOfTwoCap | internal/scope/expression.go:70-72 | for two operands the cap strikes exactly when the number of pairs exceeds 256 |
| ScopeAlgebra.Or | internal/scope/expression.go:90-110 | the loop, with its early exits, computes the disjunction |
| ScopeAlgebra.OrMeans | internal/scope/expression.go:90-110 | Or allows exactly what some operand allows, an absent one counting as the empty alternative, except that more than 256 gathered alternatives allow nothing |
| ScopeAlgebra.OrOfNilIsRestricted | internal/scope/expression.go:96-101 | an absent operand allows everyone by itself, but inside Or not a context that is denied everything |
| ScopeLegacy.AllowsMeans | internal/scope/scope.go:53-74 | on stored lists the credential test is the set meaning: nothing denied and something granted, with the no-match marker refused even to administrators |
| ScopeLegacy.AllowsWrittenOut | internal/scope/scope.go:53-74 | that decision written out member by member, wildcards and the no-match marker included |
| ScopeLegacy.SeveralProjected | internal/scope/expression.go:164-180 | several alternatives: the first one that breaks the common form decides, by asking for nothing or by spoiling the projection; without one the scopes of all are merged |
| ScopeLegacy.OthersProjected | internal/scope/expression.go:143-163 | what is projected of no expression, of none or one alternative, and of one that denies everybody |
| ScopeLegacy.LegacyProjection | internal/scope/expression.go:143-180 | the loops compute the projected pair of lists |
| ScopeLegacy.LegacyGrantsNoMore | internal/scope/expression.go:143-180 | whoever the projected lists allow, the expression allows |
| ScopeLegacy.SimpleProjectionIsExact | internal/scope/expression.go:156-163 | with one alternative of at most one requirement only an administrator can be treated differently, and exactly when |
| ScopeLegacy.ProjectionCanGrantLess | internal/scope/expression.go:168-179 | the merged list of two alternatives can grant less than the expression |
| ScopeLegacy.FromScopes | internal/scope/expression.go:20-27 | the expression made from two lists |
| ScopeLegacy.ScopesRoundTrip | internal/scope/expression.go:20-180 | two lists made an expression and projected back come back in normal form, unless everything is denied |
| ScopeLegacy.ExpressionOfMeans | internal/scope/expression.go:20-129 | the expression made from two lists allows what the lists allow; an administrator always |
| AnthropicResponse.AnthropicToOpenAI | internal/converter/anthropic/response.go:14-89 | the loop collects texts, reasoning and tool calls in order, with empty texts skipped and {} for a tool without input |
| AnthropicResponse.OneMoreBlock | internal/converter/anthropic/response.go:28-56 | each further block adds its text behind a blank line, its thought, its tool call, or nothing, whatever came before |
| AnthropicResponse.NothingConverted | internal/converter/anthropic/response.go:58-107 | the finish reason by the table and the counts, cached tokens included, whatever the content |
| AnthropicStream.TransformAnthropicStreamToOpenAI | internal/converter/anthropic/streaming.go:33-237 | the scanner loop writes exactly the chunks of the event fold over its lines; RenderedIsRead and ConvertLines say what that makes of the lines of a message |
| AnthropicStream.Transformer.Handle | internal/converter/anthropic/streaming.go:65-227 | one event changes the loop's variables and writes chunks as the fold's step does |
| StreamAgreement.QuietEventsEmitNothing | internal/converter/anthropic/streaming.go:88-91 | pings, signatures, malformed lines, the end mark and message deltas without a stop reason can stand anywhere without effect |
| StreamAgreement.BlockFeeds | internal/converter/anthropic/streaming.go:88-171 | however a block is divided, the client ends up with it whole and the next tool index is the number of calls so far |
| StreamAgreement.FragmentsFollowOpenings | internal/converter/anthropic/streaming.go:146-162 | over whole messages, every fragment follows the opening of its tool call if and only if every input piece of a block that is not a tool call is empty |
| StreamAgreement.StreamReassembles | internal/converter/anthropic/streaming.go:33-237 | every such stream, however divided and padded, reassembles to the same message |
| StreamAgreement.StreamAgreesWithResponse | internal/converter/anthropic/response.go:33-107 | streaming is well-ordered exactly when only tool calls carry input; it then agrees with converting the whole message on id, reasoning, finish reason, tool ids, names and order; on text exactly when at most one text block has any; on arguments exactly when every tool's pieces already read as its input is written |
| StreamAgreement.CanonicalNeedsPieces | internal/converter/anthropic/response.go:41-55 | a tool streamed without pieces never has its arguments written canonically |
| StreamAgreement.ToolWithoutPieces | internal/converter/anthropic/response.go:41-55 | a message with such a tool, whose arguments disagree |
| StreamAgreement.UsageAgrees | internal/converter/anthropic/response.go:114-132 | prompt and cached counts agree; completion and total counts exactly when the final event reports usage or the first counted nothing; cache creation is reported only without streaming |
| StreamLines.RenderedIsRead | internal/converter/anthropic/streaming.go:44-64 | data lines of events in order, with any other lines between, are read back as those events |
| StreamLines.ConvertLines | internal/converter/anthropic/streaming.go:33-237 | from the lines of a message to its chunks: the role comes first and once, the finish reason is the one of the table, and what a client puts together agrees with the message converted whole |
| StreamLines.RoleComesFirst | internal/converter/anthropic/streaming.go:66-86 | the first chunk of a message carries the role and no later one does |
| StreamLines.ErrorIsTold | internal/converter/anthropic/streaming.go:208-221 | wherever an error event stands, its message, or a general one, is written between what stands before and after it, with finish reason stop |
| StreamLines.ErrorEndsStream | internal/converter/anthropic/streaming.go:208-221 | a message cut short anywhere by an error: the client has what came before, then the error, and knows it is over |
| EventStream.Uint32 | internal/converter/eventstream.go:37-38 | a big-endian length is read back as written |
| EventStream.ReadFrame | internal/converter/eventstream.go:29-57 | one prelude and frame body read through the two buffers, or why there is none |
| EventStream.DecodeEventStreamToSSE | internal/converter/eventstream.go:25-85 | on any input the loop ends, stays within it, and writes what the decoding function says |
| EventStream.DecodesFrame | internal/converter/eventstream.go:28-84 | a whole frame yields exactly its event, and decoding goes on behind it |
| EventStream.DecodesPartialFrame | internal/converter/eventstream.go:30-57 | a frame cut short anywhere yields nothing and no error |
| EventStream.DecodingInvertsFraming | internal/converter/eventstream.go:25-85 | of any truncation of any encoded frames, exactly the events of the wholly contained ones, in order |
| EventStream.DecodesAll | internal/converter/eventstream.go:25-85 | nothing cut off: every event of every frame, in order, and no error |
| EventStream.OversizeAfterFrames | internal/converter/eventstream.go:46-49 | an oversized frame behind whole ones is an error, and their events stay written |
| EventLines.FramesAreRendered | internal/converter/converter.go:218-232 | what the decoder writes for frames that carry the events of a stream is, line by line, a rendering the stream converter reads them back from |
| EventLines.EmptyFrameIsSkipped | internal/converter/eventstream.go:41-44 | a prelude that leaves nothing behind itself is passed over, wherever it stands |
| EventLines.HeadersWithoutPayload | internal/converter/eventstream.go:59-64 | a frame whose headers claim to reach into the checksum or beyond it is passed over |
| EventLines.LengthsCompare | internal/converter/eventstream.go:37-38 | lengths are read most significant byte first |
| Lines.LinesLoseNothing | internal/converter/converter.go:49-59 | the ended lines and the rest are the whole text, and no line holds a line feed |
| Lines.LinesReadBack | internal/converter/converter.go:49-59 | lines and remainder are the only way to cut a text at its line feeds |
| Lines.LinesOfMore | internal/converter/converter.go:47-61 | more text only completes the unfinished line |
| Lines.LastIndexCuts | internal/proxy/stream.go:997-1006 | cutting at the last line feed separates the ended lines from the unfinished one |
| LineChunking.AliasWriter.Write | internal/converter/converter.go:47-61 | every line that has ended is rewritten and written, the rest stays pending |
| LineChunking.AliasWriter.Flush | internal/converter/converter.go:63-70 | the pending rest is rewritten and written, if there is one |
| LineChunking.RewriteChunks | internal/converter/converter.go:40-70 | for every split into writes, the output after the flush is the concatenated input rewritten line by line |
| LineChunking.TextRewritten | internal/converter/converter.go:47-70 | a line is rewritten together with its line feed, and what is left at the end without one |
| LineChunking.EventScanner.OnChunk | internal/proxy/stream.go:984-1044 | the lines ended by this read are scanned, the unfinished one kept |
| LineChunking.DataLineCarriesPayload | internal/proxy/stream.go:1009-1018 | whatever carriage returns end a data line, its payload is what stands behind the prefix, and the end mark carries none |
| LineChunking.OnlyDataLinesCarry | internal/proxy/stream.go:1009-1018 | and no other line carries anything |
| LineChunking.ScanKeepsLast | internal/proxy/stream.go:1016-1040 | the scan keeps the last completed payload, the total of the last one that reports usage, and every completed payload in order |
| LineChunking.ScanChunks | internal/proxy/stream.go:984-1044 | for every split into reads, every ended line of the whole stream is scanned once and in order |
| ModelIndex.AddedKeepsSound | internal/models/manager.go:1159-1173 | adding a model keeps the index sound, and matching if it was |
| ModelIndex.ReplacementMembers | internal/models/manager.go:1188-1210 | a replacement lists the reported models and the configured ones, and no other |
| ModelIndex.ReplacementDistinct | internal/models/manager.go:1188-1210 | and none of them twice |
| ModelIndex.ReplacedAgrees | internal/models/manager.go:1188-1230 | after a replace both maps say the same about the credential, and nothing changed for any other |
| ModelIndex.ReplacedKeepsSound | internal/models/manager.go:1188-1230 | a replace keeps the index sound, and matching if it was |
| ModelManager.Builder.AddModelLimits | internal/models/manager.go:681-707 | one model's limits add exactly the credentials they map it to, each once, to both maps |
| ModelManager.MapLimits | internal/models/manager.go:661-707 | both maps hold exactly the mapped pairs, in whatever order the models are visited |
| ModelManager.Manager.LoadModelsFromConfig | internal/models/manager.go:486-580 | the initial load maps exactly what the configuration maps, both ways, and registers every credential that is not a proxy |
| ModelManager.Manager.AddModel | internal/models/manager.go:1159-1173 | exactly one pair more in each map, unless it is there |
| ModelManager.Manager.DropCredential | internal/models/manager.go:1212-1224 | the credential leaves every list and emptied lists disappear |
| ModelManager.Manager.ReplaceModelsForCredential | internal/models/manager.go:1178-1234 | the credential lists exactly what was reported and what the configuration limits to it, in both maps, and no other pair changes; a blank name changes nothing |
| ModelManager.Manager.RestoreProxies | internal/models/manager.go:719-740 | proxies with discovered models keep their list and are listed back |
| ModelManager.Manager.UpdateDBModels | internal/models/manager.go:591-753 | limits become configuration plus database; the index becomes exactly the mapped pairs, with the lists of discovered proxies kept |
| ModelManager.RebuiltMatches | internal/models/manager.go:719-740 | a rebuilt index matches both ways if and only if every kept list already has the models mapped to its proxy |
| ModelManager.RebuiltLists | internal/models/manager.go:661-707 | a rebuilt list holds exactly the models bound to the known credential and the unbound ones, which go to the configured credentials or, when there are none, to all but synthetic ones |
| ModelManager.MergedMembers | internal/models/manager.go:594-652 | the limits in force are those of the configuration and of the database, model by model |
| ModelManager.RebuiltCanMismatch | internal/models/manager.go:727-728 | a concrete update after which a model lists a proxy that does not list it |
| ModelManager.NextKeepsSound | internal/models/manager.go:591-1234 | every operation keeps the index sound |
| ModelManager.EveryIndexIsSound | internal/models/manager.go:591-1234 | across any sequence of operations no list repeats itself, no model keeps an empty list, and every listed model lists the credential back |
| ModelManager.Manager.HasModel | internal/models/manager.go:1115-1156 | a model that is listed is served by those listed for it; one that is not, by credentials nothing is known of, and by those without models while no limits are configured |
| ModelManager.ServesListed | internal/models/manager.go:1115-1156 | in a sound index a credential serves exactly the models that list it, and models nobody lists only where nothing is known about it; while the maps match, a credential with models serves exactly its own list |

## Left out

- HTTP, TLS, compression, logging, metrics, tracing, configuration parsing and price arithmetic: plumbing without deep state.
- JSON, base64 and OAuth: parameters (`Marshal`, `Parser`, `Envelope`) or step outcomes; checksums of binary frames are skipped by the code too.
- Goroutine scheduling: each lock region, channel operation or timeout is one atomic step; jitter and back-off sleeps have no effect on state.
- Clock: a backend call reads the time once; the code may read it again inside the same call.
- RoundRobin.RoundRobin.NextExcluding: candidates, bans and limits are seen under one view, without interleaved consumption between the precheck and the commit; the local backend stands behind the limiter.
- RoundRobin.RoundRobin.constructor: reloading credentials from the database is not modelled.
- RetryChain.Chain.ProviderRetries: the balancer and the transport are an oracle bound by the contracts of `NextRetry` and `NextExcluding`; every credential has a provider type, as configuration validation guarantees.
- RetryChain.Chain.Serve: response bodies, status classification and what is written to the client are outcomes of the oracle.
- TokenDelivery.WaiterIsServedIffServer: says that a continuation exists, not that a scheduler takes it; the cached-token fast path of GetToken is not part of the protocol.
- Fail2BanReplay.TableIsReplay: credential names contain no bar, as the code assumes when it splits keys; last-error texts are not kept.
- HybridBackend.HybridBackend.DoSync: nothing comes between its steps; Publish is stated for whatever does.
- HybridWrites.FlushedIsShown: flushed batches reach the server; the code does not wait for them, and a batch that fails is lost.
- RedisRuns.SameAnswers: every call is answered at its first attempt (a retry after a lost answer can refuse, see RetryRecordsOnce; RecordedOnce says what the sets then hold), members are fresh as random identifiers are, and luaCanAllowRPM stands apart.
- RedisBackend.RedisBackend.TryAllowRPMWithRetry: an attempt either runs the script, with or without its answer arriving, or does not; hash tags and key names are left out.
- Scope.NormalizeIdempotent: scope strings are ASCII, so that trimming and lower-casing are concrete.
- EventStream.DecodeEventStreamToSSE: reader errors other than the end of the stream and write errors are left out.
- LineChunking.AliasWriter.Write: write errors are left out; the rewriting of one line is a parameter.
- AnthropicStream.TransformAnthropicStreamToOpenAI: write and scanner errors, the model name and the timestamp of a chunk are left out.
- StreamAgreement.StreamAgreesWithResponse: messages have a stop reason, and their events are those of whole blocks one after the other, with any quiet events between; other event orders are covered by Transformer.Handle only.
- ModelManager.Manager.UpdateDBModels: order inside rebuilt lists follows map iteration and is not fixed; real model names, weights, scopes and caches are left out.
- ModelManager.Manager.LoadModelsFromConfig: starts from an empty index, as the code says it is called once.
- UsageInjection: claims are for non-negative totals; negative ones inject nothing.
- Vertex and Bedrock request converters, the Responses transformers and websockets: not part of this model.
