# Capacity and scheduling core of the web search service

This project models the part of the service that decides who may search, when, and through which identity, and proves
what those decisions guarantee. Values and pure rules are datatypes and functions; objects whose methods update fields
are classes whose methods are proved equal to those functions; goroutine protocols are state machines whose steps
interleave freely. The laws are lemmas about the functions and the state machines, so they hold of the classes too.

| module | component |
|---|---|
| `Domain`, `Sequences`, `StringOrder` | shared vocabulary; lists without repetition; Go's order on strings |
| `Lifecycle`, `LifeHistory` | one pool entry (seven states, trust, cooldowns) and every history of it, restarts included |
| `PoolModel`, `PoolRuns`, `Pool` | the profile pool as a value, its whole runs, and its classes (`Entry`, `Lease`, `Pool`, `Manager`) |
| `Race` | the workers of `acquireAnyAuto`, one step at a time |
| `Admission` | slot channel plus atomic counter: the live guard, and (without slots) the router's queue |
| `Router` | the router's retry loop |
| `Session`, `SessionTransport` | the fixed Baidu session with its pacer, as a function of what it meets and as a class |
| `BaiduChain`, `BaiduProvider` | strategy chain, fallback policy, breaker and error code, as functions and as classes |
| `Escalation` | a risk response on its way from the chain through the router to the pool |
| `Cache` | the bounded cache and the write log that it refines |
| `Text`, `SearchPlan`, `Finalize` | request normalisation, fingerprints, and result finalisation |
| `Cursor`, `Pagination` | cursor tokens, and the endpoint's decisions about providers, cursors and pages |

## How the model reads the program

* Everything done under one mutex is one step. A run of the pool is any sequence of such steps with time that does not
  run backwards and a new handle for every granted lease. Replacement after `Close` is not part of a run: the runtime
  stops reconciliation first (websearch/internal/bootstrap/search_runtime.go:148-154).
* A lease's once-flag is modelled by the set of outstanding leases: returning a lease that is not outstanding changes
  nothing.
* `float64` is `real`; instants and durations are integers. The decay `exp(...)` applied at a restart is any factor in
  (0, 1]. The hash bucket of a request id is a parameter.
* What comes from outside is a parameter: the outcome of a manifest write (it sets `manifestHealthy`, decides the returned
  error, and leaves the store with the new record or the old one), the answer of a factory, the verdict and duration of an upstream request, the jitter drawn, a
  cancellation, the outcome of a trace write, the order in which Go lists a map.
* A restart continues an identity's history from what the manifest store holds: the record at the last write that
  succeeded, or nothing. Leases of the old process are gone.
* Loading a manifest checks its version and its profile id only, so a manifest with a negative weight or a score outside
  [0, 1] is loaded (websearch/internal/profilepool/manifest.go:37-53). The histories here write their own manifests; for
  a pool built on foreign ones, `PoolModel.InitialStateKeepsInvExactlyWhen` says which it can start from.
* In the session model a request takes at most the request timeout where a lemma says so (`ValidVisit`), timers are
  exact, and pacer and session share the minimum interval and the jitter.
* Lower-casing is exact for the characters whose lower case is ASCII; other characters stand for themselves, and no
  domain, file type or region with such a character is accepted either way. Strings are valid Unicode.
* Where cursors are followed (`Sound`), the search service answers for an enabled provider, a pinned request with the
  pinned one, and a sealed cursor fits the endpoint's 4096 characters.
* SHA-256 over JSON is an injective digest; the AEAD is an ideal seal that binds a state to a secret and a prefix.
  `CanonicalizeURL` is an arbitrary partial function.

## Where natural claims fail

Some properties that one may expect of this code do not hold without a condition. Each comes with a condition that can be
checked beforehand, exact where the lemma is named `...ExactlyWhen`, and with a history, a turn or an interleaving that
breaks the property otherwise.

* A promotion may come with fewer than four successes since the last charged failure, when that failure's manifest write
  was lost and the process restarted: `LifeHistory.PromotionIsEarned`, `LifeHistory.FourSinceKeptExactlyWhen`, and the
  history `LifeHistory.FailureForgotten`.
* A quarantine deadline can be overwritten by an earlier one: `LifeHistory.QuarantineKeptExactlyWhen`, with the history
  `LifeHistory.QuarantineShortened`.
* A drained identity can be leased again: `LifeHistory.DrainIsFinalExactlyWhen`, with the history
  `LifeHistory.DrainUndone`.
* A restart lifts quarantines and retirements: `Lifecycle.RestartServes`, for every manifest.
* A blocked page cools the Baidu session but never quarantines the identity that met it, and is not reported as a block:
  `Escalation.SessionRiskQuarantines`, `BaiduChain.ErrorTellsRisk`.
* Replacing a retired identity is safe for outstanding leases exactly when none is out, which an open pool guarantees
  and a closed one does not: `PoolModel.ReplaceKeepsInvExactlyWhen`.
* A lease can be left in the channel after a timeout: `Race.LeaseLeftBehindExactlyWhen`, with the interleaving
  `Race.ALeaseCanBeLeftBehind`.
* The waiting race can lease the identity that has just failed: `Router.RaceMayRepeat`; an immediate try cannot.
* Eviction can find nothing to evict when the empty key is stored: `Cache.NothingEvictedOnlyIf` and
  `Cache.NothingEvictedIf`.
* Threads that have been rejected still count in the queue and can cause further rejections while nobody waits:
  `Admission.RejectionWithoutWaitersExactlyWhen` and `Admission.OverLimitAloneExactlyWhen`; they never cause
  over-admission (`Admission.AdmissionIsBounded`).

## Model

| member | source | states |
|---|---|---|
| `Lifecycle.NormalizedConfig` | websearch/internal/profilepool/pool.go:57-80 | whatever configuration comes in, every threshold, cooldown and limit that the pool works with is in range |
| `Lifecycle.NormalizedTrust` | websearch/internal/profilepool/trust.go:15-35 | trust settings are brought into range field by field |
| `Lifecycle.NormalizedTrustMeans` | websearch/internal/profilepool/trust.go:15-35 | settings in range are kept; the others become 20 samples, rate 0.9, score 0.9, 3 failures, weight 0.2 and a week; normalising twice changes nothing |
| `Lifecycle.NormalizedConfigMeans` | websearch/internal/profilepool/pool.go:60-76 | a usable configuration is kept as it is; missing values become 80 percent, five minutes, one minute and three recoveries |
| `Lifecycle.MixedEWMAInRange` | websearch/internal/profilepool/lease.go:77-78 | mixing an observation into the recent score keeps it within [0, 1] |
| `Lifecycle.DecayedEWMAInRange` | websearch/internal/profilepool/pool.go:105-116 | the decay at a restart keeps the score within [0, 1] and never raises a score above what it was or above one half |
| `Lifecycle.StepKeepsRecordValid` | websearch/internal/profilepool/lease.go:50-93 | every event of an identity, restart included, keeps counts and weights non-negative, in-flight within capacity, and the score within [0, 1] |
| `LifeHistory.StepKeepsBudget` | websearch/internal/profilepool/pool.go:257-273 | each event keeps the charged failures of a generation within recoveries used plus the current stretch |
| `LifeHistory.StepKeepsScore` | websearch/internal/profilepool/lease.go:67-89 | each event, a restart on the saved manifest included, keeps the score under the ceiling that the successes since the last charged failure allow, as long as record and manifest know of that failure |
| `LifeHistory.StepKeepsIsolation` | websearch/internal/profilepool/lease.go:79-84 | each event keeps a risk response's cooldown ahead of the next time in service |
| `Lifecycle.FailureWeight` | websearch/internal/profilepool/lease.go:95-108 | every charged failure weighs at least a quarter and at most one, a risk response at least three quarters; only a markup change weighs nothing |
| `Lifecycle.UncountedReleaseMeans` | websearch/internal/profilepool/lease.go:50-66 | the last lease of a draining identity retires it whatever the result; a changed page only gives the slot back; when a manifest is written |
| `Lifecycle.CountedReleaseBooks` | websearch/internal/profilepool/lease.go:67-108 | every other release adds one sample and the weight of its result (a quarter for a timeout or network error, three quarters for a rate limit, one for any other failure or success), counts failures in a row, and moves the score the fraction alpha towards 1 or 0; identity, recoveries and generation stay |
| `Lifecycle.CountedReleaseJudges` | websearch/internal/profilepool/lease.go:79-89 | captcha and rate limit quarantine for the quarantine cooldown, else the last tolerated failure in a row degrades for the degradation cooldown, else a probation identity becomes trusted exactly when its new samples, success rate and score reach the thresholds |
| `Lifecycle.RecoveryMeans` | websearch/internal/profilepool/pool.go:257-273 | a cooldown ends at its deadline and not before, in probation, with one recovery used and the row of failures cleared; with none left the identity drains, or retires if no lease is out; nothing else changes |
| `Lifecycle.BirthMeans` | websearch/internal/profilepool/pool.go:98-100 | a birth leads to probation with an empty record, through warming if there is a store; a replacement is a birth in the next generation |
| `Lifecycle.RestartRestores` | websearch/internal/profilepool/pool.go:105-121 | an immediate restart brings back the record as saved, warming, without leases, in the next generation, to become trusted again exactly if it was trusted |
| `Lifecycle.RestartDecays` | websearch/internal/profilepool/pool.go:106-115 | a later restart scales both weights and the distance of the score from 0.5 by the decay, rounds the scaled samples to the nearest, and changes nothing else |
| `Lifecycle.RestartServes` | websearch/internal/profilepool/pool.go:98-121 | after a restart and an activation an identity serves, whatever its manifest says of an unfinished quarantine, spent recoveries or retirement |
| `LifeHistory.StepKeepsBooks` | websearch/internal/profilepool/lease.go:67-76 | each event keeps samples equal to charged releases and the weights accounting for every one of them |
| `LifeHistory.WeightsAreBooked` | websearch/internal/profilepool/lease.go:67-76 | after every history a manifest-free generation has one sample per charged release, and success weight plus one to four times the failure weight covers their number |
| `LifeHistory.RestartOnlyForgets` | websearch/internal/profilepool/pool.go:105-116 | a restart never increases samples, weights or the distance of the score from neutral, keeps deadline and recoveries, and starts the next generation |
| `LifeHistory.DecayEarns` | websearch/internal/profilepool/pool.go:105-116 | the decay of a restart keeps a score, or a number of samples, that was earned |
| `LifeHistory.HistoryKeepsSound` | websearch/internal/profilepool/lease.go:50-93 | all of these hold after every legal history |
| `LifeHistory.RecoveryBudget` | websearch/internal/profilepool/pool.go:257-273 | any generation recovers at most MaxRecoveryAttempts times; a manifest-free generation whose charged releases all fail gets at most (attempts + 1) stretches of charged leases, a stretch being MaxConsecutiveFailures for capacity 1 |
| `LifeHistory.SpentBudgetEndsService` | websearch/internal/profilepool/pool.go:257-273 | once that budget is charged in full the identity is never leased again before it is replaced or the process restarts |
| `LifeHistory.SpentStaysOut` | websearch/internal/profilepool/pool.go:257-273 | an identity out of service with no recovery left and no lease out stays out, whatever happens to it |
| `LifeHistory.SuccessRateThreshold` | websearch/internal/profilepool/trust.go:37-41 | a success rate of at least 0.9 means a success weight of at least 8 plus 9 times the failure weight, and conversely |
| `LifeHistory.EarlyCeilings` | websearch/internal/profilepool/lease.go:77-78 | with the default mixing weight three successes after a failure cannot lift the score to 0.9, four may |
| `LifeHistory.WrittenFailuresAreRemembered` | websearch/internal/profilepool/pool.go:275-282 | if no charged failure's write is lost, no restart ever brings back a record that misses the last charged failure |
| `LifeHistory.PromotionIsEarned` | websearch/internal/profilepool/lease.go:85-89 | under the default thresholds a release promotes only on a success, with at least 20 samples and success weight at least 8 plus 9 times the failure weight; with four charged successes since the last charged failure (restarts in between included) unless the record was restored from a manifest that misses that failure, which takes a lost write |
| `LifeHistory.FailureForgotten` | websearch/internal/profilepool/pool.go:96-122 | a history in which a charged failure's write is lost, the process restarts on the older manifest, and two successes promote |
| `LifeHistory.FourSinceKeptExactlyWhen` | websearch/internal/profilepool/lease.go:85-89 | every promotion of every history has its four successes exactly when no manifest store is configured |
| `LifeHistory.BecomesTrustedOnly` | websearch/internal/profilepool/lease.go:85-89 | over every event: trust comes from a release out of probation or from activating a record restored to be trusted, which takes a restart on a manifest that says trusted; a manifest only ever says what the record was when it was written |
| `LifeHistory.TrustIsPromoted` | websearch/internal/profilepool/lease.go:85-89 | over every legal history: without a promoting release an untrusted identity, its recovery state and its manifest all stay untrusted, through recoveries, drains, replacements and restarts |
| `LifeHistory.TrustIsEarned` | websearch/internal/profilepool/lease.go:85-89 | an identity born without a manifest is trusted only after a release that promoted it, under the default thresholds a success with 20 samples and a success weight of at least 8 plus 9 times the failure weight |
| `LifeHistory.RiskKeepsIdentityOut` | websearch/internal/profilepool/lease.go:79-84 | after a captcha or rate-limit release a generation is not leased before the shorter cooldown is over, and with capacity 1 not before the quarantine is |
| `LifeHistory.QuarantineShortened` | websearch/internal/profilepool/lease.go:82-84 | with two leases out, a history in which a degradation overwrites the quarantine with an earlier deadline |
| `LifeHistory.QuarantineKeptExactlyWhen` | websearch/internal/profilepool/lease.go:79-84 | every history of a profile honours the full quarantine exactly when its capacity is 1 or the quarantine is no longer than the degradation cooldown |
| `LifeHistory.DrainIsLeftExactlyWhen` | websearch/internal/profilepool/lease.go:56-84 | a release takes a draining identity back into cooldown exactly when another lease is out and the charged result is a risk response or the failure that degrades; never with capacity 1 |
| `LifeHistory.DrainUndone` | websearch/internal/profilepool/lease.go:56-84 | with two leases out, a history in which a drained identity is quarantined by a straggler, recovers, and is leased again |
| `LifeHistory.DrainIsFinalExactlyWhen` | websearch/internal/profilepool/pool.go:147-163 | over all histories without replacement or restart no lease follows a drain exactly when the capacity is 1 |
| `PoolModel.LessLoadedIrreflexive` | websearch/internal/profilepool/pool.go:352-359 | no entry is less loaded than itself |
| `PoolModel.LessLoadedTransitive` | websearch/internal/profilepool/pool.go:352-359 | the load order is transitive |
| `PoolModel.LessLoadedTotal` | websearch/internal/profilepool/pool.go:352-359 | of two identities with different ids one is less loaded: the order is a strict total order |
| `PoolModel.LeastIsUnique` | websearch/internal/profilepool/pool.go:339-350 | at most one eligible entry comes before all others |
| `PoolModel.SelectsWhenEligible` | websearch/internal/profilepool/pool.go:339-350 | selection finds an entry exactly when an eligible one exists |
| `PoolModel.SelectionIgnoresOrder` | websearch/internal/profilepool/pool.go:339-350 | the identity selected does not depend on the order of the list |
| `PoolModel.ServedExactlyWhen` | websearch/internal/profilepool/pool.go:223-255 | a request is served exactly when the pool is open, its last manifest write did not fail, the caller is not an explicit one that meets a waiting automatic one after three explicit grants in a row, and some non-excluded identity is in service, or cooled down with a recovery left, and has a free slot |
| `PoolModel.LeaseIsLeastLoaded` | websearch/internal/profilepool/pool.go:223-255 | the leased identity has the smallest share of its capacity out among the free ones of its class, the smaller id at equal shares; buckets below the trusted percentage prefer trusted identities, the others those on probation, and the other class is used only when the preferred one has nothing free |
| `PoolModel.LoadsCompare` | websearch/internal/profilepool/pool.go:352-359 | comparing loads is comparing in-flight counts crosswise multiplied with the capacities |
| `PoolModel.GrantMeans` | websearch/internal/profilepool/pool.go:245-254 | a grant counts one lease on its identity and hands out one new lease; an automatic one resets the explicit streak, an explicit one prolongs it; nothing else is counted |
| `PoolModel.ReleaseDecidesHealth` | websearch/internal/profilepool/lease.go:56-92 | a release that retires a draining identity or is charged writes the manifest, and the health flag follows that write |
| `PoolModel.ActivationMeans` | websearch/internal/profilepool/pool.go:130-144 | activation gives exactly the warming identities before and at the first failed write the state they are to recover to |
| `PoolModel.ActivationDecidesHealth` | websearch/internal/profilepool/pool.go:130-144 | after an activation the store is healthy exactly if no due write failed |
| `PoolModel.TryAcquireKeepsInv` | websearch/internal/profilepool/pool.go:223-255 | an acquisition keeps the lease accounting |
| `PoolModel.ReleaseKeepsInv` | websearch/internal/profilepool/lease.go:50-93 | a release keeps the lease accounting, in every state of the entry |
| `PoolModel.DrainKeepsInv` | websearch/internal/profilepool/pool.go:147-163 | draining retires nothing under a lease |
| `PoolModel.ActivateKeepsInv` | websearch/internal/profilepool/pool.go:130-144 | activation, even one that stops half-way, keeps the lease accounting |
| `PoolModel.ReplaceKeepsInvExactlyWhen` | websearch/internal/profilepool/pool.go:165-189 | a replacement keeps the lease accounting exactly when no lease is out on the replaced identity; in an open pool none ever is |
| `PoolModel.InitialStateKeepsInvExactlyWhen` | websearch/internal/profilepool/pool.go:57-127 | a new pool starts with the accounting in order exactly when every manifest it restores has no negative weight or count and a score that the decay brings into [0, 1] |
| `PoolModel.SaneManifestIsRestorable` | websearch/internal/profilepool/pool.go:105-116 | which every manifest that a pool of this kind wrote satisfies, whatever the decay |
| `PoolRuns.RunKeepsInv` | websearch/internal/profilepool/pool.go:147-189 | in every state that any interleaving of acquire, release, drain, replace, activate, close and waiter changes can reach, each identity's in-flight count is its number of outstanding leases, at most its capacity; while the pool is open a retired identity has none and a draining one has some; every outstanding lease points at the generation it was cut from |
| `PoolRuns.ReturnedStaysOut` | websearch/internal/profilepool/lease.go:42-48 | a lease that is not outstanding stays so through any run that does not hand it out |
| `PoolRuns.SecondReleaseIsIdle` | websearch/internal/profilepool/lease.go:42-48 | releasing a lease a second time, with whatever result and whatever calls in between, changes nothing |
| `PoolRuns.GrantsWithinAllowance` | websearch/internal/profilepool/pool.go:229-253 | while somebody automatic waits, explicit grants stay within three per automatic grant plus what is left of the current three |
| `PoolRuns.ThreeToOne` | websearch/internal/profilepool/pool.go:302-320 | over any stretch of a run with a registered automatic waiter, explicit grants are at most 3 times (automatic grants + 1) |
| `PoolRuns.RunCounts` | websearch/internal/profilepool/pool.go:246-250 | over any run the streak is the number of explicit grants since the last automatic one, the waiter count is the registrations that have not ended, and the pool is closed exactly if some call closed it |
| `PoolRuns.HealthFollowsLastWrite` | websearch/internal/profilepool/pool.go:275-282 | over any run the health flag is the outcome of the last manifest write that any call made |
| `PoolRuns.RunServesExactlyWhen` | websearch/internal/profilepool/pool.go:223-255 | after any run a request is served exactly if no call closed the pool, the last manifest write did not fail, an identity offers a slot, and the caller is not an explicit one with an automatic one still registered and three or more explicit grants since the last automatic grant |
| `PoolRuns.RunProjects` | websearch/internal/profilepool/pool.go:223-273 | every run of the pool drives every identity through a legal history that ends in its record, so the laws of histories are laws of the pool |
| `PoolRuns.RunTrustIsPromoted` | websearch/internal/profilepool/lease.go:85-89 | whatever calls a pool has served, an identity that started as a newborn is trusted only if some release promoted it |
| `PoolRuns.LeasesAreEarned` | websearch/internal/profilepool/pool.go:223-273 | whatever calls a new pool has served, a lease goes to an identity with recovery budget left that has sat out the cooldown of its last risk response |
| `Pool.Entry.Reconcile` | websearch/internal/profilepool/pool.go:257-273 | one entry's cooldown check changes the entry as `Lifecycle.RecoveryMeans` says |
| `Pool.Entry.Charge` | websearch/internal/profilepool/lease.go:67-89 | the bookkeeping of a charged result and the state change that follows |
| `Pool.Entry.Book` | websearch/internal/profilepool/lease.go:67-78 | samples, weights, failure count and score after a charged result |
| `Pool.Entry.Judge` | websearch/internal/profilepool/lease.go:79-89 | quarantine, degradation or promotion, in that order of precedence |
| `Pool.Entry.Settle` | websearch/internal/profilepool/lease.go:50-93 | the whole release of one entry, and when its manifest is written |
| `Pool.Lease.Release` | websearch/internal/profilepool/lease.go:42-48 | returns the slot once; the pool's new state is the one the runs reason about, a second call leaves it alone, and an error is reported exactly when the first call's manifest write is due and fails |
| `Pool.Pool.New` | websearch/internal/profilepool/pool.go:57-127 | builds a pool exactly when there is a profile, the first names a provider, all share it, and all have distinct non-empty ids and positive capacity, and every manifest loads; gives the initial state |
| `Pool.Pool.SaveManifest` | websearch/internal/profilepool/pool.go:275-282 | the health flag follows the last write, if there is a store at all |
| `Pool.Pool.SelectEntry` | websearch/internal/profilepool/pool.go:339-350 | the loop returns the unique least loaded eligible entry, or nothing when none is eligible |
| `Pool.Pool.ChooseEntry` | websearch/internal/profilepool/pool.go:237-244 | the preferred class first, the other class only if that has nothing |
| `Pool.Pool.TryAcquire` | websearch/internal/profilepool/pool.go:223-255 | grants exactly when `ServedExactlyWhen` says so, with a new lease; reconciles every entry even when it grants nothing; touches nothing when it refuses |
| `Pool.Pool.ReconcileLocked` | websearch/internal/profilepool/pool.go:257-273 | reconsiders every entry once |
| `Pool.Pool.Drain` | websearch/internal/profilepool/pool.go:147-163 | drains the entry with that id and no other; fails exactly for an unknown id or a failed write |
| `Pool.Pool.ReplaceRetired` | websearch/internal/profilepool/pool.go:165-189 | replaces exactly a retired entry by a profile of the same id and provider whose predecessor could be closed; otherwise nothing changes |
| `Pool.Pool.Activate` | websearch/internal/profilepool/pool.go:130-144 | activates warming entries in order up to the first failed write, and fails exactly if it meets one |
| `Pool.Pool.Close` | websearch/internal/profilepool/pool.go:385-398 | retires every entry, closes the pool, and reports the first identity that cannot be closed |
| `Pool.Manager.Reconcile` | websearch/internal/profilepool/manager.go:17-40 | replaces the snapshot's retired identities one after the other, in its order, up to the first failure of factory, check, closing or write |
| `Pool.RenewedInOrder` | websearch/internal/profilepool/manager.go:17-40 | such a reconciliation changes only records that the snapshot shows as retired, and no lease; it fails exactly if one of them is not retired any more or has no fitting replacement, cannot be closed or cannot be saved; otherwise all of them are in their next generation |
| `Pool.LessLoadedEntry` | websearch/internal/profilepool/pool.go:352-359 | the comparison on entries is the strict total order above |
| `Race.StepKeepsInv` | websearch/internal/routing/router.go:153-199 | every atomic step keeps at most one winner, and every sent lease in the channel, with the caller, or released by the caller |
| `Race.AtMostOneLeaseIsSent` | websearch/internal/routing/router.go:170-182 | over every interleaving at most one worker sends its lease |
| `Race.LeasesAtQuiescence` | websearch/internal/routing/router.go:177-199 | at quiescence, if the caller has a lease every other worker has released its own; if not, at most one lease, the one in the channel, is not released |
| `Race.LeaseLeftBehindExactlyWhen` | websearch/internal/routing/router.go:186-194 | after the caller has left with an empty channel a lease can still end up there exactly when some worker has won the swap and not yet sent |
| `Race.LeftBehindStays` | websearch/internal/routing/router.go:186-194 | a lease in the channel after the caller has left is never received |
| `Race.LeftBehindIsSentLate` | websearch/internal/routing/router.go:188-195 | the caller that leaves releases what it finds in the channel, so a lease left behind was sent after that |
| `Race.ALeaseCanBeLeftBehind` | websearch/internal/routing/router.go:177-195 | an interleaving of one worker that ends with its lease in the channel |
| `Race.EveryRaceEnds` | websearch/internal/routing/router.go:153-199 | a race over n pools takes at most 4n + 5 steps, and a run that cannot go on is quiescent |
| `Race.LateWorkerNeverWins` | websearch/internal/routing/router.go:169-176 | a worker that looks at its context only after it was cancelled never wins, whatever the interleaving |
| `Race.UndisturbedRaceDelivers` | websearch/internal/routing/router.go:153-198 | unless the context ends, no interleaving over at least one pool can stop before the caller has a lease |
| `Admission.StepKeepsInv` | websearch/internal/app/search_service.go:172-194 | every atomic step keeps the counter equal to the threads between increment and decrement, each of a depth that covers its place |
| `Admission.AdmissionIsBounded` | websearch/internal/app/search_service.go:172-194 | over every interleaving: at most inflightMax slot holders, at most queueMax admitted waiters, and the counter is exactly the number of counted threads |
| `Admission.StepKeepsCrowded` | websearch/internal/app/search_service.go:172-194 | threads that found no slot and hold none leave room for all slot holders, and no depth exceeds the number of threads |
| `Admission.OverLimitAloneExactlyWhen` | websearch/internal/routing/router.go:86-95 | for all limits and any number of threads: some run counts a thread over the limit while nobody is admitted exactly when there are more threads than queue places and more than slots |
| `Admission.FullOfRejectedRejects` | websearch/internal/routing/router.go:86-95 | when the queue is full of rejected threads the next one is rejected too, and nobody is admitted meanwhile |
| `Admission.RejectionWithoutWaitersExactlyWhen` | websearch/internal/routing/router.go:86-95 | for all limits and any number of threads: some run has a queue full of nothing but rejected threads, and one more about to be counted, exactly when there are more threads than queue places and slots together |
| `Router.NormalizedLimits` | websearch/internal/routing/router.go:34-67 | a router always works with positive limits |
| `Router.NormalizedLimitsMeans` | websearch/internal/routing/router.go:51-65 | positive limits are kept, the others become three providers, two identities and a queue of a hundred |
| `Router.TryAcquire` | websearch/internal/routing/router.go:270-280 | the lease comes from the first pool in order that is still open and offers an identity other than its excluded one; nothing means that no open pool offers one |
| `Router.HasAlternativeProfile` | websearch/internal/routing/router.go:282-289 | true exactly when some other serving identity has a free slot |
| `Router.AlternativeIsLeased` | websearch/internal/routing/router.go:282-289 | an alternative that is seen is one that an unchanged, open and healthy pool leases when the failed identity is excluded |
| `Router.NextLease` | websearch/internal/routing/router.go:80-101 | the first open pool that offers one gives the lease; when none does, the call is refused exactly over the queue limit, else it takes what the race brings from an open pool, else tries once more; a granted lease is logged where it is granted |
| `Router.RaceMayRepeat` | websearch/internal/routing/router.go:93 | for every open provider there is a turn in which the waiting race grants exactly the excluded identity |
| `Router.Round` | websearch/internal/routing/router.go:102-138 | on every path the lease that is out is given back exactly once, with a success reported exactly for a non-empty answer, captcha, rate limit, changed page and timeout under their own classification, an empty answer as empty, a lost trace and every other search error as a network error; the loop goes on exactly when all is recorded and the answer is empty or a reroutable failure |
| `Router.ReportReachesPool` | websearch/internal/routing/router.go:117-121 | in the pool, unless it is the last lease of a draining identity, a captcha or rate limit leaves the identity quarantined until now plus the quarantine cooldown, a changed page leaves everything but the slot alone, and every other failure or empty answer is one more failure in a row |
| `Router.Search` | websearch/internal/routing/router.go:71-151 | ends within n*(MaxAgentAttempts-1) + min(n, MaxProviderAttempts) rounds; every lease is returned once, with the report of its own turn, before the next is taken or the call returns; an immediate try never takes the identity of that provider that failed last; the providers given up are, in order, those whose turn went on without a further attempt or another identity; a success names another provider and reports all of them; every other reply is explained by the last turn, the queue limit, the budget, or open providers that offer nothing |
| `Session.BeginningKeepsInv` | websearch/internal/provider/baidu/session_transport.go:96-127 | a new session starts cold with the invariant in order |
| `Session.FetchKeepsInv` | websearch/internal/provider/baidu/session_transport.go:154-258 | one fetch, whatever it meets, keeps the session's invariant |
| `Session.EveryRunIsWellBehaved` | websearch/internal/provider/baidu/session_transport.go:154-371 | over any run: each request starts at least MinInterval after every earlier one finished, on a client never seen in a risk response; each search on a client bootstrapped with a non-risk 2xx or 3xx; generation counts the clients; a deadline and a blocking classification are set exactly while cooling |
| `Session.BootstrapBudgetCoversSearch` | websearch/internal/provider/baidu/session_transport.go:227-231 | after a bootstrap whose budget check passed, the wait before the search fails only if the random source fails or the caller cancels, never for lack of budget |
| `Session.SearchLeavesReserve` | websearch/internal/provider/baidu/session_transport.go:468-497 | after every search request at least FallbackReserve is left of the deadline |
| `Session.BlockedSessionAsksNothing` | websearch/internal/provider/baidu/session_transport.go:273-295 | a call that gets the gate while the session is blocked asks nothing, changes nothing, and repeats the block's classification |
| `Session.RiskCoolsSession` | websearch/internal/provider/baidu/session_transport.go:349-371 | a risk response finished at t fails the call under its own classification, drops the client, and blocks the session until exactly t plus the captcha cooldown for a captcha and t plus the rate-limit cooldown for a rate limit or a block |
| `Session.ThawsExactlyWhen` | websearch/internal/provider/baidu/session_transport.go:273-295 | a call on a cooling session that gets the gate is let through exactly from the end of the block on |
| `Session.PaceMeans` | websearch/internal/provider/baidu/session_transport.go:468-498 | a wait goes through exactly if its jitter can be drawn, the deadline leaves the reserve after it, and nobody cancels, and ends exactly at MinInterval plus jitter after the last request, or at once |
| `Session.BootstrapStartsExactlyWhen` | websearch/internal/provider/baidu/session_transport.go:175-194 | a cold session asks for its bootstrap page exactly if it gets a client and a jitter, is not cancelled, and the deadline leaves two request timeouts, MinInterval, MaxJitter and the fallback reserve |
| `Session.SearchStartsExactlyWhen` | websearch/internal/provider/baidu/session_transport.go:227-239 | a search request starts exactly if its jitter can be drawn, it is not cancelled, and the deadline leaves the request timeout and the fallback reserve |
| `Session.ReplyMeans` | websearch/internal/provider/baidu/session_transport.go:154-258 | a call that asked for something replies to its last answer; one that did not says what stopped it: the URL, the page, the gate, the block, the wait or the client |
| `Session.RiskSilencesSession` | websearch/internal/provider/baidu/session_transport.go:349-371 | after a call that met a risk response finished at t, no sequence of calls that get the gate before t plus the captcha cooldown (captcha) or the rate-limit cooldown (others) makes a request or changes the session, and the next call is let through exactly from that time on |
| `SessionTransport.BaiduSessionTransport.Fetch` | websearch/internal/provider/baidu/session_transport.go:154-258 | the record after a fetch, its requests, its reply and its end time are those the session laws speak of |
| `SessionTransport.BaiduSessionTransport.HandleCooling` | websearch/internal/provider/baidu/session_transport.go:273-295 | lets the call through exactly when the block is over, and then forgets the blocked client |
| `SessionTransport.BaiduSessionTransport.BootstrapSession` | websearch/internal/provider/baidu/session_transport.go:175-224 | a new client, paced with both reserves, makes the session warm only on a good page |
| `SessionTransport.BaiduSessionTransport.Search` | websearch/internal/provider/baidu/session_transport.go:227-257 | one paced search; a risk verdict cools the session |
| `SessionTransport.BaiduSessionTransport.FetchURL` | websearch/internal/provider/baidu/session_transport.go:297-338 | the end of a request is remembered however it ends |
| `SessionTransport.BaiduSessionTransport.SessionFailure` | websearch/internal/provider/baidu/session_transport.go:349-371 | cools the session exactly on captcha, rate limit and block, for the captcha cooldown on a captcha and for the rate-limit cooldown on the others |
| `BaiduChain.BlockedSessionSilencesChain` | websearch/internal/provider/baidu/provider.go:119-139 | while the fixed session is blocked, a first-page search asks nothing on any transport of the chain and leaves session and breaker as they are |
| `BaiduChain.SearchLeavesSession` | websearch/internal/provider/baidu/provider.go:46-202 | a search of any page whose calls get the gate before the block ends leaves the session and its requests as they are |
| `BaiduChain.BlockSilencesRun` | websearch/internal/provider/baidu/provider.go:119-139 | so does any sequence of searches; the first-page ones among them ask nothing of anybody |
| `BaiduChain.RiskSilencesChain` | websearch/internal/provider/baidu/strategy.go:28-38 | when a search meets a risk response of the session finished at t, the session is blocked until t plus the captcha cooldown (captcha) or the rate-limit cooldown (others); no search of any sequence that gets the gate before then touches the session, and no first-page one makes a request on any transport or changes the breaker; later pages and calls without the gate may come in between |
| `BaiduChain.SearchEndsAtRisk` | websearch/internal/provider/baidu/provider.go:119-140 | a risk response of the session ends its search at once, which is refused under that classification |
| `BaiduChain.FetchMeans` | websearch/internal/provider/baidu/provider.go:77-77 | a strategy fetches once, from the session at its turn or from its own transport, and touches neither the breaker nor, on another transport, the session |
| `BaiduChain.TurnMeans` | websearch/internal/provider/baidu/provider.go:119-199 | the chain goes on after a network error, a timeout, a changed page or an unreadable one, and stops at every other failure; an error without a classification is a timeout or a network error; a captcha closes every guarded transport of the strategy for 30 minutes, a rate limit for 5, and nothing else touches the breaker |
| `BaiduChain.RiskIsLastAttempt` | websearch/internal/provider/baidu/provider.go:56-199 | only the last attempt of a search can be a captcha, a rate limit or a readable page, and a search that runs out of strategies met neither |
| `BaiduChain.ErrorTellsRisk` | websearch/internal/provider/baidu/provider.go:231-276 | a failed search reports captcha, or rate limit, exactly if that stopped it; otherwise a timeout outweighs a changed page, and a block alone makes the provider unavailable |
| `BaiduChain.TripStrategyShape` | websearch/internal/provider/baidu/provider.go:204-210 | tripping a strategy opens exactly its guarded transports, all until the same time |
| `BaiduChain.GroupIsClosed` | websearch/internal/provider/baidu/provider.go:56-66 | when one guarded transport of a strategy is let through, so are all the others |
| `BaiduChain.TurnKeepsInv` | websearch/internal/provider/baidu/provider.go:134-159 | a turn keeps the breaker's promises and moves no deadline that stays set to an earlier time |
| `BaiduChain.SearchKeepsInv` | websearch/internal/provider/baidu/provider.go:46-202 | a whole search keeps the breaker's promises |
| `BaiduChain.BreakerActsAsOne` | websearch/internal/provider/baidu/breaker.go:24-51 | after any number of searches in sequence the guarded transports of a strategy are all let through or all stopped, and none was fetched within 30 minutes of a captcha trip or 5 minutes of a rate-limit trip |
| `BaiduProvider.Breaker.Allow` | websearch/internal/provider/baidu/breaker.go:24-36 | lets a transport through exactly when its deadline has come, and then forgets it |
| `BaiduProvider.Breaker.TripOne` | websearch/internal/provider/baidu/breaker.go:38-51 | sets a deadline, 30 minutes on a captcha and 5 on a rate limit, and on nothing else |
| `BaiduProvider.Provider.Search` | websearch/internal/provider/baidu/provider.go:46-202 | the loop over strategies ends in the world and outcome that the chain laws speak of, with the error code of its attempts |
| `BaiduProvider.Provider.Walk` | websearch/internal/provider/baidu/provider.go:46-202 | the loop records one attempt for each strategy it comes to, an open circuit as blocked and a waiter that gives up as a timeout |
| `BaiduProvider.Provider.BuildSearchError` | websearch/internal/provider/baidu/provider.go:231-276 | the nested loops find the code of the gravest classification among the attempts |
| `BaiduProvider.Provider.TakeTurn` | websearch/internal/provider/baidu/provider.go:75-200 | one strategy: fetch, trip on failure, and go on only where the policy allows |
| `BaiduProvider.Provider.Trip` | websearch/internal/provider/baidu/provider.go:204-210 | trips every guarded transport of the strategy |
| `Escalation.ChainRiskQuarantines` | websearch/internal/provider/baidu/provider.go:239-244 | from the chain through the router to the pool: a captcha or rate limit that stops the chain quarantines the leased identity for the quarantine cooldown, unless its release retires it; no other failed search does; the router tries elsewhere after every one |
| `Escalation.SessionRiskQuarantines` | websearch/internal/routing/provider.go:104-116 | a risk response that the fixed session meets cools the session, and quarantines the serving identity exactly if it is a captcha or a rate limit: a block only cools the session |
| `Cache.OldestIsMinimal` | websearch/internal/cache/memory.go:85-96 | without the empty key the eviction loop finds an entry that no other is older than, in any listing order |
| `Cache.NothingEvictedOnlyIf` | websearch/internal/cache/memory.go:85-96 | the loop evicts nothing only if the empty key is stored and strictly oldest |
| `Cache.NothingEvictedIf` | websearch/internal/cache/memory.go:85-96 | and then there is a listing order in which it evicts nothing |
| `Cache.StoredRefines` | websearch/internal/cache/memory.go:68-96 | with non-empty keys and a strictly increasing clock, a write takes the meaning of the log to the meaning of the longer log, whatever the listing order |
| `Cache.HeldExactlyWhen` | websearch/internal/cache/memory.go:68-96 | a key is held exactly when it was written and fewer than maxItems distinct keys have been written since, and then with its last value and time |
| `Cache.SizeOfMeaning` | websearch/internal/cache/memory.go:68-96 | the cache holds as many entries as distinct keys were written, up to maxItems |
| `Cache.Memory.Get` | websearch/internal/cache/memory.go:53-66 | a hit is the stored entry no older than the limit |
| `Cache.Memory.GetFresh` | websearch/internal/cache/memory.go:45-47 | a fresh hit is the same hit under the stale limit |
| `Cache.Memory.GetStale` | websearch/internal/cache/memory.go:49-51 | a stale hit is the stored entry within the stale limit |
| `Cache.Memory.Set` | websearch/internal/cache/memory.go:68-83 | a write extends the log and keeps the cache equal to the log's meaning; a cancelled one changes nothing |
| `Cache.Memory.EvictOldest` | websearch/internal/cache/memory.go:85-96 | the loop over the map removes the running minimum of some listing of all keys |
| `Cache.NewMemory` | websearch/internal/cache/memory.go:26-43 | a cache is built exactly for a positive size and 0 < fresh < stale, with those settings; a bad size is reported before bad lifetimes |
| `Text.SqueezeTwice` | websearch/internal/searchplan/plan.go:233 | squeezing white space is idempotent |
| `Text.FieldsOfJoin` | websearch/internal/searchplan/plan.go:233 | splitting joined words gives the words back |
| `Text.FieldsMean` | websearch/internal/searchplan/plan.go:233 | the fields of a text are its runs of characters that are not white space, all of them, in order, with nothing but white space around them |
| `Text.TrimMeans` | websearch/internal/searchplan/plan.go:202 | trimming takes off the white space at both ends, all of it and nothing else |
| `Text.LowerMeans` | websearch/internal/searchplan/plan.go:202 | lower-casing keeps the length and changes capitals only |
| `Text.SplitGlues` | websearch/internal/searchplan/plan.go:207 | splitting cuts at every separator and loses nothing else |
| `Text.SplitOfGlue` | websearch/internal/searchplan/plan.go:207 | parts without the separator, joined by it, split into the same parts |
| `StringOrder.LessMeans` | websearch/internal/searchplan/plan.go:222 | one string is less than another exactly when it is a proper prefix of it or has the smaller character at their first difference |
| `SearchPlan.DomainCleansExactlyWhen` | websearch/internal/searchplan/plan.go:202-215 | a domain is accepted exactly when, trimmed, in lower case and without one final dot, it is two or more labels of 1 to 63 letters, digits and inner hyphens joined by dots, and not the four octets of an address; that is what it cleans to |
| `SearchPlan.DomainErrorMeans` | websearch/internal/searchplan/plan.go:204-210 | a refused domain lacks a public suffix exactly if it is a plain name without a dot, and is invalid otherwise |
| `SearchPlan.TextCleansExactlyWhen` | websearch/internal/searchplan/plan.go:232-236 | a text is accepted exactly when its words with one blank between them have 1 to 100 characters, and that is what it cleans to |
| `SearchPlan.ExtensionCleansExactlyWhen` | websearch/internal/searchplan/plan.go:252-256 | a file type is accepted exactly when, trimmed, without one leading dot and in lower case, it is 1 to 10 letters and digits |
| `SearchPlan.CleanTwice` | websearch/internal/searchplan/plan.go:202-216 | a clean domain, text or file type cleans to itself |
| `SearchPlan.CleanIgnoresCase` | websearch/internal/searchplan/plan.go:202-216 | values that differ in case only clean alike |
| `SearchPlan.SortSorts` | websearch/internal/searchplan/plan.go:222 | sorting gives the same values in strictly ascending order |
| `SearchPlan.CollectMeans` | websearch/internal/searchplan/plan.go:226-244 | a list is accepted exactly when every value can be cleaned; then no value is repeated, lost or invented |
| `SearchPlan.FirstOccurrenceOrder` | websearch/internal/searchplan/plan.go:226-244 | kept values stand in the order of their first occurrence |
| `SearchPlan.FirstErrorIsReported` | websearch/internal/searchplan/plan.go:195-224 | the error is that of the first bad value, unless the list has more than 20 values, 10 for file types |
| `SearchPlan.ListNormalizesExactlyWhen` | websearch/internal/searchplan/plan.go:195-224 | a list normalises exactly when it has at most 20 values, 10 for file types, and every value can be cleaned |
| `SearchPlan.SameListExactlyWhen` | websearch/internal/searchplan/plan.go:195-265 | domains and file types normalise to the same list exactly when they are the same set of clean values |
| `SearchPlan.FoldedListsAreSame` | websearch/internal/searchplan/plan.go:195-265 | reordering, repeating or re-casing them changes neither validity of the values nor the set |
| `SearchPlan.NormalizeListTwice` | websearch/internal/searchplan/plan.go:195-265 | each list normaliser is idempotent |
| `SearchPlan.FiltersNormalizeExactlyWhen` | websearch/internal/searchplan/plan.go:28-47 | domain filters are accepted exactly when both lists are and they share no clean domain |
| `SearchPlan.ConflictIsSmallest` | websearch/internal/searchplan/plan.go:38-46 | the conflict reported is the smallest domain that is both included and excluded |
| `SearchPlan.FirstFailureIsReported` | websearch/internal/searchplan/plan.go:28-68 | a request fails as its first failing list does, in the order of the seven lists, with the conflict of the domain lists between the second and the third |
| `SearchPlan.RequestNormalizesExactlyWhen` | websearch/internal/searchplan/plan.go:28-68 | a request normalises exactly when all seven lists do and the domain lists share nothing, and then only those lists change |
| `SearchPlan.NormalizeTwice` | websearch/internal/searchplan/plan.go:28-68 | normalisation of a request is idempotent |
| `SearchPlan.FingerprintSurvivesNormalize` | websearch/internal/searchplan/plan.go:126-148 | normalising a request keeps its fingerprint |
| `SearchPlan.SameFingerprintExactlyWhen` | websearch/internal/searchplan/plan.go:126-148 | two valid requests have the same fingerprint exactly when they ask for the same search, up to order, number and case of domains and file types |
| `SearchPlan.InvalidFingerprints` | websearch/internal/searchplan/plan.go:126-148 | requests that do not normalise have the same fingerprint exactly when all their public fields agree |
| `SearchPlan.NormalizeDomains` | websearch/internal/searchplan/plan.go:195-224 | the loop computes the list, or the error, that the laws speak of |
| `SearchPlan.NormalizeTextValues` | websearch/internal/searchplan/plan.go:226-244 | the loop computes the list, or the error, that the laws speak of; it does not sort |
| `SearchPlan.NormalizeFileTypes` | websearch/internal/searchplan/plan.go:246-265 | the loop computes the list, or the error, that the laws speak of |
| `SearchPlan.Normalize` | websearch/internal/searchplan/plan.go:28-68 | fields are checked in order, the first failure is reported with its field, and everything else of the request is kept |
| `Finalize.DomainAllowed` | websearch/internal/searchplan/plan.go:271-286 | a host is allowed exactly when it lies in no excluded domain and, if there are included ones, in one of them; to lie in a domain is to be it or to end in a dot and it |
| `Finalize.MatchesExactlyWhen` | websearch/internal/searchplan/plan.go:288-290 | a filter matches exactly its own domain and the hosts that put something and a dot before it; ending in the filter without the dot is not enough |
| `Finalize.SubdomainMatches` | websearch/internal/searchplan/plan.go:288-290 | matching is transitive: a filter admits its domain and everything below it |
| `Finalize.Finalize` | websearch/internal/searchplan/plan.go:101-122 | the loop gives the first max(1, limit) survivors, ranked |
| `Finalize.SurvivorIsFirst` | websearch/internal/searchplan/plan.go:101-122 | each survivor is the first admitted result with its canonical URL, and the survivors before it come from the results before it: an order-preserving subsequence |
| `Finalize.ResultIsHit` | websearch/internal/searchplan/plan.go:104-116 | each result is the first admitted hit of its canonical URL with canonical URL, host and rank filled in and nothing else changed |
| `Finalize.SurvivorsAreComplete` | websearch/internal/searchplan/plan.go:101-122 | every admitted canonical URL survives, once |
| `Finalize.RanksAndSize` | websearch/internal/searchplan/plan.go:114-119 | ranks are 1..n, and n is the limit or the number of distinct admitted URLs |
| `Finalize.FinalizeTwice` | websearch/internal/searchplan/plan.go:101-122 | finalisation is idempotent |
| `Finalize.LargerLimitExtends` | websearch/internal/searchplan/plan.go:117-119 | a larger limit only appends results |
| `Cursor.New` | websearch/internal/cursor/codec.go:38-58 | a codec needs a secret that is not blank and a positive lifetime |
| `Cursor.Encode` | websearch/internal/cursor/codec.go:60-79 | round trip: a usable state comes back stamped until it expires, then it is reported as expired; an unusable state never opens |
| `Cursor.Decode` | websearch/internal/cursor/codec.go:81-108 | only tokens sealed under this secret and sent under their own prefix open, and only with a page, a limit and providers |
| `Cursor.RoundTrip` | websearch/internal/cursor/codec.go:60-108 | what is sealed comes back with its own expiry or the lifetime after sealing, and with version 1 exactly if it has no fingerprint; it never opens without page, limit, providers or both fingerprint and query hash |
| `Cursor.DecodeExactlyWhen` | websearch/internal/cursor/codec.go:81-108 | exactly which tokens open: sealed under this secret, sent under their own prefix, of a known version, complete, and not expired |
| `Pagination.ValidateProviders` | websearch/internal/api/httpapi/router.go:325-343 | requested providers must be enabled and distinct; none requested means all enabled ones |
| `Pagination.ValidatedMeans` | websearch/internal/api/httpapi/router.go:325-343 | requested providers are accepted exactly if all are enabled and none repeats, in lower case and in the caller's order; otherwise the first that is not enabled or repeats is reported |
| `Pagination.CompatibleProviders` | websearch/internal/searchplan/plan.go:72-83 | keeps the caller's order and exactly the providers that support the options |
| `Pagination.CompatibleDistributes` | websearch/internal/searchplan/plan.go:72-83 | each provider is kept or dropped by itself, in the caller's order |
| `Pagination.CompatibleMeans` | websearch/internal/searchplan/plan.go:72-83 | a provider is kept exactly if no query option is given or it supports those given |
| `Pagination.RegionMeans` | websearch/internal/domain/search.go:14-23 | a region is nothing or two letters, trimmed and in lower case |
| `Pagination.EqualProviders` | websearch/internal/api/httpapi/router.go:358-368 | element-wise equality |
| `Pagination.Prepare` | websearch/internal/api/httpapi/router.go:119-183 | the first-page request, or the first check that fails, the timeout included |
| `Pagination.PreparedInOrder` | websearch/internal/api/httpapi/router.go:125-182 | the checks of a first page in order and with their limits: 1 to 256 characters, 1 to 20 results with 10 for none given, 4096 characters of cursor, timeout, providers, selection allowed, region, options, some compatible provider |
| `Pagination.Bind` | websearch/internal/api/httpapi/router.go:184-216 | what a cursor does to the request: expired, invalid, mismatched, or pinned to provider and page |
| `Pagination.PlainCursorAcceptedExactlyWhen` | websearch/internal/api/httpapi/router.go:202-209 | a cursor of version 1 is accepted exactly for a request with its query, limit and providers and without region, domains and options |
| `Pagination.Handle` | websearch/internal/api/httpapi/router.go:119-265 | the whole decision: the page asked for, the refusal, or the answer with the next cursor, or that it cannot be sealed |
| `Pagination.NextExactlyWhen` | websearch/internal/api/httpapi/router.go:246-265 | a served page has a next cursor exactly if it is before page 10 and the provider knows its pagination and has a token, or does not know it and the page is full |
| `Pagination.ServiceFailuresMean` | websearch/internal/api/httpapi/router.go:217-235 | after the checks a request fails exactly for a pinned provider that is not enabled, a failed source, or a cursor that cannot be sealed |
| `Pagination.FingerprintIgnoresPin` | websearch/internal/api/httpapi/router.go:250-252 | pinning a provider does not change the fingerprint |
| `Pagination.CursorAcceptedExactlyWhen` | websearch/internal/api/httpapi/router.go:197-213 | an unexpired cursor of one search is accepted with another payload exactly when both ask for the same search with the same limit and region and the second leaves providers out or names the same chain; otherwise the refusal is cursor_mismatch |
| `Pagination.CursorContinues` | websearch/internal/api/httpapi/router.go:197-215 | the same payload with its next cursor asks for the next page of the same search from the provider that answered, until the cursor expires |
| `Pagination.FollowFrom` | websearch/internal/api/httpapi/router.go:184-264 | following next cursors, each reply is the right one for the page that is due |
| `Pagination.FollowingVisitsPagesInOrder` | websearch/internal/api/httpapi/router.go:184-264 | resending a valid payload with each next cursor never ends in cursor_mismatch or invalid_cursor: it visits pages 1, 2, 3, ... in order, keeps page one's provider, ends by page 10, and stops early only for an expired cursor, a failed source, or a cursor that cannot be sealed |
| `Pagination.FollowingEndsAtLastPage` | websearch/internal/api/httpapi/router.go:246-265 | visits that end before page 10 at a page end at one whose provider knows the pagination and has no token, or does not know it and did not fill the page |

## Left out

* HTTP, Chrome, cookie jars, HTML parsing and the response classifiers: each request is an arbitrary classified answer.
* Manifest files, tracing, logging, debug artifacts and configuration loading.
* The blocking loops of `Acquire` and `AcquireAuto`: the try and the read of `pool.notify` are
  separate critical sections, so a wakeup can be missed and no liveness is claimed; the race model lets a
  waiting worker acquire at any time or never.
* `singleflight` sharing and the service's fallback to a stale cache entry.
* Floating-point rounding, the wrap-around of the generation counter, and the overflow of durations.
* URL parsing in `CanonicalizeURL`; it is not idempotent for every host, and `FinalizeTwice` does not need it to be,
  since results are looked up by their original URL.
* The texts of errors. `buildSearchError` takes an attempt without an error text for none and may then report a less
  grave code; every failed attempt is taken to have a text.
* AES-GCM, base64, JSON and SHA-256 themselves; the difference that JSON makes between a nil and an empty list in the
  fingerprint of a request that does not normalise.
* A service whose live guard is not configured: it admits every search at once.
* `NewStrategyChain`, the operator compilers, the registries, `provider/chain.go`, `Snapshot` and header profiles: loops
  that would only add easy members. The breaker's laws assume what a chain needs to mean anything, distinct transports.
* The other waiters of a strategy are a duration and a verdict; how a timeout is parsed is a verdict too; the strict
  decoding of the body comes before everything modelled in `Pagination`.
* Race: the leases' effect on their pools is the release modelled in `PoolModel`; the race itself tracks only who holds
  what.
* The webfetch service and the demo.
