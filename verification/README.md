# joshbot, verified

A Dafny model of joshbot, the crawler behind the joshternet registry, and proofs about
its behaviour. joshbot visits origins under robots.txt, asks each for a small
declaration, remembers the answers, leases work to workers through PostgreSQL, follows
links to find more origins, and publishes a registry of participants.

The model keeps the program's form. Pure code is functions and lemmas. Loops are methods
with invariants. Things the program updates in place are classes: the request scheduler,
the policy cache, and the tables of the database with the stores over them. Each database
transaction is one atomic step. Concurrency is a state machine over such steps, and the
theorems are about every run of it.

Times and durations are integers in nanoseconds. The robots modules work on bytes; origins
and addresses are strings in canonical form.

## What is proved

- **robots.txt** (`RobotsPattern`, `RobotsNormalize`, `RobotsPolicy`, `RobotsDelay`,
  `RobotsGroups`). The backtracking matcher decides the declarative pattern language.
  Normalization is idempotent, and two values normalize alike exactly when they mean the
  same octets. The decision is "longest match, allow on ties", whatever the rule order.
  Crawl delays are exact decimals. The rules selected are those of the groups that
  address the bot.
- **Request pacing** (`Pacing`, `PacingRuns`). For every interleaving, starts at one
  origin and in one neighbourhood stay apart, even when schedule entries are evicted and
  made again in between.
- **Policy cache** (`PolicyCache`). One fetch in flight per origin with exactly one caller
  behind it, fresh answers only, followers get the leader's answer, nobody waits for a fetch
  that no one carries out, the cache stays bounded.
- **Observation history** (`Observations`, `VerificationStore`, `Registry`). The summary
  row, the miss count and the state query are functions of the whole history although
  purging deletes most of it. The registry can always be read and published, and the
  files do not depend on input order.
- **Leases** (`Leases`, `Queue`, `QueueLives`, `SourceLease`). Fencing, exclusive holders and
  politeness for any interleaving and any clock readings, over every life of a row; and
  exactly which leases pass the fence.
- **Lease holders** (`Worker`, `CrawlRunner`). The worker's completion always comes before
  expiry. A crawl claim takes effect at most once, whatever the renewal process and everybody
  else do meanwhile, and never after a refused renewal.
- **Scheduling and admission** (`DiscoverySchedule`, `Database`, `VerificationQueue`,
  `DiscoveryStore`, `CrawlSources`, `Admission`, `StoreRuns`). An origin is scheduled
  exactly when it has a reason. Over every run of all transactions of the store, with any
  clock readings, crawl runs keep their budgets and no origin is ever promoted twice. A step
  that queues probes never takes their number above the larger of what it was and the limit.
- **Exclusion and blocks** (`Exclusion`, `CrawlBlocks`). The SQL filter and the loop
  exclude the same hosts, exactly but for a trailing dot; recomputing blocks is idempotent.
- **Crawling** (`Crawl`), **pagination** (`Pagination`), **snapshot handover** (`Handover`).

Some properties turned out to hold only under a condition. The condition is proved exact for
all inputs or runs, and a concrete case shows what happens without it:

- Every origin is scheduled exactly for a reason throughout a run of the store if and only if
  no completion in it was out of order in time (`StoreRuns.ScheduleHolds`,
  `DiscoverySchedule.ScheduleHolds`, with the counterexample `BackwardClockBreaksRule`).
  Ledgers, registry, budgets and promotions do not depend on that.
- The fence admits only the true holder of a queue row if and only if no lease of an earlier
  life of the row has the holder's worker and generation (`QueueLives.FenceIsExact`,
  `QueueLives.StaleLeasePasses`).
- The crawl runner asks for completion after a refused renewal if and only if the refusal was
  answered after the crawl returned and its context lives (`CrawlRunner.AsksAfterRefusalExactly`,
  `LateRefusalStillAsks`). The fence refuses the request (`CrawlRunner.NothingAfterRefusal`).
- A lease the worker gives back is accepted if and only if the store calls take less than what
  remained of it (`Worker.AbandonsExactly`, `Worker.LateAbandonIsRefused`).
- The two host filters agree if and only if the host has no trailing dot
  (`Exclusion.FiltersAgreeExactly`, `Exclusion.DottedRuleDiffers`). Parsing never yields a host
  with one (`internal/origin/origin.go`, lines 117-121).
- A snapshot being published is still there if and only if the current name has not changed
  since it was read, or once and without a later restart (`Handover.HandoverIsExact`,
  `RestartLosesReading`, `SecondExportLosesReading`). Exactness assumes that random snapshot
  names are never reused.
- The pattern loop decides the pattern language except on the empty pattern, which no rule has
  (`RobotsPattern.LoopDiffersExactly`, `RobotsPolicy.RulesAreNeverEmpty`).

## Model

| member | source | states |
|---|---|---|
| RobotsPattern.PatternMatches | internal/robots/robots.go:414-455 | the greedy last-star loop answers true exactly when the non-empty pattern matches a prefix of the target, or all of it when it ends in a dollar sign; on the empty pattern, exactly for the empty target |
| RobotsPattern.FromIsRule | internal/robots/robots.go:414-455 | matching position by position is the declarative language of patterns |
| RobotsPattern.LoopDiffersExactly | internal/robots/robots.go:414-455 | loop and language differ exactly on the empty pattern with a non-empty target |
| RobotsNormalize.NormalizeMatchValue | internal/robots/robots.go:361-412 | the loop writes the canonical spelling of what the value means, or rejects it |
| RobotsNormalize.NormalizeUnit | internal/robots/robots.go:361-412 | one unit of input is read and spelled as the meaning says |
| RobotsNormalize.WriteEncoded | internal/robots/robots.go:484-493 | octets are percent-encoded in upper case |
| RobotsNormalize.Idempotent | internal/robots/robots.go:361-412 | normalizing twice is normalizing once |
| RobotsNormalize.ReadsBack | internal/robots/robots.go:361-412 | a canonical spelling means exactly the symbols it was written from |
| RobotsNormalize.SameSpellingIffSameMeaning | internal/robots/robots.go:361-412 | two values normalize alike exactly when they mean the same |
| RobotsNormalize.EncodingUnreservedIsNeutral | internal/robots/robots.go:361-412 | percent-encoding an unreserved character anywhere changes nothing |
| RobotsNormalize.HexCaseIsNeutral | internal/robots/robots.go:457-472 | the case of hexadecimal digits changes nothing |
| RobotsPolicy.MakeRule | internal/robots/robots.go:152-174 | the rule made from a pattern is well formed, or there is none |
| RobotsPolicy.RulesAreNeverEmpty | internal/robots/robots.go:152-174 | no rule has the empty pattern, so for rules the loop decides the language |
| RobotsPolicy.Allowed | internal/robots/robots.go:312-339 | the decision is that of the longest matching rule, allow on ties, allowed without one |
| RobotsPolicy.AllowedValue | internal/robots/robots.go:322-338 | the loop over the rules finds that decision |
| RobotsPolicy.RuleOrderIsIrrelevant | internal/robots/robots.go:312-339 | reordering rules never changes a decision |
| RobotsPolicy.SameMeaningSameDecision | internal/robots/robots.go:341-359 | targets with the same meaning get the same decision |
| RobotsPolicy.EncodedPathSameDecision | internal/robots/robots.go:341-359 | encoding an unreserved character of the path leaves the decision alone |
| RobotsDelay.ParseCrawlDelay | internal/robots/robots.go:249-297 | the result is the exact value in nanoseconds or a rejection, in spite of 64-bit arithmetic |
| RobotsDelay.NanosecondsExact | internal/robots/robots.go:249-297 | the nanoseconds are the decimal numeral times a second, exactly |
| RobotsDelay.FractionNanoseconds | internal/robots/robots.go:278-287 | the fraction is scaled to nine digits without loss |
| RobotsDelay.CrawlDelay | internal/robots/robots.go:229-247 | the delay is the largest of all, cut at the limit, and one bad value spoils them all |
| RobotsDelay.LargestIsLargest | internal/robots/robots.go:229-247 | the largest is an upper bound that occurs, or zero |
| RobotsGroups.ParseGroups | internal/robots/robots.go:93-150 | the groups hold, for the bot and for everyone, exactly the rules and delays that govern them |
| RobotsGroups.ReadRecord | internal/robots/robots.go:93-150 | one record opens, extends or fills a group |
| RobotsGroups.Parse | internal/robots/robots.go:39-91 | the policy is the rules addressed to the bot, or to everyone when nothing names the bot |
| Pacing.Pin | internal/robots/request_scheduler.go:116-159 | pinning finds, makes or evicts as specified: stale entries go, the victim is the oldest evictable, pinned entries stay |
| Pacing.Sweep | internal/robots/request_scheduler.go:123-144 | one sweep drops exactly the stale entries and finds the oldest evictable one |
| Pacing.RemainingDelay | internal/robots/request_scheduler.go:274-283 | the wait is zero exactly when the delay has passed |
| Pacing.PinWithinCapacity | internal/robots/request_scheduler.go:116-159 | a table never outgrows its capacity |
| Pacing.PinKeepsInv | internal/robots/request_scheduler.go:116-159 | pinning keeps every hold alive and every past start accounted for |
| PacingRuns.RequestScheduler.constructor | internal/robots/request_scheduler.go:60-79 | a scheduler starts with no entries |
| PacingRuns.RequestScheduler.Acquire | internal/robots/request_scheduler.go:100-105 | an origin entry is pinned as specified and the groups are left alone |
| PacingRuns.RequestScheduler.AcquireTarget | internal/robots/request_scheduler.go:186-220 | origin and neighbourhood are pinned together, or the origin is let go again |
| PacingRuns.RequestScheduler.ReleaseOrigin | internal/robots/request_scheduler.go:161-178 | one hold is dropped and the access time moved |
| PacingRuns.RequestScheduler.ReleaseGroup | internal/robots/request_scheduler.go:168-178 | the same for a neighbourhood |
| PacingRuns.RequestScheduler.SetCrawlDelay | internal/robots/request_scheduler.go:180-184 | the delay of one entry is replaced |
| PacingRuns.RequestScheduler.TryStart | internal/robots/request_scheduler.go:222-271 | a start is granted exactly when both entries are ready, and stamps both |
| PacingRuns.PacingHolds | internal/robots/request_scheduler.go:98-283 | in every run, starts of an origin and of a neighbourhood are the minimum and the held delay apart across evictions; holds stay live; tables stay bounded |
| PolicyCache.EvictExpired | internal/robots/checker.go:241-247 | exactly the fresh entries remain |
| PolicyCache.EvictOverflow | internal/robots/checker.go:249-272 | the cache is cut to its bound, dropping the least recently used |
| PolicyCache.Checker.constructor | internal/robots/checker.go:78-109 | a checker starts empty |
| PolicyCache.Checker.Begin | internal/robots/checker.go:167-194 | a lookup is a fresh hit, joins the fetch in flight, or starts one |
| PolicyCache.Checker.Store | internal/robots/checker.go:224-238 | a success is published and cached within the bound |
| PolicyCache.CacheHolds | internal/robots/checker.go:158-272 | in every run there is one flight per origin, served policies were fetched successfully less than 24 hours before, failures are never served from cache, and the cache is bounded |
| PolicyCache.NobodyWaitsInVain | internal/robots/checker.go:167-240 | in every run each flight has a responsible caller, and whoever waits for a fetch waits for one that is being carried out or has ended |
| PolicyCache.SameFetchSameAnswer | internal/robots/checker.go:158-240 | all callers of one fetch get the same answer |
| Retry.Delay | internal/retry/policy.go:136-176 | the delay is five minutes at first and a day from the fifth failure, and honours Retry-After within a day |
| Retry.DelayGrows | internal/retry/policy.go:136-166 | more failures never shorten the delay |
| Retry.WaitsGrow | internal/store/queue.go:694-717 | over a streak the waits never shrink and stay within a day, or a week from the sixth failure of a participant |
| Retry.ReprobeLoop | internal/store/queue.go:1080-1099 | the doubling loop gives the smaller of first times two to the misses and a week |
| Retry.ReprobeGrows | internal/store/queue.go:1080-1099 | more misses never shorten the interval |
| Observations.RecordReflects | internal/store/store.go:194-298 | recording a check keeps row, miss count and newest observations equal to functions of the whole history |
| Observations.UpsertSummarizes | internal/store/store.go:163-277 | the upsert keeps first seen, first participation with its declaration, and latest check |
| Observations.NewestIsNewest | internal/store/store.go:379-406 | the newest observation is the first by time and identity descending |
| Observations.PurgeKeepsNewest | internal/store/retention.go:43-94 | a purge never changes the newest or the newest authoritative observation |
| Observations.PurgeReflects | internal/store/retention.go:43-94 | a purge changes no answer about the whole history |
| Observations.MissesCount | internal/store/store.go:279-297 | the miss counter is the number of recorded misses |
| Observations.SummaryIgnoresArrivalOrder | internal/store/store.go:163-277 | for distinct times the row does not depend on the order of arrival |
| Observations.SummaryUnique | internal/store/store.go:163-277 | the row is determined by the history |
| Observations.ReplayReflects | internal/store/store.go:163-313 | after any interleaving of checks and purges the ledger answers for the whole history |
| Observations.PurgesAreInvisible | internal/store/retention.go:43-94 | runs with the same checks and any purges give the same answers |
| Observations.OriginStateHolds | internal/store/store.go:365-460 | the state query finds every checked origin, agrees with its row, and its effective state is an authoritative check of the history with none later |
| VerificationStore.VerificationStore.RecordVerification | internal/store/store.go:124-313 | a valid result is recorded at any time and extends the history of that origin only |
| VerificationStore.VerificationStore.StateOfOrigin | internal/store/store.go:341-460 | an origin is found exactly when it was ever checked |
| Registry.StoredRowsAreReadable | internal/store/registry.go:105-229 | no stored-data error branch is reachable; times, declarations and outcome are those of the history |
| Registry.EffectiveExists | internal/store/registry.go:58-80 | a participant has a settled state, and an authoritative latest outcome is that state |
| Registry.RegistryOrigins | internal/store/registry.go:40-103 | rows are read in order; the query fails exactly with the error of the first unreadable one |
| Registry.Refusal | internal/publicdata/registry.go:64-92 | the checking loop accepts exactly valid participants with distinct origins and blames the first offender |
| Registry.BuildRegistry | internal/publicdata/registry.go:61-184 | the snapshot is built exactly for publishable participants |
| Registry.SnapshotContents | internal/publicdata/registry.go:94-184 | one file per participant and one index, in path order; the index lists all participants by origin |
| Registry.OrderIsIrrelevant | internal/publicdata/registry.go:61-184 | input order changes neither acceptance nor the files |
| Registry.RegistryAlwaysBuilds | internal/publicdata/registry.go:186-232 | whatever was checked and purged, the registry is readable and publishable |
| Ordering.AscendingUnique | internal/publicdata/registry.go:94-100 | sorting by distinct keys has one result |
| Leases.ClaimKeeps | internal/store/queue.go:297-348 | a claim of a free or expired row keeps fencing and exclusivity |
| Leases.RenewKeeps | internal/store/queue.go:427-452 | a renewal never shortens a lease |
| Leases.ReleaseKeeps | internal/store/queue.go:507-544 | a release ends its generation for good |
| Leases.OncePerGeneration | internal/store/queue.go:333-340 | each generation is claimed once, released at most once, and only after its claim |
| Leases.SupersededIsOver | internal/store/queue.go:333-340 | after the next claim nothing under the old generation takes effect |
| Queue.LeasesHold | internal/store/queue.go:273-544 | in every life of a row, with any clock readings: fencing, exclusive leases, and claims the interval apart |
| Queue.GenerationCountsClaims | internal/store/queue.go:333-340 | the generation is the number of claims |
| QueueLives.EveryLifeIsFenced | internal/store/queue.go:273-544 | in every run over any number of removals and reinsertions each life of the row is fenced, exclusive and spaced |
| QueueLives.AuthorityExactly | internal/store/queue.go:427-452 | a lease of the present life passes the fence exactly while it is the last issued and still leased; one of an earlier life exactly while the present life has as many claims as its generation and the last is by the same worker and still leased |
| QueueLives.FenceIsExact | internal/store/queue.go:427-452 | the fence admits the true holder only, if and only if no other lease ever issued has its worker and generation |
| QueueLives.StaleLeasePasses | internal/store/queue.go:802-813 | a run of two lives, for every configuration and worker, in which the lease of the removed probe passes the fence of the reinserted one |
| Queue.LeaseIsUndisturbed | internal/store/queue.go:170-206 | nobody else can change an unexpired lease or its timing |
| Queue.ModesRise | internal/store/queue.go:725-821 | once past probing an origin stays queued and never falls back |
| Queue.NextClaimIsDue | internal/store/queue.go:671-821 | after a completion no claim comes before the retry, reprobe or recheck time, nor within the interval, unless scheduled explicitly |
| Queue.DueRowIsClaimable | internal/store/queue.go:273-322 | from then on the row can be claimed |
| VerificationQueue.VerificationQueue.constructor | internal/store/queue.go:112-136 | a queue is made for a valid configuration |
| VerificationQueue.VerificationQueue.Schedule | internal/store/queue.go:145-217 | scheduling makes the row recurring, and leaves an unexpired lease its timing |
| VerificationQueue.VerificationQueue.Claim | internal/store/queue.go:247-394 | the claimed row is the first claimable one in claim order, or there is none; the lease holds to its expiry |
| VerificationQueue.VerificationQueue.Renew | internal/store/queue.go:402-479 | a renewal succeeds exactly under the fence and never shortens |
| VerificationQueue.VerificationQueue.Reschedule | internal/store/queue.go:485-547 | a reschedule succeeds exactly under the fence and respects the interval |
| VerificationQueue.VerificationQueue.Abandon | internal/store/queue_abandon.go:19-66 | abandoning clears the lease exactly under the fence and nothing else |
| VerificationQueue.VerificationQueue.CompleteVerification | internal/store/queue.go:556-1052 | completion keeps or removes the row, records one observation and adjusts the schedule in one step, or does nothing; the database stays consistent exactly when it is not out of order |
| VerificationQueue.CompletionKeeps | internal/store/queue.go:957-995 | every origin stays scheduled for a reason exactly when the completion is in order |
| VerificationQueue.CompletionFacts | internal/store/queue.go:822-1009 | completion changes the facts of its own origin only |
| SourceLease.LeasesHold | internal/store/discovery_lease.go:139-291 | for the whole existence of a source, with any clock readings: fencing and exclusive leases |
| SourceLease.SupersededLeaseIsLost | internal/store/discovery_lease.go:436-463 | a lease that was claimed over never passes the fence again |
| SourceLease.NextClaimIsDue | internal/store/discovery_lease_completion.go:56-141 | after a completion the next claim waits for the retry or the interval |
| CrawlSources.CrawlSources.ClaimDiscoverySourceLease | internal/store/discovery_lease.go:46-300 | the claimed source is the first eligible one in claim order, or there is none |
| CrawlSources.CrawlSources.RenewDiscoverySourceLease | internal/store/discovery_lease.go:382-486 | renewal succeeds exactly under the fence and never shortens |
| CrawlSources.CrawlSources.CompleteDiscoverySourceLease | internal/store/discovery_lease_completion.go:20-141 | completion succeeds exactly under the fence, stamps the attempt and sets the retry |
| DiscoverySchedule.ScheduleHolds | internal/store/discovery.go:387-521 | in every run, with any times: up to any point the origin was always scheduled exactly when seeded, validly declared, automatic and unsettled, or rediscovered, if and only if no completion before was out of order |
| DiscoverySchedule.StepKeepsRule | internal/store/discovery.go:810-873 | every transaction keeps the rule, a completion if and only if it is not out of order |
| DiscoverySchedule.CompletionKeepsExactly | internal/store/queue.go:957-995 | a completion keeps the rule if and only if it is not out of order |
| DiscoverySchedule.BackwardClockBreaksRule | internal/store/queue.go:957-995 | a concrete pair of completions whose times run backwards breaks it |
| DiscoverySchedule.PromotedAtMostOnce | internal/store/discovery.go:1800-1910 | an origin is promoted at most once over its whole existence, whatever the times of its completions |
| Database.RecordIsObserve | internal/store/queue.go:822-1009 | recording a check moves the settled state as the rule expects |
| Database.LedgersNext | internal/store/queue.go:822-1009 | a recorded check extends one history and leaves the others |
| Database.Database.constructor | internal/store/store.go:107-122 | empty tables are consistent |
| DiscoveryStore.DiscoveryStore.AddCrawlSeed | internal/store/discovery.go:323-384 | the origin is seeded and scheduled, and consistency is kept |
| DiscoveryStore.DiscoveryStore.RemoveCrawlSeed | internal/store/discovery.go:387-521 | the seed goes, and the schedule row with it unless another reason remains |
| DiscoveryStore.DiscoveryStore.EnsureSeededSourcesScheduled | internal/store/discovery.go:579-606 | every seed is scheduled; in a consistent database nothing is inserted |
| DiscoveryStore.DiscoveryStore.RecordDiscovery | internal/store/discovery.go:662-985 | a batch from a known source in an active run is recorded whole, otherwise nothing is |
| DiscoveryStore.DiscoveriesFacts | internal/store/discovery.go:785-873 | a batch is a discovery of every origin it mentions, however often, and of no other |
| DiscoveryStore.DiscoveryStore.PurgeObservations | internal/store/retention.go:24-94 | old observations go and consistency is kept |
| DiscoveryStore.PurgeKeeps | internal/store/retention.go:43-94 | a purge changes no fact of any origin and no answer about a history |
| DiscoveryStore.SeedsAreScheduled | internal/store/discovery.go:579-606 | every seed is already scheduled |
| StoreRuns.StoreHolds | internal/store/discovery.go:323-1963 | in every run of all store transactions, with any clock readings: every ledger answers for its whole history, the registry is readable and publishable, and while no completion was out of order every origin is scheduled exactly for a reason |
| StoreRuns.ScheduleHolds | internal/store/queue.go:957-995 | up to any point of any run every origin was always scheduled exactly for a reason, if and only if no completion before was out of order |
| StoreRuns.BudgetsHold | internal/store/crawl_observability.go:45-87 | in every run of the store, with any clock readings, no crawl run ever promotes more than the budget it was started with, counters are exact, batches stay within budget, and no origin is ever promoted twice |
| StoreRuns.ProbesStayCapped | internal/store/discovery.go:1117-1530 | each step that queues probes, in any state, keeps the active ones within the larger of their old number and the limit |
| StoreRuns.BatchesAreDecided | internal/store/discovery.go:1553-1963 | in every run, completing a batch leaves nothing pending, keeps the probe cap, and what it promotes was not automatic before and is installed after |
| StoreRuns.PendingAreKnown | internal/store/discovery.go:1659-1700 | in every run the pending candidates of a batch are known, so a completion can always decide them |
| StoreRuns.StepKeepsInv | internal/store/queue.go:556-1052 | every transaction, whatever its clock reads, keeps ledgers, crawl runs and promotions consistent; admission is the fold of its decisions |
| Admission.ProbesWithinLimit | internal/store/discovery.go:1165-1192 | inserting probes raises the active count by at most their number |
| Admission.ProbesAdded | internal/store/discovery.go:1165-1192 | queueing distinct new origins adds exactly that many rows, each a probe at the asked time, and changes no other |
| Admission.AdmitKeepsRule | internal/store/discovery.go:1870-1890 | a decision keeps every origin justified |
| Admission.PromotedIsPromotable | internal/store/discovery.go:1790-1870 | a promoted candidate passed every guard |
| Admission.AdmitKeepsBudget | internal/store/discovery.go:1860-1910 | a decision raises the counter by exactly the promotions made and keeps it within the budget |
| Admission.AdmitKeepsCap | internal/store/discovery.go:1829-1839 | the active-probe count stays within the larger of its old value and the limit |
| Admission.AdmitInstalls | internal/store/discovery.go:1790-1890 | a promoted candidate is automatic, unblocked, not excluded, scheduled and queued |
| Admission.AdmitBatch | internal/store/discovery.go:1659-1911 | the loop decides every pending candidate in canonical order |
| Admission.AdmitAllHolds | internal/store/discovery.go:1659-1911 | after any number of decisions in order: budget, probe cap, frame, promoted means installed, and the schedule rule if it held before |
| Admission.PromotionsHold | internal/store/discovery.go:1860-1910 | the promotions of a batch are distinct, were not automatic before, are automatic after, and the counter grows by exactly their number |
| Admission.BatchIsDecided | internal/store/discovery.go:1659-1911 | no candidate is left pending |
| Admission.CompletionKeeps | internal/store/discovery.go:1588-1918 | every run stays within its budget with an exact counter, and no origin is promoted by two runs |
| Admission.Admissions.constructor | internal/store/discovery.go:257-321 | admission starts without runs |
| Admission.Admissions.StartRun | internal/store/discovery.go:1232-1258 | a run keeps the budget it was stored with |
| Admission.Admissions.ScheduleProbes | internal/store/discovery.go:1117-1199 | candidates that are excluded, blocked or already queued are skipped first; of the rest exactly as many are queued, in order, as there is room for, and existing rows are untouched |
| Admission.Admissions.PendingAutomaticCandidates | internal/store/discovery.go:1204-1530 | a run's batch grows from the eligible candidates in order and never exceeds its budget, and redirect-only candidates get probes as far as there is room |
| Admission.Admissions.CompleteAutomaticCandidates | internal/store/discovery.go:1553-1963 | one transaction decides the batch: budget, capacity, no pending rows, promoted once, promoted means installed |
| Exclusion.PatternIsQuoted | internal/store/discovery.go:1336-1361 | the nested replacements quote every special character once |
| Exclusion.LikeQuoted | internal/store/discovery.go:1363-1382 | a quoted string matches itself under LIKE |
| Exclusion.RulesAgree | internal/store/discovery.go:1363-1382 | for every pattern and host the SQL rule and the program's rule agree |
| Exclusion.ExclusionPatterns | internal/store/discovery.go:1988-1996 | the patterns are the trimmed non-empty pieces of the list |
| Exclusion.Excludes | internal/store/discovery.go:2065-2084 | the loop excludes a host exactly when one of those patterns does |
| Exclusion.HostnameReadsBack | internal/store/discovery.go:1328-1335 | the query cuts the host out of every canonical origin, bracketed addresses included |
| Exclusion.FiltersAgree | internal/store/discovery.go:1325-1382 | for every rule list and canonical origin the query excludes exactly what the program excludes |
| Exclusion.FiltersAgreeExactly | internal/store/discovery.go:1325-1382 | for a non-empty host without brackets the two filters agree on all rule lists if and only if the host has no trailing dot |
| Exclusion.DottedRuleDiffers | internal/store/discovery.go:2065-2084 | a host with a trailing dot is excluded by its own rule in the query and not in the program |
| CrawlBlocks.SetExactCrawlBlock | internal/store/crawl_block_policy.go:17-54 | the operator's choice is stored, and exclusion still applies to an automatic unseeded origin |
| CrawlBlocks.RecomputeAutomaticCrawlBlocks | internal/store/crawl_block_policy.go:56-124 | each automatic unseeded row is blocked exactly when operator-blocked, excluded or unparseable; others are untouched; the count is exact |
| CrawlBlocks.RecomputeIsIdempotent | internal/store/crawl_block_policy.go:56-124 | recomputing again changes nothing |
| Crawl.FetchPage | internal/discovery/crawler.go:447-656 | a fetch follows a loop-free chain of redirects within the limit to its end, and only a successful end marks it visited |
| Crawl.FetchBounds | internal/discovery/crawler.go:447-656 | a failed fetch never enlarges the visited set, and a fetch makes at most one request more than the limit |
| Crawl.TryPage | internal/discovery/crawler.go:275-295 | a page is tried a second time exactly after a transient failure without a requested wait |
| Crawl.FreshCandidates | internal/discovery/crawler.go:353-368 | the batch is the candidates not seen before, in order |
| Crawl.FreshCounts | internal/discovery/crawler.go:370-400 | each new origin is handed over and counted once |
| Crawl.FollowLinks | internal/discovery/crawler.go:406-429 | links are enqueued in order, once, within the depth limit |
| Crawl.FollowReaches | internal/discovery/crawler.go:406-429 | every link is reached or its cutting off is recorded |
| Crawl.EnqueueKeeps | internal/discovery/crawler.go:421-428 | the frontier stays in breadth-first order |
| Crawl.EmptyFrontierEnds | internal/discovery/crawler.go:241-431 | a complete crawl attempted or visited every link of every counted page |
| Crawl.CutShortEnds | internal/discovery/crawler.go:241-258 | everything enqueued was attempted, skipped or remains |
| Crawl.Crawl | internal/discovery/crawler.go:171-445 | the crawl terminates within its request budget, visits depths in order, enqueues each address once, conserves its frontier, counts distinct candidates, and is complete only when every link was followed |
| Pagination.PageIsPrefix | internal/reporting/pagination.go:983-1064 | a page is the next rows beyond the cursor, with a cursor exactly when more remain |
| Pagination.WalkAscends | internal/reporting/postgres_pagination.go:235-242 | whatever changes in between, no key is returned twice and keys ascend |
| Pagination.StableRowsOnce | internal/reporting/postgres_pagination.go:405-413 | a row present throughout is returned exactly once |
| Pagination.FixedSnapshotIsReturned | internal/reporting/postgres_pagination.go:119-133 | over a fixed snapshot the pages are the snapshot |
| Pagination.WalkContinues | internal/reporting/pagination.go:973-1064 | each page continues where the last one stopped, with fewer rows left |
| Pagination.WalkIsBounded | internal/reporting/pagination.go:973-1064 | over a fixed snapshot a walk has at most one page more than rows, and one that long is finished |
| Pagination.BoundedCrawlDetail | internal/reporting/crawl_detail_pagination.go:30-42 | dropping and trimming gives the page after the cursor |
| Pagination.BoundedPagesAgree | internal/reporting/postgres.go:517-529 | bounding the limited page gives the same as bounding the full list |
| Worker.BudgetHolds | internal/worker/worker.go:438-480 | whether or not it renews, and even when the answer to a renewal is lost, the worker goes on under the same claim, and works only with time for one job and its completion |
| Worker.VerifyWithRetries | internal/worker/worker.go:341-408 | the loop makes at most two attempts and ends as specified |
| Worker.VerifyHolds | internal/worker/worker.go:341-408 | after verification, whatever the attempts found, a completion still fits in the lease |
| Worker.CommitsBeforeExpiry | internal/worker/worker.go:208-282 | the fence never refuses a completion; the result of a verified job is stored exactly when the request is not lost, the result is well formed and the origin is not blocked, and the worker knows exactly when the answer is not lost either |
| Worker.AbandonsExactly | internal/worker/worker.go:244-320 | a lease given back is accepted exactly when the request is not lost and the calls take less than what remained of it in the store; after a hard failure they always do; a completion stored without the worker knowing is never undone |
| Worker.LateAbandonIsRefused | internal/worker/worker.go:410-434 | a concrete job whose renewal is refused after expiry, and whose abandon is refused with it |
| Worker.PromptJobEnds | internal/worker/worker.go:208-320 | with prompt renewals every job is completed, left alone after a completion that seemed to fail, or given back after a hard or timed-out job, never for want of time |
| CrawlRunner.CompletesOnce | internal/discovery/crawl_runner.go:205-437 | in every interleaving with its renewals and with everybody else, and with requests or answers lost, a claim is completed at most once, under its own generation, and released exactly by the request that took effect |
| CrawlRunner.AsksExactly | internal/discovery/crawl_runner.go:205-437 | the runner asks for completion exactly when its context lives and no renewal failed before the crawl returned |
| CrawlRunner.AsksAfterRefusalExactly | internal/discovery/crawl_runner.go:412-422 | it asks after a refused renewal if and only if the refusal was answered after the crawl returned and the context lives |
| CrawlRunner.NothingAfterRefusal | internal/store/discovery_lease.go:436-463 | the fence then refuses: no completion takes effect after a refused renewal while time does not run backwards |
| CrawlRunner.LateRefusalStillAsks | internal/discovery/crawl_runner.go:416-422 | a concrete run in which the runner asks with a lost lease |
| CrawlRunner.OthersCannotInterfere | internal/store/discovery_lease.go:139-291 | while the lease is unexpired nobody else changes the source |
| Handover.HandoverHolds | cmd/joshbot/registry_interval.go:186-355 | the snapshot named as current always exists; one read by the publisher is there while the current name has not changed, and after one change without a later restart; at most two are kept |
| Handover.HandoverIsExact | cmd/joshbot/registry_interval.go:186-355 | between exports, with fresh names, the snapshot the publisher read is there if and only if the current name has not changed since, or once and without a later restart |
| Handover.RestartLosesReading | cmd/joshbot/registry_interval.go:207-213 | a concrete run in which an exporter restart removes a snapshot being published |
| Handover.SecondExportLosesReading | cmd/joshbot/registry_interval.go:186-355 | a concrete run in which a second export removes a snapshot being published |

## Left out

- HTTP, DNS, TLS, dialing, address checks and HTML parsing: what a request comes to is chosen by the environment.
- Origin and IDNA canonicalization: origins are values whose spelling parses back to themselves.
- PostgreSQL mechanics (row locks, SKIP LOCKED, snapshots, advisory locks): each transaction is one atomic step.
- The line syntax of robots.txt (comments, control characters, splitting at the colon): records are the input of the parser model.
- Schedule entries of the request scheduler are records in an indexed heap, not objects; aliasing is by index.
- Argument validation of worker names, zero times and empty origins in the store classes; the runs of `StoreRuns` have it where it matters.
- JSON text and SHA-256 paths of the registry: a file carries its document, and `Registry.SnapshotContents` assumes that paths tell the participants apart.
- Rounding of intervals to database precision, and random jitter of retry delays (unset in production).
- Page attempts and promotion telemetry of crawl runs, audit and queue events, heartbeats, metrics, migrations and the command line.
- Message signatures and the GitHub publisher.
- Registry.OrderIsIrrelevant: which of two errors is reported may depend on input order, so only acceptance and the files are compared.
- Queue.LeasesHold: stated per life of a row, because a removed and reinserted probe restarts its generations; `QueueLives` goes on over all lives.
- VerificationStore.VerificationStore.RecordVerification: does not keep the schedule rule, because it records observations without touching the schedule; the program itself never calls it.
- Admission.Admissions.StartRun: of a crawl run only the stored promotion budget, the counter, the batch and whether it finished are modelled.
- StoreRuns.BudgetsHold: a crawl run may finish at any time and any finished run may be purged, with the batch rows that refer to it; the source decides when, by lease claims and retention.
- The switch that turns automatic crawling off: the model has it on.
- Crawl.Crawl: a refused batch and a canceled context end in an error report, for which only the request budget is stated.
- Worker.CommitsBeforeExpiry: assumes that the clocks of worker and database agree, that verification and completion honour their timeouts, and that only verification and store calls take time. A lost request or answer of the store is part of the model.
- CrawlRunner.NothingAfterRefusal: assumes that the store's clock does not run backwards between the refused renewal and the request.
