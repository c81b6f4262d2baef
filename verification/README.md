# Verified model of the mail-security agent's stateful cores

The agent watches mailboxes, scores suspicious mail and alerts analysts. Its hard parts are small
machines that keep keyed or time-stamped state and forget it again. This project models them in
Dafny and proves what they keep over every run.

| file | component |
|---|---|
| `Registry.dfy` | the registry of mailbox daemons, two indexes over the same daemons |
| `Coordinator.dfy` | the reconciliation sweep between accounts and daemons |
| `CoordinatorSafety.dfy`, `CoordinatorStable.dfy` | what every sweep keeps; agreement, idempotence, recovery |
| `CoordinatorOverlap.dfy` | accounts with both a daemon and a retry entry |
| `CoordinatorBackoff.dfy`, `CoordinatorMailbox.dfy` | retry timing and its overflow; the address index |
| `RedisStore.dfy` | the in-memory Redis client and its expired entries |
| `LeaseLock.dfy`, `RateLimiter.dfy` | the lease lock and the bucketed limiter over that client |
| `Dedup.dfy`, `RedisDedup.dfy` | message deduplication, local and Redis-backed, and how they relate |
| `Notifications.dfy` | alert rate limit, duplicate suppression, delivery with retries |
| `Convergence.dfy`, `ConvergenceReplay.dfy` | tenant trust memory, its audit trail and rollback |
| `ConvergenceOrder.dfy` | what order and rollback of an older update do to trust |
| `ColonKeys.dfy` | keys that are texts joined with ':' |
| `Tuner.dfy`, `Feedback.dfy` | error rates, sensitivity advice and its application |
| `RiskScoring.dfy`, `Investigator.dfy` | the risk score; the investigation loop |

Each stateful component has a specification on values (a state, a step function, runs as sequences
of calls) and a class whose methods are proved to take exactly that step. Lemmas speak about the
steps and runs.

Assumptions, all visible in the model:

- The clock is an input. It never runs backwards within a run; where this is not needed it is not
  assumed. Timestamps, scores and rates are reals.
- SHA-256 is injective, so a digest is represented by the text it is taken of.
- Each section that holds its lock or does not await is one step. Sweeps are one step each: only
  the coordinator touches the registry while it runs.
- Daemon calls, notification channels, planner, orchestrator and the cancel callback are oracles:
  what they would do is part of the input and quantified over.
- Upper and lower case and white space are those of ASCII.

## What turned out false, and when it holds

- *A failing account never harms the others.* The backoff formula computes 2.0 ** (failures - 1)
  before capping it and raises once 1024 failures are on record. A sweep raises, leaving the
  accounts behind unvisited, exactly if in the state before it some active account would fail with
  1024 failures on record (`SweepRaisesIff`). 1024 sweeps of one failing account from the start lead
  there (`OverflowIsReachable`), and then accounts listed after it are never visited again
  (`OverflowStarvesLaterAccounts`, `HealthyAccountStarves`). The delays themselves are as documented
  up to then.
- *A daemon always matches its account.* Not after the account changes its provider: the old daemon
  stays exactly if it was there before (`StaleProviderDaemonStays`).
- *An account has a daemon or waits for a retry, not both.* A sweep leaves both exactly if the
  account's visit is reached and fails while a daemon runs under another provider, or both were there
  before and the visit is not reached, waits or keeps the daemon (`SweepOverlapsIff`). A failed change
  of provider leads there from the start (`ProviderChangeOverlaps`), and sweeps after the change is
  undone never clear the retry entry (`SwitchBackKeepsOverlap`).
- *Retry entries of removed accounts go away.* A sweep clears one exactly if a daemon of the account
  is registered (`SweepKeepsRetryEntryIff`); without one it stays through any run
  (`RetryEntryOutlivesAccount`).
- *A daemon can be found by its address.* Exactly while every registration fits
  (`IndexesStayInverse`). For the visits of a sweep: exactly if whoever else has an address that is
  registered is restarted or dropped by an earlier visit and no earlier visit moves in there, all read
  off the state before them (`SweepKeepsRoutesIff`). Two accounts that hand an address over in one
  sweep break it (`HandoverLosesRoute`, `HandoverFromStart`).
- *Expired keys are gone.* For all operations but `expire`, `delete` and, within a second, `ttl`
  (`PurgingIsInvisibleIff`); over a run the replies show it exactly if such a call meets one
  (`LazyExpiryIsEager`).
- *The distributed limiter is a sliding window.* Its limit holds over an interval exactly if the
  interval starts with a bucket; otherwise twice the limit can pass (`SlidingLimitHoldsIff`).
- *The two dedup engines agree.* Exactly if no question lands on an expiry instant
  (`EnginesAgreeIff`).
- *A rollback takes back one update.* It restores the score before that update, so the result is
  what it would be without the update exactly if the later feedback, whatever its signs, rests at
  that score (`RollbackKeepsLaterFeedbackIff`): its sum is positive and the score is where the later
  updates take 1, or negative and it is where they take 0, or zero and it lies between the two.
- *The order of feedback does not matter.* Submissions without shared ids leave the same trust in
  every order exactly if their new deltas have one sign, or all gains together fit below 1 and all
  losses together above 0 (`OrderFreeIff`).
- *Rolling everything back restores the start.* Newest first it does (`UnwindRestoresTrust`); oldest
  first, a feedback that was rolled back counts again (`RolledBackFeedbackCountsAgain`).
- *Advice moves a tenant by one tier.* Applied after any further calls it can move two: down exactly
  if the setting has reached the top and the advice is to decrease from elsewhere or to keep the
  bottom, and up symmetrically (`StaleAdviceMovesTwoTiersIff`). From a fresh tuner two pieces of
  advice drawn up at BALANCED take the tenant from AGGRESSIVE to PERMISSIVE (`TwoAdvicesCross`).
- *Suppression hides repetitions of what was delivered.* The window opens before any channel is
  tried, so an alert that fails everywhere silences its repetitions too
  (`UndeliveredAlertSuppresses`).
- *More severe evidence never lowers the score.* True for items above INFO (`RaisingNeverLowers`).
  Raising an INFO item lowers the score exactly if it then counts in place of a later, more valuable
  item of its factor (`RaisingLowersIff`, `RaisingInfoCanLower`).
- *Keys and fingerprints tell their inputs apart.* Exactly if no joined part holds a ':'
  (`OnlySplitIff`, `FingerprintSeparatesIff`, `KeySeparatesIff`); among alerts that can be suppressed
  at all, a ':' at the very end of the target is harmless (`SuppressionSeparatesIff`).

## Model

| member | source | states |
|---|---|---|
| Registry.RegisterExact | src/ingestion_gateway/webhook_handler.py:37-50 | registering keeps the two indexes inverse if and only if an id in use keeps its address and the address is free or held under that id |
| Registry.UnregisterExact | src/ingestion_gateway/webhook_handler.py:52-63 | unregistering always keeps them inverse |
| Registry.IndexesStayInverse | src/ingestion_gateway/webhook_handler.py:37-92 | over every call sequence, inverse at every point if and only if every registration fits |
| Registry.SharedAddressLosesRoute | src/ingestion_gateway/webhook_handler.py:52-63 | with a shared address, dropping one daemon leaves the other registered but unreachable by address |
| Registry.MailboxDaemonRegistry.Register | src/ingestion_gateway/webhook_handler.py:37-43 | both indexes get the daemon, nothing else changes |
| Registry.MailboxDaemonRegistry.Unregister | src/ingestion_gateway/webhook_handler.py:52-63 | removes id and address of the daemon; reports whether it was there |
| Registry.MailboxDaemonRegistry.FindByMailbox | src/ingestion_gateway/webhook_handler.py:72-77 | while the indexes are inverse, finds the one daemon of that provider and address up to case, or none exists |
| Registry.ReachableIdsMatch | src/ingestion_gateway/webhook_handler.py:37-63 | a registry filled through its own operations files every daemon under its own id |
| Registry.MailboxDaemonRegistry.ListDaemons | src/ingestion_gateway/webhook_handler.py:79-86 | every registered daemon, of the given tenant if one is given, exactly once |
| Coordinator.AccountSyncCoordinator.TerminateOrphans | src/ingestion_gateway/coordinator.py:120-141 | the termination loop equals one order-free removal of all daemons of inactive accounts |
| Coordinator.DroppedAllIsTerminate | src/ingestion_gateway/coordinator.py:121-141 | the order in which daemons are listed does not matter |
| Coordinator.AccountSyncCoordinator.ReconcileAccount | src/ingestion_gateway/coordinator.py:144-221 | one visit takes the specified step for every combination of stop, create and start failures |
| Coordinator.AccountSyncCoordinator.ReconcileOnce | src/ingestion_gateway/coordinator.py:109-233 | a whole sweep, abort by an exception included |
| CoordinatorSafety.SweepIsSafe | src/ingestion_gateway/coordinator.py:109-221 | after any sweep no daemon of an inactive account; after one that did not raise every active account has a daemon or a retry entry |
| CoordinatorSafety.RunKeepsInv | src/ingestion_gateway/coordinator.py:109-221 | in every reachable state ids match, failure and retry entries have the same keys, every daemon has a fingerprint |
| CoordinatorSafety.VisitsAreLocal | src/ingestion_gateway/coordinator.py:143-221 | visiting other accounts changes nothing known about an account |
| CoordinatorSafety.SweepForgetsTerminated | src/ingestion_gateway/coordinator.py:135-141 | an account that loses its daemon to a sweep leaves no entry behind and is counted |
| CoordinatorSafety.ProviderNamesMapToThemselves | src/ingestion_gateway/coordinator.py:68-79 | the three provider names are recognised as themselves |
| Common.CaseIsAscii | src/ingestion_gateway/coordinator.py:68-71 | folding case moves the 26 letters and nothing else |
| CoordinatorSafety.ProviderByName | src/ingestion_gateway/coordinator.py:68-79 | which words in a provider text decide for which provider, and which goes first |
| CoordinatorSafety.FoundDaemonIsKeptIff | src/ingestion_gateway/coordinator.py:177-199 | a daemon found without a stored fingerprint or with the current one is kept as it is; with another one it is replaced |
| CoordinatorSafety.StaleProviderDaemonStays | src/ingestion_gateway/coordinator.py:123-124 | a daemon under a former provider of an active account survives a sweep exactly if it was there |
| CoordinatorOverlap.SweepOverlapsIff | src/ingestion_gateway/coordinator.py:143-213 | every sweep over distinct accounts, raising or not and from any state of a run, leaves an account with both daemon and retry entry if and only if its visit is reached and fails beside a daemon of another provider, or both were there and the visit is not reached, waits or keeps the daemon |
| CoordinatorOverlap.ProviderChangeOverlaps | src/ingestion_gateway/coordinator.py:152-213 | from the start, a change of provider and one failing visit lead there |
| CoordinatorOverlap.SwitchBackKeepsOverlap | src/ingestion_gateway/coordinator.py:147-199 | after the change is undone, both stay through any number of sweeps at any times |
| CoordinatorSafety.SweepKeepsRetryEntryIff | src/ingestion_gateway/coordinator.py:121-141 | a sweep clears the retry entry of an inactive account if and only if a daemon of it is registered; otherwise entry and count are unchanged |
| CoordinatorSafety.RetryEntryOutlivesAccount | src/ingestion_gateway/coordinator.py:121-141 | the same over any run in which the account stays away |
| CoordinatorSafety.DaemonsAreConserved | src/ingestion_gateway/coordinator.py:121-213 | over every run, registered = spawned - terminated - failed restarts |
| CoordinatorStable.VisitKeepsStable | src/ingestion_gateway/coordinator.py:147-213 | with a stable provider a visit keeps daemons and retry entries apart and leaves the account current or waiting |
| CoordinatorStable.SweepSettles | src/ingestion_gateway/coordinator.py:109-221 | after a sweep every active account is in backoff or runs with its current fingerprint |
| CoordinatorStable.EveryReachableSweep | src/ingestion_gateway/coordinator.py:109-221 | the same for the next sweep after any run, registered and waiting accounts being disjoint |
| CoordinatorStable.SecondSweepIsIdle | src/ingestion_gateway/coordinator.py:121-199 | repeating a sweep when no account waits changes nothing but the cycle counter |
| CoordinatorStable.HealthySweepConverges | src/ingestion_gateway/coordinator.py:143-199 | an undisturbed sweep leaves exactly the active accounts running, all current |
| CoordinatorStable.RecoversWithin300Seconds | src/ingestion_gateway/coordinator.py:81-85 | after any run, the first undisturbed sweep 300 seconds later converges |
| ColonKeys.OnlySplitIff | src/ingestion_gateway/coordinator.py:58-66 | two or more texts joined with ':' can be read back in one way only if and only if none of them holds a ':' |
| CoordinatorStable.FingerprintSeparatesIff | src/ingestion_gateway/coordinator.py:58-66 | a configuration shares its fingerprint with no other one if and only if none of its four parts holds a ':' |
| CoordinatorStable.FingerprintSeparates | src/ingestion_gateway/coordinator.py:58-66 | between two configurations that hold ':' in the last part only, equal fingerprints mean equal configuration |
| CoordinatorStable.FingerprintCollision | src/ingestion_gateway/coordinator.py:58-66 | moving a ':' between the tokens keeps the fingerprint |
| CoordinatorBackoff.DelaysInFigures | src/ingestion_gateway/coordinator.py:81-85 | delays of 10, 20, 40, 80, 160 and then 300 seconds, none that can be computed from the 1025th failure on |
| CoordinatorBackoff.StreakOkRun | src/ingestion_gateway/coordinator.py:147-149 | in every run the failure counter is the length of the streak and each gap is at least the promised delay, up to the 1025th failure |
| CoordinatorBackoff.FailureStreaksSpread | src/ingestion_gateway/coordinator.py:209-213 | n failures in a row span at least 10*(2^(n-1)-1) seconds for n <= 6, 310+300*(n-6) beyond |
| CoordinatorBackoff.SweepRaisesIff | src/ingestion_gateway/coordinator.py:81-85 | a sweep raises if and only if, in the state before it, some active account would fail with 1024 failures on record and is not changed by an earlier visit of the same sweep |
| CoordinatorBackoff.OverflowIsReachable | src/ingestion_gateway/coordinator.py:209-213 | 1024 sweeps of one failing account, 300 seconds apart, lead there from the start |
| CoordinatorBackoff.OverflowStarvesLaterAccounts | src/ingestion_gateway/coordinator.py:201-213 | from then on every sweep raises and accounts listed later are never touched again, in any run |
| CoordinatorBackoff.HealthyAccountStarves | src/ingestion_gateway/coordinator.py:201-213 | from the start: an account listed behind the failing one after those sweeps never gets a daemon |
| CoordinatorMailbox.SweepRegistersFreeIds | src/ingestion_gateway/coordinator.py:158-205 | from any state the registry after a sweep is the result of its calls, and none registers over an id in use |
| CoordinatorMailbox.SweepKeepsRoutesIff | src/ingestion_gateway/coordinator.py:158-205 | the visits of a sweep keep the two indexes inverse at every point if and only if, in the state before them, each address they register is its own account's, given up by an earlier visit or free, and no earlier visit moves in there |
| CoordinatorMailbox.AddressIndexStaysExact | src/ingestion_gateway/coordinator.py:158-205 | with stable, unshared addresses every run keeps the address index exact |
| CoordinatorMailbox.HandoverLosesRoute | src/ingestion_gateway/coordinator.py:186-195 | an address handed over within one sweep leaves its new owner without a route |
| CoordinatorMailbox.HandoverFromStart | src/ingestion_gateway/coordinator.py:158-195 | two sweeps from the start lead there |
| RedisStore.IntRoundTrip | src/common/redis_client.py:119-123 | counters survive being stored as text |
| RedisStore.PurgingIsInvisibleIff | src/common/redis_client.py:28-154 | an operation behaves as if expired entries were gone, in reply and effect, exactly if it is not expire, delete or ttl meeting one |
| RedisStore.LazyExpiryIsEager | src/common/redis_client.py:28-154 | over every run the replies equal those under eager expiry if and only if no call is such a one |
| RedisStore.SetThenRead | src/common/redis_client.py:28-71 | a write is read back until its deadline, EX before PX, and refused if and only if NX meets a value or XX meets none |
| RedisStore.ExpireThenRead | src/common/redis_client.py:126-133 | a stored value is read until the new deadline |
| RedisStore.TtlTells | src/common/redis_client.py:83-95 | the whole seconds left, -1 without deadline, -2 for what is absent or expired for a second |
| RedisStore.IncrThenRead | src/common/redis_client.py:111-124 | adds to the number read, keeps its deadline |
| RedisStore.DeleteThenRead | src/common/redis_client.py:73-81 | deleted keys cannot be read, each stored one is counted once |
| RedisStore.ExistsCounts | src/common/redis_client.py:97-109 | counts what can be read, repeats included |
| RedisStore.ReleaseThenRead | src/common/redis_client.py:135-154 | takes the key away if and only if the caller's token is read there |
| RedisStore.ExpireRevives | src/common/redis_client.py:126-133 | expire brings an expired key back to readers |
| RedisStore.InMemoryRedisClient.Set | src/common/redis_client.py:39-71 | SET with EX, PX, NX and XX |
| RedisStore.InMemoryRedisClient.Exists | src/common/redis_client.py:97-109 | counts unexpired keys, repeats included, and deletes expired ones |
| RedisStore.InMemoryRedisClient.Delete | src/common/redis_client.py:73-81 | deletes and counts, each key once |
| RedisStore.InMemoryRedisClient.Ttl | src/common/redis_client.py:83-95 | -2, -1 or the remaining time cut toward zero |
| RedisStore.InMemoryRedisClient.Incr | src/common/redis_client.py:111-124 | adds to the number stored, from 0 if absent, expired or not a number |
| RedisStore.InMemoryRedisClient.EvalRelease | src/common/redis_client.py:135-154 | compare and delete |
| LeaseLock.LockRefinesLease | src/common/redis_client.py:417-443 | over any interleaving of clients the lock answers as an ideal lease |
| LeaseLock.MutualExclusion | src/common/redis_client.py:417-443 | after an acquire no request of anybody succeeds until release by the owner or expiry; late releases take nothing away |
| LeaseLock.MutualExclusionFromEmptyStore | src/common/redis_client.py:417-443 | the same from an empty store, with no assumption on the state |
| LeaseLock.DistributedTenantLock.Acquire | src/common/redis_client.py:417-431 | the polling loop takes the lock at the first round within the timeout that finds it free, whatever others do meanwhile |
| LeaseLock.DistributedTenantLock.Release | src/common/redis_client.py:433-443 | releases only what this object acquired |
| RateLimiter.CounterIsExact | src/common/redis_client.py:475-485 | a bucket's counter never expires early: a call sees exactly the cost requested in its bucket |
| RateLimiter.AllowedIffWithinLimit | src/common/redis_client.py:479-489 | allowed exactly if that cost is within the limit |
| RateLimiter.BucketNeverOverspends | src/common/redis_client.py:479-489 | allowed cost per bucket is at most the limit |
| RateLimiter.AnyWindowAtMostTwiceLimit | src/common/redis_client.py:458-489 | any interval of one window's length lets through at most twice the limit |
| RateLimiter.SlidingLimitHoldsIff | src/common/redis_client.py:458-489 | the limit holds over the interval from a in every run exactly if a starts a bucket |
| RateLimiter.DistributedRateLimiter.IsAllowed | src/common/redis_client.py:479-489 | increment, arm the expiry on the first write, verdict and remaining budget |
| Dedup.SeedSeparates | src/ingestion_gateway/dedup.py:29-35 | messages share a key exactly if they agree up to white space around the id |
| Dedup.ForgettingIsInvisible | src/ingestion_gateway/dedup.py:37-163 | lazy deletes, pruning and clearing answer every call like a table that never drops expired entries |
| Dedup.AcceptedIffNoLiveOccurrence | src/ingestion_gateway/dedup.py:82-125 | accepted exactly if no earlier accepted occurrence is within its time to live; accepted ones are that far apart |
| Dedup.ChecksAreCounted | src/ingestion_gateway/dedup.py:100-125 | checked = accepted + duplicates over every run |
| Dedup.IngestionDeduplicationEngine.CheckAndMark | src/ingestion_gateway/dedup.py:82-125 | the atomic check |
| Dedup.IngestionDeduplicationEngine.PruneExpired | src/ingestion_gateway/dedup.py:142-151 | removes exactly the expired entries and counts them |
| Dedup.ClearForgetsTenant | src/ingestion_gateway/dedup.py:153-163 | after any run, clearing a tenant makes its messages new and leaves every answer about others as it was |
| Dedup.RecordOfAccepted | src/ingestion_gateway/dedup.py:101-140 | the record of an accepted message, readable until its time to live is over |
| Dedup.StripIsInner | src/ingestion_gateway/dedup.py:33 | stripping takes all white space off both ends and nothing else |
| Dedup.IngestionDeduplicationEngine.Clear | src/ingestion_gateway/dedup.py:153-163 | removes everything or one tenant's entries |
| RedisDedup.RedisKeySeparates | src/ingestion_gateway/redis_dedup.py:30-38 | Redis keys separate exactly the messages local keys separate |
| RedisDedup.EnginesAgreeIff | src/ingestion_gateway/redis_dedup.py:40-103 | over every run both engines give the same answers exactly if no question lands on an expiry instant; then the counters agree |
| RedisDedup.EnginesAgreeOffBoundary | src/ingestion_gateway/redis_dedup.py:40-103 | a sufficient condition on the calls alone |
| RedisDedup.RedisIngestionDeduplicationEngine.CheckAndMarkAsync | src/ingestion_gateway/redis_dedup.py:75-96 | SET NX EX and the counters |
| Notifications.RefusedIffMinuteIsFull | src/notifications/engine.py:88-101 | refused exactly if the unpruned history has `limit` admissions of the tenant in the last minute |
| Notifications.EveryMinuteWithinLimit | src/notifications/engine.py:88-101 | with a fixed limit no minute, wherever it starts, holds more than `limit` admissions |
| Notifications.SuppressedIffWitness | src/notifications/engine.py:103-131 | suppressed exactly if an earlier alert with the key passed both gates and its window is still open, so purging expired keys changes no verdict; the log is the calls in order |
| Notifications.RepetitionIsOfIncidentOrMessage | src/notifications/engine.py:112-120 | suppression needs a window and an incident or message; repetitions are told by the incident if there is one, by the message otherwise |
| Notifications.OnlyPassingOpensWindows | src/notifications/engine.py:186-233 | refused and suppressed calls never create or extend a window |
| Notifications.UndeliveredAlertSuppresses | src/notifications/engine.py:122-131 | whatever the channels report, a repetition inside the window of an alert that passed both gates is refused or suppressed, after any calls in between |
| Notifications.KeySeparatesIff | src/notifications/engine.py:116-120 | an alert shares its key with no alert of another tenant, event or target if and only if none of the three holds a ':' |
| Notifications.SuppressionSeparatesIff | src/notifications/engine.py:116-120 | among alerts with a target the same holds with the last character of the target set aside |
| Notifications.KeySeparatesAlerts | src/notifications/engine.py:116-120 | between two alerts whose tenants and events hold no ':', equal keys mean equal parts |
| Notifications.KeyCollision | src/notifications/engine.py:120 | alerts of different tenants can share a key |
| Notifications.SendWithRetries | src/notifications/engine.py:133-171 | stops at the first DELIVERED or SKIPPED, else after all attempts; the last attempt's status is passed on and an exception is FAILED; the sleeps add up to the doubled backoffs with jitter |
| Notifications.WaitsClosedForm | src/notifications/engine.py:161-164 | k backoffs sum to backoff*(2^k-1) |
| Notifications.NotificationEngine.CheckRateLimit | src/notifications/engine.py:88-101 | the pruning rate gate |
| Notifications.NotificationEngine.Dispatch | src/notifications/engine.py:173-278 | both gates in order; the delivered and failed lists hold exactly the channels reporting so, in order and with repeats; all counters; after an alert that passed, repetitions are silenced even if nothing was delivered |
| Convergence.DeltaIsNeverClamped | src/feedback/convergence.py:26-37 | the 0.20 bound on a delta never binds |
| Convergence.RunKeepsInv | src/feedback/convergence.py:161-239 | in every run no two audit items share an id, the processed set is exactly their ids, scores stay in [0,1], incidents are counted |
| Convergence.RollbackTargetIsUnique | src/feedback/convergence.py:278-283 | the backward search has one possible target |
| Convergence.TrailOnlyGrows | src/feedback/convergence.py:225-239 | audit items are never changed except for the rollback mark, which is never removed |
| Convergence.RolledBackForGood | src/feedback/convergence.py:285-304 | a rolled-back feedback can never be rolled back or applied again |
| Convergence.VerdictMovesTrust | src/feedback/convergence.py:29-37 | a new feedback raises trust if and only if it clears the message and trust is below 1, lowers it if and only if it incriminates and trust is above 0, by the amount in figures of each verdict and level; no other entity moves |
| Convergence.RankMovesTrustFurther | src/feedback/convergence.py:195-209 | the same verdict moves trust further from a senior than from a junior and from a lead than from a senior, strictly unless the end of the range stops it |
| Convergence.FirstFeedback | src/feedback/convergence.py:182-223 | the whole record of an entity after its first feedback, in figures |
| Convergence.TenantMemoryConvergenceEngine.ApplyConvergence | src/feedback/convergence.py:148-259 | one update at most per id, moving trust by the figures of verdict and level, with its audit item; other tenants untouched |
| Convergence.TenantMemoryConvergenceEngine.RollbackConvergence | src/feedback/convergence.py:261-321 | authorisation, tenant boundary, and the restored score |
| ConvergenceReplay.TrustIsReplay | src/feedback/convergence.py:186-304 | in every run an entity's trust is the replay of its own log of updates and rollbacks |
| ConvergenceReplay.UnwindRestoresTrust | src/feedback/convergence.py:295-304 | rolling back newest first steps through the earlier values, back to 0.50 |
| ConvergenceReplay.CountersSurviveRollback | src/feedback/convergence.py:211-223 | each counter of an entity adds up its applied submissions; rollback undoes none |
| ConvergenceReplay.ConfidenceIsCappedSum | src/feedback/convergence.py:213 | confidence is the capped sum of 5% of the applied weights in every run |
| ConvergenceOrder.FoldIsClampedSum | src/feedback/convergence.py:204-209 | updates of any signs amount to their sum, cut off where the same updates take 0 and 1 |
| ConvergenceOrder.TrustIsFold | src/feedback/convergence.py:186-223 | from any state, an entity's trust after any submissions is the fold of the deltas the engine applied to it |
| ConvergenceOrder.SameSignTrustIsClampedSum | src/feedback/convergence.py:204-209 | on the engine, feedback of one sign moves trust by its sum, cut off at 0 and 1 |
| ConvergenceOrder.SameSignOrderFree | src/feedback/convergence.py:161-209 | on the engine, two permuted submission lists without shared ids leave the same trust if the deltas have one sign |
| ConvergenceOrder.OrderFreeIff | src/feedback/convergence.py:161-209 | on the engine, submissions without shared ids leave the same trust in every order if and only if the new deltas have one sign or all gains and all losses each stay in range on their own |
| ConvergenceOrder.FeedbackNeverWidensGap | src/feedback/convergence.py:204-209 | on the engine, equal feedback keeps the order of two entities and never widens their gap |
| ConvergenceOrder.RollbackRestoresPrior | src/feedback/convergence.py:278-304 | whatever happens in between, the first rollback of a feedback succeeds and sets the trust to what it was just before that feedback |
| ConvergenceOrder.RolledBackFeedbackCountsAgain | src/feedback/convergence.py:295-300 | two feedbacks rolled back oldest first leave the first one in force; the start is restored if and only if that one was zero or cut off entirely |
| ConvergenceOrder.RollbackKeepsLaterFeedbackIff | src/feedback/convergence.py:295-300 | on the engine, rolling back a feedback gives the trust it would have without that feedback if and only if the later feedback, of any signs, rests at the restored score |
| ConvergenceOrder.RollbackKeepsLaterUpdatesIff | src/feedback/convergence.py:295-300 | the same for every replayed history |
| Tuner.CountsAreConserved | src/feedback/tuner.py:131-194 | the distribution sums to the samples, the seven counters exactly if no verdict is outside the enumeration; rates lie in [0,1] |
| Tuner.DecreaseSurvivesFalsePositives | src/feedback/tuner.py:216-259 | advice to decrease survives more false positives |
| Tuner.IncreaseSurvivesFalseNegatives | src/feedback/tuner.py:216-259 | advice to increase survives more false negatives |
| Tuner.AdviceIsKept | src/feedback/tuner.py:276-342 | through any calls an advice changes only by its mark, set by the one call that applies it and never again |
| Tuner.StaleAdviceMovesTwoTiersIff | src/feedback/tuner.py:301-344 | advice drawn up in any state and applied after any calls: applied if and only if the caller may and nobody has; down two tiers if and only if the tenant is at the top and the advice is to decrease from elsewhere or to keep the bottom, up two symmetrically; at most one if the setting is still the one it saw |
| Tuner.TwoAdvicesCross | src/feedback/tuner.py:196-344 | from a fresh tuner, advice to increase and advice to decrease drawn up at BALANCED take the tenant from AGGRESSIVE to PERMISSIVE |
| Tuner.AdaptiveSensitivityTuner.CalculateWindowAnalytics | src/feedback/tuner.py:111-194 | the counting loop yields the filter counts and rates of the window |
| Tuner.DirectionIsCalledFor | src/feedback/tuner.py:221-259 | insufficient if and only if fewer than the minimum of the tenant's entries lie in the window; decrease if and only if enough do, with at least 15% false positives and fewer than 5% false negatives; increase with 5% and 10%; counted on the entries |
| Tuner.TargetIsOneStep | src/feedback/tuner.py:58-73 | advice names the tier one below or above the one seen unless that is the end of the scale |
| Tuner.AdaptiveSensitivityTuner.GenerateRecommendation | src/feedback/tuner.py:196-288 | stores the advice that the entries call for, one tier away, other tenants untouched |
| Tuner.AdaptiveSensitivityTuner.ApplyRecommendation | src/feedback/tuner.py:301-363 | takes the specified step: applied at most once, by an administrator of the tenant |
| RiskScoring.OnlyFirstsMatter | src/planner/risk_scoring.py:52-92 | score, confidence and level depend only on the first item above INFO of each factor |
| RiskScoring.SwapIsHarmless | src/planner/risk_scoring.py:56-74 | neighbouring items of different factors can be swapped |
| RiskScoring.InfoIsInert | src/planner/risk_scoring.py:60-62 | INFO items change nothing |
| RiskScoring.MoreEvidenceNeverLowersScore | src/planner/risk_scoring.py:52-92 | more evidence extends the breakdown and never lowers score, confidence or level; factors are distinct |
| RiskScoring.RaisingNeverLowers | src/planner/risk_scoring.py:56-74 | making an item above INFO more severe never lowers score or level |
| RiskScoring.RaisingLowersIff | src/planner/risk_scoring.py:56-75 | raising an item lowers the score if and only if it was INFO and now counts in place of a later item of its factor that is worth more, the sum falling below 100 |
| RiskScoring.RaisingInfoCanLower | src/planner/risk_scoring.py:56-75 | an INFO item before a CRITICAL one of its factor, raised to LOW, cuts the score of the pair to a quarter |
| RiskScoring.ShareIsProduct | src/planner/risk_scoring.py:61-65 | the share of an item is the weight times the multiplier of its severity |
| RiskScoring.OneItemScores | src/planner/risk_scoring.py:24-30 | a single item scores none, a quarter, a half, four fifths or all of its factor's weight |
| RiskScoring.FactorIsFirstMentioned | src/planner/risk_scoring.py:94-119 | an item belongs to the first factor a word of which its category mentions, in any case |
| RiskScoring.FactorIgnoresSeverity | src/planner/risk_scoring.py:94-119 | the classification does not look at the severity, so the laws of raising apply to the engine |
| RiskScoring.HundredthsAreNearest | src/planner/risk_scoring.py:65 | points are the nearest hundredths, the even one of two |
| RiskScoring.HundredthsAreExact | src/planner/risk_scoring.py:75 | the second rounding changes nothing |
| RiskScoring.EngineWeights | src/planner/risk_scoring.py:47-50 | accepted exactly if no custom weight is negative, whatever its name; a factor gets its custom weight or the default |
| RiskScoring.WeightsAre | src/planner/risk_scoring.py:10-23 | the twelve weights in figures, or the custom ones under the twelve names |
| RiskScoring.Score | src/planner/risk_scoring.py:52-92 | the breakdown is made from exactly the first items above INFO of the factors, in order; the score is their sum up to 100; levels at 25, 50 and 75; confidence by their number; reasons are their descriptions |
| Investigator.EveryExit | src/planner/investigator.py:48-169 | one summary and one decision per iteration, one final decision exactly on success, and success means the last plan held nothing unexecuted |
| Investigator.SucceedsIff | src/planner/investigator.py:53-156 | success exactly if some round within the limit concludes and all before it went on |
| Investigator.LoopEndsAs | src/planner/investigator.py:48-156 | the loop ends in the way and after the number of iterations that cancellations, plans and step records call for: nothing left to run, outright failure, cancellation, failed planning or the limit |
| Investigator.OneWayToEnd | src/planner/investigator.py:48-156 | no two endings fit the same rounds, so each is taken if and only if its condition holds |
| Investigator.ProgressMeansSuccess | src/planner/investigator.py:79-136 | with m possible steps, more than m iterations and progress in each round it succeeds within m |
| Investigator.Investigate | src/planner/investigator.py:42-169 | the loop as written: the ending above, success if and only if every step of the last plan has a record as completed, failed or skipped in an earlier round, one summary and one decision per iteration; the unbound variable at limit 0 included |

## Left out

- CoordinatorOverlap.SweepOverlapsIff: account lists name each key once, as a listing by primary key does; lists that repeat a key are covered by the other sweep results.
- CoordinatorMailbox.SweepKeepsRoutesIff: the same.
- `AsyncRedisClient` and a real Redis server: network I/O; the lock and dedup claims are about one shared in-memory client, as a fail-over in the middle of a lease would void them.
- The fall-back of the Redis dedup engine to its local table: reached only when the client raises.
- `InMemoryRedisClient` values are text; byte values and the unconditional answer to unknown scripts are not modelled, nor the blanks and underscores that Python's int() accepts.
- Cancellation of a sweep, and other tasks that touch the registry between its awaits.
- The mutable trust and audit records are values in maps and sequences; they are never handed out, so aliasing plays no part.
- Tenant locks and the concurrency of channel deliveries: each locked section is one step, and what channels report is an input.
- Explanation texts, log messages, analyst names in audit items other than who rolled back, and wall-clock stamps.
- Routers, user interface, repositories, dead-letter storage, parsers, sanitiser, daemons and channels: I/O, text, or code whose parts would only add easy members.
- Rounding of floating-point numbers, except where the code rounds to two decimals or overflows.
