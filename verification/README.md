# A verified model of the attestation proxy

The attestation proxy guards a confidential workload: an owner claims the
instance with a password, the wrapped owner seed is kept as two KBS resources,
unlocking hands the seed to the init process, and the proxy signs receipts and
builds proof bundles for verifiers. This project models the parts of it whose
correctness depends on whole runs or on byte-exact formats, and proves what they
keep.

`dafny verify dfyconfig.toml` checks everything.

| files | subject |
|---|---|
| `OwnershipSpec`, `OwnershipGuard`, `Reservations`, `Attempts`, `UnlockProtocol` | the ownership machine behind its lock, who owns a reservation over every run, the attempt window, and concurrent unlock and recover requests |
| `Startup`, `ReadyWatch` | the two bounded wait loops |
| `ResourceCache`, `CacheCoherence` | the resource cache and read-after-write over every interleaving of fetches and writes |
| `WorkloadRequests`, `SeedStore`, `SeedStoreClient`, `SeedUpdates` | the retry loop, the two-resource update with rollback, and teardown |
| `SeedConservation`, `SeedConservationProofs`, `InterleavedClaims`, `InterleavedHandlers` | all owner-seed handlers over store, machine and volume, one after the other and in interleaved small steps |
| `Calendar`, `Decimals`, `Timestamps` | both date conversions, the strict timestamp parser and the timestamp printer |
| `ProofRate`, `Challenges`, `ChallengeHistory` | the proof rate limiter and the bootstrap challenge queue, each against its whole history |
| `CeV1`, `ProofBundle`, `Hex`, `Receipts`, `SnpReport` | the CE-v1 record encoding and what is built from it, and the reconstruction of the raw SNP report |

How the model stands to the source:

- State that the program changes in place (guard, cache, seed store, limiter,
  challenge queue, report buffer) is a class or an array whose methods are proved
  against functions or against a recorded history. Concurrent behaviour is a
  state machine whose steps are the stretches between awaits; results hold for
  every sequence of steps.
- The network, the clock, files, randomness and the init process are parameters:
  every result is for all their behaviours. Upstream stores honour `If-Match: *`
  and `If-None-Match: *` (sections 13.1.1 and 13.1.2 of RFC 9110), and a request
  that is reported as failed may have taken effect unless a result says otherwise.
- Clock readings are integers that do not go back. Integers are unbounded where
  the program's widths cannot be reached; the 32-bit overflow of the digit loop,
  the truncating division of the date conversion and the 64-bit generation are
  explicit.
- Handlers in `SeedConservation` run one at a time, with the machine and rate limits;
  in `InterleavedHandlers` they interleave read by read and request by request,
  without them. AES-GCM is an envelope that
  opens under its own key only, seeds and keys are compared for equality, and
  `Uuid::parse_str` is any function with 16-byte results.
- Claim, unlock and recover send the init process the same request, and it answers
  them alike: it formats a blank volume with the seed, accepts the seed of the
  volume and refuses any other.
- The consecutive writes of `raw_snp_report` are a table of fields in the same
  order, walked by a loop. `days_to_ymd` is split into named steps.
- Reads of the owner-seed resources trim the configured path, while writes and
  evictions use it as it is; the model assumes paths without surrounding white
  space, where the two agree.

Where the code does less than one might expect, the exact condition is proved:

- A rollback after removing the encrypted resource is a conditional replacement of
  something that is gone, so it cannot succeed (`SeedUpdates.AtomicIff`). No
  handler issues that pair of updates.
- A claim holds its seed only if the volume ends up with it. On a foreign volume, or
  on a blank one that the claim did not get to format, a recovery with another seed
  replaces the envelope (`SeedConservationProofs.SeedIsConservedIff`, with the
  blank-volume run in `BlankVolumeRun`).
- Two claims that both passed their refresh both write, and the later one replaces
  the envelope (`InterleavedClaims.ClaimCreatesIffNothingWritten`).
- A recover request has no cancel guard: dropped under its reservation, it leaves the
  machine Unlocking without an owner (`UnlockProtocol.OwnerIsLiveUnlessDropped`,
  with the run in `DroppedRecoveryStrands`).
- Challenge expiries are computed before the queue is locked and may arrive out of
  order; then an expired challenge can still be consumed, and a live one can be pushed
  out below 32 live ones (`ChallengeHistory.AcceptedIffProtected`,
  `Challenges.PushedOutIff`).
- A ready-watch timeout beyond the extension cap would be pulled back by a cooldown
  marker (`ReadyWatch.SteadyIffBelowCap`).
- Timestamps from year 10000 on are printed but not accepted
  (`Timestamps.PrintedParsesBack`).

## Model

| member | source | states |
|---|---|---|
| `OwnershipSpec.Step` | src/ownership.rs:279-501 | Every guard entry point as one atomic step; a step that ends Unlocking either issued the next generation or found the machine Unlocking, and no other step issues one |
| `OwnershipGuards.OwnershipGuard.constructor` | src/ownership.rs:297-319 | A new guard is the initial machine: Locked in every mode that needs a manual unlock, otherwise Unlocked, generation 0 |
| `OwnershipGuards.OwnershipGuard.PruneExpiredAttempts` | src/ownership.rs:268-277 | Front-only pruning of a sorted queue leaves exactly the attempts inside the window |
| `OwnershipGuards.OwnershipGuard.BeginSecretOperationAttempt` | src/ownership.rs:279-295 | The in-place update and reply equal the step function, rate limit and error cases included |
| `OwnershipGuards.OwnershipGuard.BeginUnlockAttempt` | src/ownership.rs:321-342 | As above; the rate limit is tested before the state |
| `OwnershipGuards.OwnershipGuard.BeginRecoveryFromLatchedError` | src/ownership.rs:389-403 | As above; the returned token is the new generation |
| `OwnershipGuards.OwnershipGuard.BeginVerification` | src/ownership.rs:405-417 | As above; only Locked and Unclaimed can be reserved |
| `OwnershipGuards.OwnershipGuard.ClaimRecoveredState` | src/ownership.rs:352-387 | As above; both observations, all three outcomes |
| `OwnershipGuards.OwnershipGuard.RestoreReprobeableErrorIfUnlocking` | src/ownership.rs:488-501 | As above; nothing changes unless Unlocking under this very generation |
| `OwnershipGuards.OwnershipGuard.Perform` | src/ownership.rs:279-501 | Any call through its entry point, the setters included, equals the step function |
| `OwnershipGuards.Drive` | src/ownership.rs:261-501 | A new guard driven through any calls at times that do not go back is a guard run with its replies, so the results about runs are about the class |
| `Reservations.GenerationGrows` | src/ownership.rs:321-501 | Over every run the generation never falls and grows by at most one per call |
| `Reservations.TokensNeverRepeat` | src/ownership.rs:321-454 | No two calls of a run issue the same token |
| `Reservations.NoBreakWithinGeneration` | src/ownership.rs:321-501 | Unlocking with a generation seen earlier in the run means Unlocking at every point in between |
| `Reservations.EveryTokenWasIssued` | src/ownership.rs:321-454 | Every positive generation up to the current one was issued by some call |
| `Reservations.ReservationUnbrokenSinceIssue` | src/ownership.rs:321-501 | Unlocking with generation g: exactly one call issued g, and the machine has been Unlocking with g without a break since |
| `Reservations.CancelGuardActsOnlyOnItsReservation` | src/handlers.rs:1998-2018 | The drop of the cancel guard of token g changes the machine if and only if g's reservation has stood since it was issued; then it only latches a re-probeable error |
| `Reservations.AbsentSeedClaimActsOnlyOnItsReservation` | src/ownership.rs:352-387 | The absent-seed branch of claim_recovered_state changes the machine if and only if g's own reservation has stood since it was issued |
| `Reservations.CancelGuardInertAfterClaim` | src/handlers.rs:2064-2128 | After a claim that did not conflict, the drop of the same request's cancel guard is a no-op |
| `Reservations.ReservationEndsOnce` | src/ownership.rs:321-501 | A reservation that has ended is never held again |
| `Reservations.TokensFitTheCounter` | src/ownership.rs:244-259 | Fewer than 2^64 calls keep the token within 64 bits |
| `Attempts.SixAdmissionsSpanTheWindow` | src/ownership.rs:268-295 | Over every run with a clock that does not go back, any six consecutive admissions since the last clear, over all three charged entry points, span at least 60 s |
| `Attempts.RateLimitedIffFiveFreshAdmissions` | src/ownership.rs:279-403 | A charged entry point answers RateLimited if and only if five admissions since the last clear are younger than the window |
| `Attempts.TraceFaithful` | src/ownership.rs:268-446 | After every run the pruned queue and the unpruned history have the same fresh part at every later time |
| `UnlockProtocol.ProcessStep` | src/handlers.rs:2021-2174 | One step of an unlock or recover request, a task or a watch: it keeps, drops or newly receives a token, and leaves Unlocking behind only under a token it or the previous owner answers for |
| `UnlockProtocol.RecoverStep` | src/handlers.rs:2433-2479 | The same for recover: its reservation, the three awaits under it, its undo and latch branches, the late watch and the finish |
| `UnlockProtocol.LostIffDropped` | src/handlers.rs:2008-2018 | A reservation loses its holder exactly when an event of the run drops the process holding it and no guard is left behind |
| `UnlockProtocol.OwnerIsLiveUnlessDropped` | src/handlers.rs:2021-2174 | After every interleaving of any number of unlock and recover requests, drops at any await, spawned tasks, watches and other handlers' guard calls, an Unlocking machine has at most one live owner of its current token, and none if and only if the holder of that token was dropped without a guard |
| `UnlockProtocol.OnlyRecoveriesLoseTheirReservation` | src/handlers.rs:3065-3214 | With the cancel guard the only such drops are those of a recover request between its reservation and its end |
| `UnlockProtocol.NoStrandedUnlock` | src/handlers.rs:1998-2174 | So, unless a recovery was dropped under its reservation, every Unlocking machine has a live owner |
| `UnlockProtocol.DroppedRecoveryStrands` | src/handlers.rs:2420-2480 | The run that strands the machine: one recover request, dropped right after its reservation |
| `UnlockProtocol.GuardIsNeeded` | src/handlers.rs:1998-2018 | A dropped unlock request ends in Error with the cancel guard, and strands the machine in the variant without it |
| `UnlockProtocol.TaskCompletionLeavesUnlocking` | src/handlers.rs:2216-2310 | Every completion of the spawned unlock task leaves Unlocking |
| `UnlockProtocol.EnoughStepsFinish` | src/handlers.rs:2021-2310 | A process that takes as many own steps as its rank is over, however the others interleave |
| `UnlockProtocol.ReservationIsReleased` | src/handlers.rs:2021-2310 | After any continuation in which the owner takes 37 own steps the machine is Unlocking under that token only if the owner was dropped without a guard |
| `Startup.ObservedIsGuardCall` | src/handlers.rs:973-1009 | What a refresh does to the machine is one of three guard calls, or nothing while Unlocking |
| `Startup.AfterSuccess` | src/handlers.rs:1949-1970 | Another poll if and only if the instance on KBS is still unclaimed and the poll budget lasts, after a sleep cut at the total deadline |
| `Startup.AfterError` | src/handlers.rs:1971-1993 | Another try if and only if the backend is KBS, the error budget lasts and the window of this error episode and the total deadline are open, after a sleep cut at both |
| `Startup.Round` | src/handlers.rs:1920-1994 | One round makes the next refresh of the sequence and goes on if and only if that refresh is one to go on after |
| `Startup.InitializeOwnershipState` | src/handlers.rs:1905-1996 | For every sequence of refresh results and durations: the refreshes made are exactly those the durations, deadlines, windows and sleeps dictate, each answering its own result if it ends by its deadline and a timeout otherwise; the loop ends at the first after which it must not go on, with the state of the last successful one or that state with the last error latched |
| `Startup.RefreshIsInTime` | src/handlers.rs:1914-1947 | Every refresh lies within the total deadline and, in an error episode, within that episode's window |
| `Startup.StartupIsBounded` | src/handlers.rs:851-889 | At most 124 refreshes, finished by the total deadline although successes restart the error window |
| `Startup.UnclaimedWasPolled` | src/handlers.rs:1949-1970 | An instance on KBS is left Unclaimed only after all five polls answered |
| `Startup.OutcomeIsDetermined` | src/handlers.rs:1905-1996 | Two outcomes for the same refreshes are equal |
| `ReadyWatch.SteadyIffBelowCap` | src/handlers.rs:2687-2699 | No stream of cooldown markers moves the deadline back or past the cap, if and only if the first deadline is not beyond the cap |
| `ReadyWatch.Pass` | src/handlers.rs:2682-2705 | One pass makes the reading that the previous pass, the probe's delays and its marker dictate, and sleeps if it is not late |
| `ReadyWatch.WaitForReady` | src/handlers.rs:2618-2707 | For every stream of files and delays: the readings are those of the first passes, none decided by the files; the watch times out at its first reading at or after its deadline, or answers what the files say before there is one |
| `ReadyWatch.DeadlinesAreOrdered` | src/handlers.rs:2536-2545 | With a timeout within the cap the deadlines never move back nor past start plus cap |
| `ReadyWatch.OutcomeIsDetermined` | src/handlers.rs:2618-2707 | Two outcomes for the same files and delays are equal |
| `ResourceCaches.Looked` | src/kbs.rs:56-75 | A lookup removes only an entry that is neither a live body nor a live error |
| `ResourceCaches.ResourceCache.CachedResourceEntry` | src/kbs.rs:56-75 | The in-place lookup equals its function: body before error, expired entries dropped |
| `CacheCoherence.ExecCoherent` | src/kbs.rs:131-311 | Every event keeps: only a fetch holds the lock, and each cached or in-flight answer is what the path held at a version no older than any settled write |
| `CacheCoherence.ReadAfterWrite` | src/kbs.rs:541-617 | In every continuation of every interleaving, a fetch after a put or delete returned Ok yields the written content or that of a later version; while no later version exists, exactly the written content, never an older body or a cached 404 |
| `CacheCoherence.StaleOnlyWhileWriteOutstanding` | src/kbs.rs:131-249 | A cached or in-flight answer older than the newest version exists only while that version's writer has neither evicted nor returned Ok; a writer that was lost never will |
| `CacheCoherence.FetchKbsResource` | src/kbs.rs:131-249 | The fetch on the cache object: a live entry answers, a miss stores the upstream answer or error and returns it |
| `CacheCoherence.FetchIsThreeEvents` | src/kbs.rs:131-249 | Undisturbed, the begin, serve and finish events of the interleaving model do to the cache and return what that fetch does |
| `CacheCoherence.FetchTwice` | src/kbs.rs:131-249 | A new cache asked twice answers the same while the first body or 404 lives, whatever upstream says |
| `WorkloadRequests.SendWorkloadResourceRequest` | src/kbs.rs:461-514 | The loop with its two counters equals the history-based exchange; at most four requests, and one token-cache invalidation per retried stale 401, so at most one |
| `WorkloadRequests.BudgetsAreIndependent` | src/kbs.rs:469-513 | All replies of a sequence are retried if and only if each is a 503 or a stale-session 401, with at most two of the first kind and one of the second, in any order |
| `WorkloadRequests.EndsAtTheFirstFinalReply` | src/kbs.rs:475-513 | All replies but the last are retried, the last is not, and it alone decides the outcome |
| `WorkloadRequests.AtMostFourRequests` | src/kbs.rs:466-513 | For every sequence of answers at most four requests are sent |
| `WorkloadRequests.OutcomeIsTrue` | src/kbs.rs:489-494 | Applied means the resource holds what was asked, NotFound means it is absent, whatever earlier attempts did unseen; a refusal changes nothing if failed attempts change nothing |
| `WorkloadRequests.RollIsRiddenOutIff` | src/kbs.rs:469-473 | A server roll that answers 503s and stale 401s in any order before the store answers is ridden out if and only if each kind is within its own budget |
| `SeedStoreClients.SeedStoreClient.FetchKbsResource` | src/kbs.rs:131-249 | The in-place fetch equals its function: cached entry, or a GET whose answer or error is cached |
| `SeedStoreClients.SeedStoreClient.LoadOwnerSeedMaterial` | src/handlers.rs:918-971 | As above for the pair; absence only from a 404 or from a 500 that the direct probe resolves to 404 |
| `SeedStoreClients.SeedStoreClient.Send` | src/kbs.rs:461-514 | The store after the exchange and its outcome |
| `SeedStoreClients.SeedStoreClient.PutKbsWorkloadResource` | src/kbs.rs:541-577 | As above; evicts only after a success, and a 404 is an error |
| `SeedStoreClients.SeedStoreClient.DeleteKbsWorkloadResource` | src/kbs.rs:588-617 | As above; evicts when erased and when already absent |
| `SeedStoreClients.SeedStoreClient.ApplyKbsOwnerSeedUpdate` | src/handlers.rs:1042-1067 | As above; create or replace follows the pair that was read, and a removal of nothing sends nothing |
| `SeedStoreClients.SeedStoreClient.RestoreKbsOwnerSeedResource` | src/handlers.rs:1069-1088 | As above; restoring is a replacement, or a deletion |
| `SeedStoreClients.SeedStoreClient.UpdateOwnerSeedMaterial` | src/handlers.rs:1090-1142 | The two-resource update with rollback equals its function |
| `SeedStoreClients.SeedStoreClient.Teardown` | src/handlers.rs:3477-3535 | Both deletions are tried; no errors exactly when both report success |
| `SeedStoreClients.StoreAndErase` | src/handlers.rs:1090-1142 | A new client: a stored update leaves the one-step pair update, and a teardown without errors leaves nothing |
| `SeedUpdates.UpdateIsPairUpdate` | src/handlers.rs:1100-1136 | For all nine pairs of updates and all upstream behaviours: Ok from a coherent cache means the store equals the one-step pair update of the single-Secret backend, with a coherent cache |
| `SeedUpdates.FailureChangesNothing` | src/handlers.rs:1100-1136 | Err without rollback_failed means the pair is as before, given failed requests that change nothing |
| `SeedUpdates.RollbackFailsOnlyAfterRemoval` | src/handlers.rs:1113-1134 | If the store answers the rollback, rollback_failed follows only the removal of a present encrypted resource |
| `SeedUpdates.RemovalIsNotAtomic` | src/handlers.rs:1069-1088 | The run that shows it: a removal, a refused sealed half, and a replacement refused because nothing is there |
| `SeedUpdates.AtomicIff` | src/handlers.rs:1042-1142 | The update is all-or-nothing for every such upstream if and only if it is not a removal of a present encrypted resource together with a change of the sealed one |
| `SeedUpdates.CompleteTeardownErases` | src/handlers.rs:3488-3508 | teardown_complete implies both resources absent upstream and uncached, from any store and any cache |
| `SeedUpdates.RepeatedTeardown` | src/handlers.rs:3488-3508 | A repeated teardown brings nothing back and is complete again when the store answers |
| `SeedConservationProofs.RefreshKeeps` | src/handlers.rs:973-1009 | A refresh, forced or not, keeps the reign of the claimed seed |
| `SeedConservationProofs.RevalidateKeeps` | src/handlers.rs:1030-1040 | So does loading with revalidation, and an envelope it returns holds that seed |
| `SeedConservationProofs.ClaimKeeps` | src/handlers.rs:2826-2846 | A claim on an owned instance writes nothing, for the forced refresh sees the envelope |
| `SeedConservationProofs.ChangePasswordKeeps` | src/handlers.rs:2961-3048 | Changing the password keeps the seed, also when the write fails or fails after taking effect |
| `SeedConservationProofs.DisableKeeps` | src/handlers.rs:3228-3285 | Disabling auto-unlock keeps the seed |
| `SeedConservationProofs.UnlockKeeps` | src/handlers.rs:2216-2376 | Unlocking keeps the seed; a blank volume is formatted with it |
| `SeedConservationProofs.VerifierRefusesForeignSeeds` | src/handlers.rs:2420-2480 | A recovery is verified only for a seed that the shared init request admits; verifying leaves the store alone and the volume unchanged or formatted with that seed |
| `SeedConservationProofs.RecoverKeeps` | src/handlers.rs:3065-3187 | Recovery keeps the stored seed within those that init admits |
| `SeedConservationProofs.ClaimWritesOnlyOnAbsence` | src/handlers.rs:2826-2911 | From any cache, a claim that changes the store found both resources absent and left exactly its own envelope, with the volume formatted if and only if the blank volume got the delivered request of a stored claim |
| `SeedConservationProofs.FormatsItsVolumeIff` | src/handlers.rs:2343-2413 | After a claim that wrote, the volume is the claimed seed's if and only if it was before, or it was blank, the update was reported stored, init was not ready and the request was delivered |
| `SeedConservationProofs.SeedIsConserved` | src/handlers.rs:2826-3285 | After such a claim, over every run of handlers and restarts without a teardown and every upstream behaviour: the stored envelope and every cached one hold the claimed seed and there is no other |
| `SeedConservationProofs.SeedIsConservedIff` | src/handlers.rs:2826-3285 | Conservation holds for all runs after a claim if and only if the volume was the claimed seed's or the claim formatted it |
| `SeedConservationProofs.OtherSeedTakesOver` | src/handlers.rs:3065-3187 | Otherwise a restart and a recovery with another seed that init admits replace the envelope |
| `SeedConservationProofs.UndeliveredClaim` | src/handlers.rs:2362-2376 | A claim whose request to init is lost stores its envelope, ends in Error and leaves a blank volume blank |
| `SeedConservationProofs.BlankVolumeRun` | src/handlers.rs:2826-3187 | The run on a blank volume that loses the seed: an undelivered claim, a restart, a recovery with any other seed |
| `SeedConservationProofs.ClaimTakesEffect` | src/handlers.rs:2826-2959 | When store and init answer, a claim on a vacant unclaimed instance stores its envelope; it ends Unlocked with the volume its own, or in Error with a foreign volume untouched |
| `SeedConservationProofs.PasswordChangeTakesEffect` | src/handlers.rs:2961-3063 | When the store answers, the new password opens the same seed and the old one opens nothing; a wrong old password changes nothing |
| `SeedConservationProofs.RecoveryTakesEffect` | src/handlers.rs:3065-3218 | When store and init answer, a recovery with the volume's seed stores it under the new password and unlocks |
| `SeedConservationProofs.TeardownEndsTheReign` | src/handlers.rs:3477-3535 | After a complete teardown nothing is left to read, so a new claim may start |
| `InterleavedClaims.VacantUntilWritten` | src/handlers.rs:2826-3285 | Over a run without a teardown a vacant store stays vacant or, once written, is never empty again |
| `InterleavedClaims.ClaimCreatesIffNothingWritten` | src/handlers.rs:1042-1067 | With other handlers between a claim's refresh and its load: a replacement means that something was written in between, a creation that comes too late is refused, and with a coherent cache the write is a creation if and only if nothing was written |
| `InterleavedClaims.LaterClaimReplaces` | src/handlers.rs:2826-2911 | Two claims that both passed their refresh: the later update replaces the envelope of the one that succeeded |
| `InterleavedConservation.AnyStep` | src/handlers.rs:918-1142 | One read, request, eviction or init request of any handler keeps every envelope in store, cache and hands within the admitted seeds, and leaves no stale absence behind |
| `InterleavedConservation.RunIsSafe` | src/handlers.rs:2826-3285 | That holds over every interleaving, with drops and restarts, from any world whose handlers are harmless |
| `InterleavedConservation.SeedIsConservedInterleaved` | src/handlers.rs:2826-3285 | After a claim that anchored its volume, every interleaving of the loads and writes of change-password, recover, disable, unlock and later claims keeps the claimed seed in the stored envelope |
| `InterleavedConservation.LateClaimOverwrites` | src/handlers.rs:2897-2911 | The excluded case: a claim that had decided before the other one stored replaces the envelope within four steps |
| `Calendar.NextDayAddsOne` | src/handlers.rs:1355-1364 | For every valid date of the proleptic calendar the next day converts to one more |
| `Calendar.DaysFromCivilMonotone` | src/handlers.rs:1355-1364 | Earlier dates convert to smaller day counts, so no two dates share one |
| `Calendar.CivilOfYmdOfDays` | src/ownership.rs:1103-1115 | days_to_ymd yields a valid date that days_from_civil takes back to the same day, for every day from the epoch on |
| `Calendar.YmdOfDaysFromCivil` | src/ownership.rs:1103-1115 | days_to_ymd undoes days_from_civil for every valid date from 1970 on |
| `Decimals.AsciiDigits` | src/handlers.rs:1409-1418 | The digit loop with its overflow checks returns the value if and only if all bytes are digits and it fits 32 bits |
| `Timestamps.FieldsOf` | src/handlers.rs:1337-1407 | An accepted string has a valid date and time, and the parsed second is theirs |
| `Timestamps.ByteOrderIsTimeOrder` | src/handlers.rs:1337-1407 | For all accepted strings, byte order is order in time |
| `Timestamps.PrintedParsesBack` | src/ownership.rs:1083-1101 | The date-time printed before the fraction, closed with Z, parses back to the same second before year 10000 and is rejected from then on |
| `ProofRates.ProofRate.Allow` | src/handlers.rs:61-81 | A request is admitted if and only if fewer than the global and fewer than the per-source limit were admitted within the window, over the whole unpruned history; the global queue counts what all source queues hold, and at most one more source than the global limit is kept |
| `ProofRates.ProofRate.constructor` | src/handlers.rs:55-59 | A new limiter stands for an empty history at its start time |
| `ProofRates.Serve` | src/handlers.rs:61-81 | A new limiter asked once per request of any run answers each exactly as the admissions before it demand |
| `ProofRates.PruningRepresents` | src/handlers.rs:62-70 | Pruning all queues and opening the caller's keeps them the exact split of the recent history |
| `ProofRates.AdmissionRepresents` | src/handlers.rs:71-80 | Pushing to both queues keeps them the exact split of the recent history |
| `ProofRates.QueuesAddUp` | src/handlers.rs:55-81 | The source queues together hold as many entries as the history they split |
| `Challenges.ChallengeQueue.constructor` | src/handlers.rs:261-300 | A new queue is empty |
| `Challenges.ChallengeQueue.Prune` | src/handlers.rs:261-268 | The popping loop equals front pruning |
| `Challenges.ChallengeQueue.Record` | src/handlers.rs:270-283 | Prunes, makes room at 32 and appends, for every queue and every expiry |
| `Challenges.ChallengeQueue.Consume` | src/handlers.rs:285-300 | Prunes, finds the first entry with the id and removes it, for every queue |
| `Challenges.BookFollowsQueue` | src/handlers.rs:261-300 | The recorded history has the program's queue at every step |
| `Challenges.RunKept` | src/handlers.rs:261-300 | At every point of every run, for expiries in any order: the queue holds issued challenges in order of issue, none of them consumed or pushed out, and every live one that is neither |
| `Challenges.AcceptedIff` | src/handlers.rs:285-300 | For every run and every order of expiries: accepted if and only if issued, neither consumed nor pushed out, and unexpired or still queued behind an unexpired one |
| `ChallengeHistory.QueuedIffProtected` | src/handlers.rs:261-300 | After every run a challenge that is neither consumed nor pushed out is still queued if and only if at every event since its issue it or an older such challenge was live |
| `ChallengeHistory.AcceptedIffProtected` | src/handlers.rs:285-300 | For every run and every order of expiries, over the history alone: accepted if and only if issued, neither consumed nor pushed out, and at every event since, this one included, it or an older challenge neither consumed nor pushed out was live |
| `Challenges.AcceptedIffLive` | src/handlers.rs:285-300 | With expiries in order: accepted if and only if issued, unexpired, and neither consumed nor pushed out |
| `Challenges.ConsumedOnce` | src/handlers.rs:285-300 | Whatever happens in between, a consumed challenge is never accepted again, and at most 32 are held |
| `Challenges.PushedOutIff` | src/handlers.rs:270-283 | For every run and every order of expiries: issuing pushes out the front exactly when 32 entries remain after pruning; that one is live, and fewer than 32 are live if and only if one of the 32 has expired |
| `Challenges.PushedOutIffFull` | src/handlers.rs:270-283 | With expiries in order a challenge is pushed out if and only if 32 are live |
| `Challenges.HeldAndPushedOut` | src/handlers.rs:270-283 | After every run at most 32 are held, and whatever was pushed out has 32 newer ones |
| `Challenges.OutOfOrderExpiryWitness` | src/handlers.rs:261-300 | Two records out of order after which an expired challenge is accepted |
| `Challenges.OnlyLivePushedOutWitness` | src/handlers.rs:270-283 | A run that pushes out the only live challenge while 31 expired ones stay |
| `Challenges.ConsumeTwice` | src/handlers.rs:261-300 | A client that records a challenge and consumes it twice succeeds once, if it is in time |
| `CeV1.CeV1Bytes` | src/receipts.rs:376-391 | The loop writes the concatenation of the length-prefixed records |
| `CeV1.Take` | src/proof.rs:387-392 | Takes exactly the asked bytes and moves the cursor, or fails at the end of the buffer |
| `CeV1.ReadRecord` | src/proof.rs:377-385 | The cursor-based reader equals the record parser, UTF-8 check included |
| `CeV1.ParseOfEncode` | src/proof.rs:377-385 | An encoded record at the cursor parses back, and the cursor lands behind it |
| `CeV1.EncodeOfParse` | src/proof.rs:377-385 | What parses as a record is that record's encoding |
| `CeV1.EncodeRecordPrefixFree` | src/receipts.rs:376-391 | No record encoding is a prefix of another record's |
| `CeV1.EncodeInjective` | src/receipts.rs:376-391 | Two record lists with the same bytes are equal |
| `CeV1.ParseAllOfEncode` | src/proof.rs:377-392 | Parsing the encoding of a list yields the list |
| `ProofBundle.ValidateStaticMaterial` | src/proof.rs:52-69 | The validation loop equals the recursive check over the five fields |
| `ProofBundle.ValidatedIffStaticMaterial` | src/proof.rs:21-69 | A buffer is accepted if and only if it is the encoding of the five labelled fields within their limits, and then of one record list only |
| `ProofBundle.BuildBundle` | src/proof.rs:95-121 | All error cases in order, and on success the header encoding followed by the static material |
| `ProofBundle.SizeCheckNeverFires` | src/proof.rs:95-121 | With all parts within their limits the final size check cannot fire for an origin of up to 175867 bytes |
| `ProofBundle.BundleIsUniqueEncoding` | src/proof.rs:95-121 | A bundle is the encoding of its nine headers and five static records, and of no other list |
| `ProofBundle.BundleDeterminesInput` | src/proof.rs:95-121 | Equal bundles were built from equal inputs |
| `Hex.HexLower` | src/receipts.rs:397-405 | The printing loop yields two lower-case digits per byte |
| `Hex.DecodeSha256Hex` | src/receipts.rs:352-374 | The decoding loop succeeds if and only if there are 64 hexadecimal digits, and yields their value |
| `Hex.DecodedOfPrinted` | src/receipts.rs:352-405 | Decoding what was printed returns the bytes |
| `Hex.PrintedOfDecoded` | src/receipts.rs:352-405 | A text can be decoded if and only if it is an even number of hexadecimal digits of either case; printing what was decoded returns the text in lower case |
| `Receipts.AcceptedIff` | src/receipts.rs:156-219 | A request is accepted if and only if it carries the fields its type signs, each valid; the payload is the request's own values, trimmed, hashes in lower case and modes by their short names |
| `Receipts.PushedRecords` | src/receipts.rs:220-262 | The records pushed one by one are the record list of the payload |
| `Receipts.SignedBytes` | src/receipts.rs:156-262 | The signed bytes, or the first validation error |
| `Receipts.CanonicalBytesDetermineReceipt` | src/receipts.rs:156-374 | Two accepted requests with equal signed bytes agree in purpose, resource path, value hash, modes, quote hash and timestamp, and in the app id; for unlock transitions in its 16 UUID bytes |
| `SnpReport.LayoutIsLaid` | src/proof.rs:123-166 | For every report version the fields are in order, disjoint and within the 1184 bytes |
| `SnpReport.PutArray` | src/proof.rs:418-439 | Writes the array at its offset and nothing else, or fails if and only if it is not an array of that many bytes |
| `SnpReport.PutNumber` | src/proof.rs:407-416 | The byte-wise loop writes the little-endian number at its offset and nothing else |
| `SnpReport.PutLe` | src/proof.rs:407-416 | put_u32 and put_u64 with their lookups; fails if and only if the number is missing or too large |
| `SnpReport.TurinTcb` | src/proof.rs:441-461 | The eight bytes of the Turin layout, or failure if and only if a component is missing or no byte |
| `SnpReport.OlderTcb` | src/proof.rs:441-461 | The eight bytes of the older layout, a missing snp counting as 0 |
| `SnpReport.TcbNumber` | src/proof.rs:441-461 | The number built from eight named bytes has them as its little-endian bytes, in both layouts; fails if and only if a component is missing or no byte |
| `SnpReport.PutVersion` | src/proof.rs:463-469 | Three bytes in their order, or failure if and only if one is missing or no byte |
| `SnpReport.PutField` | src/proof.rs:123-166 | One write of the report, whatever its kind |
| `SnpReport.WriteFields` | src/proof.rs:123-166 | All fields in order into a zeroed buffer, failing if and only if one is missing or malformed |
| `SnpReport.RawSnpReport` | src/proof.rs:123-166 | The report, or InvalidReport if and only if the evidence lacks a field or has a malformed one |
| `SnpReport.ReportReadsBack` | src/proof.rs:123-166 | Every field reads back from its offset as the evidence gave it, and every other byte is zero |
| `SnpReport.NumberReadsBack` | src/proof.rs:123-166 | Every number of the evidence is the little-endian number at its offset |
| `SnpReport.LeInverse` | src/proof.rs:407-416 | Little-endian numbers read back |
| `SnpReport.VcekQueryNamesEvidence` | src/proof.rs:215-234 | The endorsement query computed from the raw report names the chip id and reported TCB of the JSON evidence, in both layouts |

## Left out

- InterleavedConservation.SeedIsConservedInterleaved: starts when no other claim has passed its look yet; what such a claim does is `InterleavedConservation.LateClaimOverwrites` and `InterleavedClaims.ClaimCreatesIffNothingWritten`.
- Startup.InitializeOwnershipState: timers fire exactly on time and code between awaits takes no time.
- Receipts.AcceptedIff: texts are characters, of which only ASCII ones pass; byte lengths of non-ASCII texts are not modelled, because such texts are rejected by the same checks.
- UnlockProtocol.ReservationIsReleased: counts steps of the owner, not time; each await is assumed to come back once it is scheduled.
- `SeedConservation` models the KBS backend only; the filesystem and Kubernetes backends appear only as the one-step pair update (src/escrow.rs:263-297).
- The seed-store client keeps its own view of the cache (body, 404 or other error per resource); lifetimes and clock readings of entries are in `ResourceCache` and `CacheCoherence`.
- HTTP routing, response bodies, header parsing, JWT checks, the ownership gate and the configuration store: easy members or format glue.
- Key derivation, signatures, hashes, mnemonics, hand-off files and zeroisation: library calls.
- Building REPORT_DATA, TLS certificate matching, AMD endorsement download and its cache, log encryption, ACME marker parsing.
- The token cache of the attestation agent beyond counting its invalidations.
