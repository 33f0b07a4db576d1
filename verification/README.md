# Verification of the training coordinator and its neighbours

The repository runs volunteer training: a **coordinator** leases jobs to signed-in workers, a **contract client**
keeps the epoch lifecycle and its challenges, an **attestation** encoder talks to a chain, and a **pool coordinator**
polls it. This project models the parts of that code whose guarantees are about every run, and proves them.

| files | what they model |
|---|---|
| `Base.dfy`, `Sums.dfy` | machine integers, saturating arithmetic, "first minimum" selection, sums over maps |
| `LeaseSpec.dfy`, `LeaseBook.dfy` | the lease state machine: each operation as a function of the state, and the class that updates its maps in place with the source's loops, proved equal to it |
| `LeaseRuns.dfy`, `LeaseInvariants.dfy`, `LeaseTheorems.dfy` | runs of requests by any adversary; the inductive invariant; what polls grant and how long leases last |
| `LeaseLives.dfy` | lives of a coordinator: requests and restarts in any order, and what holds throughout them |
| `JobHistory.dfy`, `WorkerHistory.dfy`, `GroupHistory.dfy`, `PollHistory.dfy` | what jobs, worker records and source groups remember and what polls, heartbeats, results and registrations are answered, told from the requests alone, over lives |
| `BoundedWaiting.dfy`, `NoShowHistory.dfy`, `RunExamples.dfy` | bounded waiting against squatters and no-show history, over lives; concrete lives that meet their conditions |
| `Persistence.dfy`, `Histories.dfy`, `Coordinator.dfy` | saves that may fail, crashes, boots; every history of them against lives; `mutate` and `open_with` over the file |
| `Renewals.dfy`, `BootExamples.dfy` | how long a lease lasts over histories; reachable states in which a boot breaks what it may |
| `Registrations.dfy`, `RegisterInner.dfy`, `RegistrationBudget.dfy` | single use of signed registrations, the order of `register_inner`'s checks, the newcomer budget |
| `AdmissionSpec.dfy`, `AdmissionGate.dfy`, `AdmissionRate.dfy` | per-key admission with a forgetful index, its rate, quota and hints |
| `AdmissionReplay.dfy` | single use of signed timestamps, bounded memory, and what the hints of a refusal promise |
| `AdmissionEdge.dfy`, `AdmissionIdeal.dfy` | how late requests may be dated for the rate to hold; the gate beside a bucket that never forgets |
| `ContractSpec.dfy`, `ContractChain.dfy`, `ContractLifecycle.dfy`, `ContractMoney.dfy`, `ContractOvercharge.dfy` | the in-memory `ComputePoolTraining` contract: lifecycle, challenges, bonds and slashes |
| `ContractRecord.dfy`, `ContractChallenges.dfy` | each call accepted or refused by the record of accepted calls alone; challenges against the tree that was committed |
| `Merkle.dfy` | domain-separated Merkle verification |
| `Base64.dfy`, `Base64Theorems.dfy`, `Base64Faults.dfy`, `Claims.dfy` | the base64url codec, what its refusals name, and the measurement-claim scanner |
| `Abi.dfy`, `AbiTheorems.dfy` | Solidity ABI encoders and the checked decoders |
| `Polling.dfy` | the event dedup set and the overlapping block windows |

The recurring shape: a value-level function says what an operation does to the whole state; the class method that
changes fields step by step is proved to compute exactly that; invariants and theorems over sequences of calls are
proved about the functions and so hold of the methods. Time, block numbers, signatures that verified, and whether a
save succeeds are arguments, chosen by the adversary.

## How the source is read

- Addresses, job ids, hashes of transactions and source groups are numbers in key order. A source string is a pair:
  `site` (an IPv4 address or an IPv6 /48) and `subnet`; its group is the site.
- A job payload is `NotLora`, `Malformed` or `Round(id, roster)`, the three answers of `lora_round_of`.
- Seconds and nanoseconds are 64-bit and saturate where the code saturates. Block numbers, stakes and rewards of the
  contract are unbounded numbers: the model takes it that blocks stay within 64 bits and stakes times 1000 within 128.
- Hashes are free constructors: leaf and node hashes are injective with disjoint ranges.
- A save either replaces the file or fails, leaving the old file or the new one.
- A request under the state lock is one step. A catalogue job is added only if its id is unknown, as the loading loop
  in `training-coordinator/src/main.rs:79-83` makes sure.

- A *run* is a sequence of requests between restarts; a *life* also restarts, keeping what memory had; a *history* is
  of the whole system, where a save may fail and a crash may come at any point. A history in which no crash comes
  between a change and its save is a life (`HistoryIsALife`); a change that never reached the file is lost by a crash,
  as it is in the source.

## Where the code and its comments differ

- `training-coordinator/src/api.rs:283-284` says a refused registration never causes a save. It does if and only if
  an unknown, unreplayed key that its source and the budget admit meets a full registry with nobody to evict
  (`RefusalSavesExactlyWhen`, `RefusalCanCauseASave`); no record changes even then (`RefusalChangesNoRecord`).
- `register_inner` tests a body's freshness before it takes the lock. A body accepted before is accepted again only by
  an attempt that has gone stale while waiting for the lock (`RepeatsOnlyWhenStaleAtTheLock`; over every history of
  the system, `SucceedsOnceOnEveryHistory`), and every body that does can be (`StaleAtTheLockIsAcceptedTwice`).
- A forgotten admission bucket starts over full. The promised rate still holds, if and only if a key dates its
  requests at most 100 s and 1 ns behind the clock (`RateHoldsExactlyUpToTheEdge`); at 100 s and 2 ns a run gets 22
  admissions where the rate gives 21 (`BeyondTheEdge`).
- Even dated promptly, the gate can admit what a bucket of ten that never forgets would refuse
  (`ForgettingCanAdmitMore`). It never admits what one of eleven would: eleven is exactly where the simulation starts
  (`SimulatedExactlyFromEleven`).
- A comment at `training-coordinator/src/state.rs:540-541` says leases are also expired on a timer. The code has no
  such timer: on live state only a poll expires them. Runs here allow a pass at any instant as well (`ExpireStep`), so
  what is proved holds with and without one; no example uses it.
- A boot gives every lease on file a fresh window, lapsed ones included. It can so revive the lease of a worker that
  has been forgotten since (`BootCanReviveAStranger`) and fill a source group past its cap (`BootCanOverfillAGroup`),
  both from states reached from an empty coordinator; `BootKeepsHoldersRegistered` and `BootKeepsGroupsCapped` say exactly when. The rest of the
  invariant survives every boot (`CoreOnEveryHistory`).
- The quota's retry hint is short by an instant when the oldest timestamp leaves the window a whole number of seconds
  from now, and only then (`QuotaHintExactly`).
- `worker_total_slashed` can pass the stake when a liveness slash follows ten upheld challenges
  (`TotalCanPassTheStake`); exactly such a call does it (`TotalWithinStakeUnlessSlashedTooLate`).
- A comment in the pool coordinator's loop speaks of clearing half of the dedup set when it is full. The code evicts
  the oldest entry, and that is what is modelled.

## Model

| member | source | states |
|---|---|---|
| LeaseBooks.LeaseBook.Register | training-coordinator/src/state.rs:362-420 | known keys are refreshed; newcomers need room at their source and in the registry, and get back their old penalty; the whole new state and the granted capability are as specified |
| LeaseBooks.LeaseBook.MakeRoomForSource | training-coordinator/src/state.rs:426-451 | below the cap nothing changes; at it the longest unseen stale idle slot is forgotten, or the source is full |
| LeaseBooks.LeaseBook.MakeRoomInRegistry | training-coordinator/src/state.rs:388-400 | at the bound the least recently seen unvouched idle worker is forgotten, or the registry is full |
| LeaseBooks.LeaseBook.ForgetWorker | training-coordinator/src/state.rs:483-507 | the record goes and its no-show history is kept as a penalty, displacing the earliest-ending one from a full map |
| LeaseBooks.LeaseBook.ChargeSource | training-coordinator/src/state.rs:510-525 | one more no-show for a group and its cool-down, in a bounded map |
| LeaseBooks.LeaseBook.ExpireLeases | training-coordinator/src/state.rs:542-595 | one pass that returns every lapsed job to the pool with a hold, charges its holder if registered and its group if unvouched; the freed ids are the lapsed ones, in order |
| LeaseBooks.LeaseBook.Lease | training-coordinator/src/state.rs:603-615 | touch, expire, then assign |
| LeaseBooks.LeaseBook.Assign | training-coordinator/src/state.rs:617-720 | cool-down, caps and the search for the best eligible job, granting a lease of one window |
| LeaseBooks.LeaseBook.RevokeLease | training-coordinator/src/state.rs:735-740 | the job is pending again and the state dirty, its attempts, failures and hold untouched |
| LeaseBooks.LeaseBook.Renew | training-coordinator/src/state.rs:871-920 | who may heartbeat, the new expiry, and when the change is worth a save |
| LeaseBooks.LeaseBook.Submit | training-coordinator/src/state.rs:929-990 | who may submit, the finished job, and the holder's and group's counts reset |
| LeaseBooks.LeaseBook.GraceLiveLeases | training-coordinator/src/state.rs:748-771 | every lease still inside its deadline gets a fresh window and is never shortened |
| LeaseBooks.LeaseBook.RevokeOutOfPolicy | training-coordinator/src/state.rs:814-831 | exactly the leases the tier policy no longer allows are revoked, their ids returned in order |
| LeaseBooks.LeaseBook.TakeDirty | training-coordinator/src/state.rs:799-809 | the flag is taken and the expiries about to be written are stamped |
| LeaseBooks.LeaseBook.NoteRegistration | training-coordinator/src/state.rs:776-783 | stale entries are pruned, the body remembered, and whether it was new |
| LeaseInvariants.NoshowBackoffClosedForm | training-coordinator/src/state.rs:288-293 | the n-th no-show costs exactly min(3600 * 2^(n-1), 7 days) |
| LeaseInvariants.TierIsEnough | training-coordinator/src/state.rs:257-262 | whatever a worker claims, being granted a tier implies the policy allows it that tier |
| LeaseInvariants.ExpireKeeps | training-coordinator/src/state.rs:542-595 | expiring leases keeps the invariant |
| LeaseInvariants.AssignKeeps | training-coordinator/src/state.rs:617-720 | granting keeps one lease per worker, the group cap and one job per round |
| LeaseInvariants.SubmitKeeps | training-coordinator/src/state.rs:929-990 | submitting keeps the invariant |
| LeaseInvariants.RegisterKeeps | training-coordinator/src/state.rs:362-451 | registering, with its evictions, keeps the invariant and drops neither a vouched worker nor a live leaseholder |
| LeaseInvariants.ForgetKeeps | training-coordinator/src/state.rs:483-507 | forgetting an idle worker keeps the invariant and moves nothing else |
| LeaseInvariants.CapacityHoldsOnEveryRun | training-coordinator/src/state.rs:362-720 | on every run between restarts, from an empty coordinator or any state that satisfies it: one lease per worker, live holders registered, group cap, map bounds with disjoint workers and penalties, slot cap, tiers, one job per LoRA round, cool-downs within their back-off |
| LeaseTheorems.PollGrantsTheBest | training-coordinator/src/state.rs:655-717 | a poll grants the unique best eligible job, answers nothing available exactly when none is eligible, and refuses exactly when the worker may not lease |
| LeaseLives.LifeIsSound | training-coordinator/src/state.rs:362-990 | throughout every life, restarts included, all of the invariant but live holders' registration and the group cap holds |
| LeaseLives.NeverOfferedAgain | training-coordinator/src/state.rs:655-700 | a job a worker let lapse is never held by it again, through any requests and restarts |
| LeaseLives.VouchedNeverEvicted | training-coordinator/src/state.rs:384-451 | a vouched worker stays registered, through any requests and restarts |
| LeaseTheorems.GrantedLease | training-coordinator/src/state.rs:702-716 | a grant ends one window on, or at the job's own length |
| LeaseTheorems.OthersLeaveLiveLease | training-coordinator/src/state.rs:871-990 | no request by anyone else touches a live lease |
| LeaseTheorems.BeatExtends | training-coordinator/src/state.rs:895-919 | an accepted heartbeat moves the expiry to one window on or the deadline |
| LeaseTheorems.RenewalClosedForm | training-coordinator/src/state.rs:895-919 | after any accepted heartbeats, whatever others do, the expiry is exactly min(last + window, deadline) |
| LeaseTheorems.TwoMissesAreFine | training-worker/src/coordinator_protocol.rs:168-180 | a 240 s heartbeat with at most two misses in a row is always inside the 900 s window |
| LeaseTheorems.TwoMissesKeepTheLease | training-worker/src/coordinator_protocol.rs:168-180 | such a worker still holds its live lease at every request up to the deadline, whatever others ask |
| Renewals.RenewalOverHistories | training-coordinator/src/state.rs:748-771 | over every history, with crashes and boots, a lease whose holder keeps it ends exactly min(last heartbeat or boot + window, deadline) |
| BoundedWaiting.HeldSinceALapse | training-coordinator/src/state.rs:570-573 | in every life from an empty coordinator a held job was found lapsed by an earlier request, and is held for 900 s from exactly then |
| BoundedWaiting.ReservationEnds | training-coordinator/src/state.rs:841-865 | in every such life a reserved job was found lapsed by an earlier request less than `reservation_cap` of its lease length ago, seven days at most, 900 s for the lowest tier |
| BoundedWaiting.WaitStep | training-coordinator/src/state.rs:603-718 | one request by anybody, or a restart, leaves the awaited job squatted within the deadline, reserved beyond the vouched worker's next poll, or in good hands |
| BoundedWaiting.VouchedWorkerWaitsAtMost | training-coordinator/src/state.rs:542-865 | in every life a job an unvouched key leased at t0 is finished or with a vouched worker by t0 + lease_secs + P, if one polls at least every P < 900 s, idle, the job coming first among those it could be granted |
| RunExamples.AWaitThatEnds | training-coordinator/src/state.rs:542-865 | a concrete life meets every condition of the waiting theorem: squatted at 0, polled for at 60, over by 110 |
| NoShowHistory.ExpireCharges | training-coordinator/src/state.rs:575-578 | expiring charges exactly the registered holders of lapsed leases |
| NoShowHistory.RegisterRemembers | training-coordinator/src/state.rs:401-417 | registering, evictions included, loses no history unless a full penalty map displaces it |
| NoShowHistory.HistoryIsNeverLaundered | training-coordinator/src/state.rs:483-507 | at every point of every life the bounded workers and penalties agree with an unbounded ledger for every key never displaced |
| NoShowHistory.NothingLostUntilFull | training-coordinator/src/state.rs:491-506 | a history is displaced only when the penalty map holds its maximum |
| NoShowHistory.CooldownNeverDecreases | training-coordinator/src/state.rs:575-578 | over every life a worker's own cool-down only moves later |
| NoShowHistory.CoolingIsRefused | training-coordinator/src/state.rs:617-620 | a key cooling down is granted nothing, registered or not |
| NoShowHistory.BackoffHolds | training-coordinator/src/state.rs:288-293 | after its n-th consecutive charged no-show a key gets no lease for min(3600 * 2^(n-1), 7 days), through evictions, re-registrations and restarts |
| RunExamples.ANoShowThatCosts | training-coordinator/src/state.rs:575-620 | a concrete life meets every condition of the back-off theorem: register, lease, lapse, refused poll |
| GroupHistory.NetworkNeverOfferedAgain | training-coordinator/src/state.rs:570-592 | once a request finds a job lapsed with a registered unvouched worker of a group, no poll by an unvouched worker registered in that group is given the job, that request included, whatever keys are used and through restarts |
| GroupHistory.GroupsAreNeverLaundered | training-coordinator/src/state.rs:510-525 | at every point of every life every group not pushed out of the full map has the no-show count and cool-down an unbounded ledger of lapses and vouched deliveries gives it |
| GroupHistory.GroupIsRefusedForAnHour | training-coordinator/src/state.rs:633-639 | from the request that finds a lapse of a group's unvouched worker, every poll by any of its unvouched workers is refused for 3600 s, whatever key it uses, unless the group is pushed out meanwhile |
| GroupHistory.GroupBackoffHolds | training-coordinator/src/state.rs:510-525 | and with the charge that brings the group's count to n, for min(3600 * 2^(n-1), 7 days) until the next charge |
| GroupHistory.PushesOutTheLeast | training-coordinator/src/state.rs:510-520 | a charge pushes a group out only of a full map: none still cooling down while one is not, and of those alike the one dated first |
| GroupHistory.SeenAtItsLastCharge | training-coordinator/src/state.rs:521-525 | a group's record is dated at the last lapse found of its unvouched workers, through every life |
| GroupHistory.NothingPushedOutUntilFull | training-coordinator/src/state.rs:510-520 | no request pushes a group out while the map has room for all it charges |
| JobHistory.BooksAreHistory | training-coordinator/src/state.rs:570-592 | in every life from an empty coordinator a job's failed workers, failed groups, hold and attempts are exactly what the moves so far say: who was found to let it lapse, from which groups, when last, and how often it was granted |
| JobHistory.FinishedByItsHolder | training-coordinator/src/state.rs:965-970 | a finished job was finished by the worker it names, while it held it live, at the time it gives, with the result that worker submitted |
| JobHistory.FinishedForGood | training-coordinator/src/state.rs:929-990 | and stays finished with that result through anything |
| JobHistory.HolderIsAnsweredExactly | training-coordinator/src/state.rs:871-990 | in every life a heartbeat or a result is accepted exactly from the worker that holds the job live, with the expiry in closed form and the result stored; anyone else is told why and changes nothing, and no lease is found out of policy |
| JobHistory.OutOfPolicyIsRevoked | training-coordinator/src/state.rs:890-893 | in any state a heartbeat or a result of an unvouched holder above the open tier returns its job to the pool, to be saved, and changes nothing else |
| PollHistory.PollGivesExactly | training-coordinator/src/state.rs:603-720 | in every life a registered worker's poll is given a job if and only if what has happened lets it lease (own and group cool-downs, live leases), the job is open to it (tier, round, who and which groups let it lapse, kept for vouched workers exactly while one is engaged and could take it), and no other open job comes first |
| PollHistory.PollIsToldWhy | training-coordinator/src/state.rs:603-653 | a worker that may not lease is told exactly why: cooling down until when, itself or its group, or at a cap; one that may is told that nothing is available only when no job is open to it |
| WorkerHistory.RegistrationExactly | training-coordinator/src/state.rs:362-451 | a new key is refused exactly when its source is at the cap with no unvouched slot unseen for a day and without a live lease, or the registry is at its bound with nobody unvouched without one; else it joins, and of those exactly the one unseen longest is forgotten |
| WorkerHistory.ForgottenExactly | training-coordinator/src/state.rs:384-451 | in every life a worker is forgotten exactly when a new key's registration makes it the one to forget |
| WorkerHistory.RecordIsHistory | training-coordinator/src/state.rs:362-420 | in every life from an empty coordinator, claim, source, deliveries and the times last seen, engaged and registered are exactly what the requests since a worker joined have told, restarts going by the times on file |
| WorkerHistory.PenaltiesExactly | training-coordinator/src/state.rs:483-507 | a newcomer's penalty is its own again, a forgotten worker's is kept exactly if it has no-shows or is cooling down, and any other that goes was the earliest to end of a full map |
| Persistence.CleanRequestSettles | training-coordinator/src/state.rs:799-809 | a request that leaves a clean state clean changed nothing a restart needs, but for expiries trailing by less than a step |
| Persistence.TrailsByLessThanAStep | training-coordinator/src/state.rs:895-914 | the saved expiry trails memory by less than 300 s, and not at all once that is the deadline |
| Persistence.HeartbeatSavesExactlyWhen | training-coordinator/src/state.rs:900-911 | a heartbeat costs a save exactly when it takes the lease's end 300 s past the one on file, or to a deadline the file falls short of |
| Persistence.CleanMeansSaved | training-coordinator/src/api.rs:145-156 | over every history of requests, failed saves, crashes and boots, a clean state is on file |
| Persistence.FailedSaveStaysPending | training-coordinator/src/api.rs:148-153 | a failed save keeps the change pending until one succeeds, and then the file has it all |
| Persistence.BootGivesBack | training-coordinator/src/api.rs:112-135 | a boot hands a lease on file back to its holder with the same deadline and a full window or the deadline |
| Persistence.RestartNeverShortens | training-coordinator/src/api.rs:112-156 | a crash between any two requests, failed boots and a good one leave every lease held by the same worker with an expiry at least as late, and at least a fresh window or the deadline |
| Persistence.TightenedPolicyRequeues | training-coordinator/src/state.rs:814-831 | a lease the new policy forbids is back in the pool after the boot |
| Histories.CoreOnEveryHistory | training-coordinator/src/api.rs:112-156 | over every history of requests, failed saves, crashes and boots, memory and file keep all of the invariant but live holders' registration and the group cap |
| Histories.TopTierIsVouchedOnly | training-coordinator/src/state.rs:257-262 | on every history H-01 work is held and finished by vouched workers only, under any open tier |
| Histories.HistoryIsALife | training-coordinator/src/api.rs:112-156 | a history in which no crash comes between a change and its save is a life, so all that is proved of lives holds of it |
| Histories.RestartsLaunderNothing | training-coordinator/src/state.rs:483-507 | on every such history memory, or the file it will start from, agrees with the unbounded ledger for every key never displaced |
| Histories.BootKeepsHoldersRegistered | training-coordinator/src/state.rs:748-771 | a boot leaves every live holder registered if and only if no lapsed lease it revives is of a forgotten worker |
| Histories.BootKeepsGroupsCapped | training-coordinator/src/state.rs:748-771 | a boot keeps every group capped if and only if its live and revived leases are within the cap together |
| Histories.BootWithoutLapsesKeepsAll | training-coordinator/src/state.rs:748-771 | a boot that finds no lapsed lease inside its deadline keeps the whole invariant |
| BootExamples.StrandedIsReached | training-coordinator/src/state.rs:426-451 | four requests to an empty coordinator leave a lapsed, unnoticed lease of a worker that has been forgotten |
| BootExamples.BootCanReviveAStranger | training-coordinator/src/state.rs:748-771 | a boot from there leaves a live lease without a registered holder |
| BootExamples.CrowdedIsReached | training-coordinator/src/state.rs:362-451 | nine requests to an empty coordinator leave a worker with a lapsed, unnoticed lease registered anew in the group of another whose lease is live |
| BootExamples.BootCanOverfillAGroup | training-coordinator/src/state.rs:748-771 | a boot from there gives the group two live leases under a cap of one |
| Coordinators.Coordinator.Mutate | training-coordinator/src/api.rs:145-156 | run, take the flag, save, and put it back on failure: memory and file move as the system model says |
| Coordinators.Coordinator.Save | training-coordinator/src/store.rs:56-75 | the file is replaced, or the save fails with either version in place |
| Coordinators.OpenWith | training-coordinator/src/api.rs:112-135 | load, apply the policy, grace, save once: a running coordinator or none, with the file as the model says |
| Registrations.RepeatsOnlyWhenStaleAtTheLock | training-coordinator/src/state.rs:776-788 | on every run of registrations, failed saves and restarts a body is accepted again only by an attempt that is stale when it takes the lock, whatever the other attempts are |
| Registrations.AcceptedAtMostOnce | training-coordinator/src/state.rs:776-788 | a body whose own attempts are fresh when they take the lock is accepted at most once |
| Registrations.StaleAtTheLockIsAcceptedTwice | training-coordinator/src/api.rs:251-316 | every body fresh when checked and out of the window at the lock is accepted twice on some run |
| Registrations.DeskFollowsNote | training-coordinator/src/state.rs:776-783 | the registrations remembered in memory and on file move as the lease state's and the file's do, by an accepted registration |
| Registrations.DeskFollowsSave | training-coordinator/src/api.rs:145-156 | and by any other request, whether or not it saves |
| Registrations.DeskFollowsRestart | training-coordinator/src/api.rs:112-135 | and by a crash and a boot |
| Registrations.SucceedsOnceOnEveryHistory | training-coordinator/src/api.rs:251-317 | over every history of requests, failed saves, crashes and boots, a body answered with success is answered so again only by an attempt that is stale when it takes the lock |
| RegisterInners.RunRegisterInner | training-coordinator/src/api.rs:281-317 | the checks in order: replay, refresh interval, source, budget, registry, then remembered |
| RegisterInners.RefusalChangesNoRecord | training-coordinator/src/api.rs:281-317 | a refusal changes no record: it sets the flag at most |
| RegisterInners.RefusalSavesExactlyWhen | training-coordinator/src/api.rs:281-317 | it leaves a clean state dirty if and only if an unknown, unreplayed key, vouched or admitted by its source and the budget, meets a registry with no room and nobody to evict |
| RegisterInners.RefusalCanCauseASave | training-coordinator/src/api.rs:281-317 | from an empty coordinator 4096 vouched keys register and are saved one by one, and the next newcomer is refused and leaves the clean state dirty |
| RegisterInners.BudgetDrawnOnlyByAdmissibleNewcomers | training-coordinator/src/api.rs:302-312 | the budget is drawn on exactly by unknown, unvouched, unreplayed keys whose source has room |
| RegisterInners.AcceptedIsKnown | training-coordinator/src/api.rs:313-316 | an accepted key is registered, dated now, remembered against replay, with its effective capability |
| WorkerHistory.KnownKeyIsAnswered | training-coordinator/src/api.rs:285-301 | a registered key's registration is a replay, or accepted, or too soon with exactly the time left of the interval since its last; a refusal changes nothing |
| WorkerHistory.RefreshIsPaced | training-coordinator/src/api.rs:288-301 | after an accepted registration, on any run until a restart, every further one of the key within the interval is a replay or too soon with exactly the time left since its last |
| RegistrationBudgets.RegistrationBudget.TryTake | training-coordinator/src/api.rs:58-75 | refill by whole intervals from the first request on, then take one token if there is one |
| RegistrationBudgets.GrantsAtMost | training-coordinator/src/api.rs:33-75 | at most 30 + floor((L + 59) / 60) grants in any interval of length L |
| RegistrationBudgets.RefusesOnlyAfterABurst | training-coordinator/src/api.rs:33-75 | a refusal means at least 30 grants in the last 1859 s |
| AdmissionGates.AdmissionGate.Prune | training-coordinator/src/admission.rs:104-118 | popping the index oldest first removes exactly the timestamps that left the window |
| AdmissionGates.AdmissionGate.Admit | training-coordinator/src/admission.rs:66-100 | prune, replay, refill, rate, quota, in order, with the new records and index |
| AdmissionSpec.PruneIsExact | training-coordinator/src/admission.rs:104-118 | pruning keeps the index equal to the union of the per-key sets and keeps a timestamp exactly if it is inside the window |
| AdmissionSpec.AdmitKeepsSound | training-coordinator/src/admission.rs:66-118 | every request keeps the index exact, no tracked key empty, every bucket within its burst |
| AdmissionRate.AdmittedAtMost | training-coordinator/src/admission.rs:22-100 | a key dated at most 100 s and 1 ns behind is admitted at most 10 + floor((L + R - 1) / R) times in any interval of length L, R = 2 s |
| AdmissionEdge.RateHoldsExactlyUpToTheEdge | training-coordinator/src/admission.rs:66-118 | for every lag: the rate holds on all runs dated at most that far behind if and only if the lag is at most 100 s and 1 ns |
| AdmissionEdge.BeyondTheEdge | training-coordinator/src/admission.rs:66-118 | a run of 23 requests dated at most 100 s and 2 ns behind that is admitted once more than the rate allows |
| AdmissionIdeal.SimulatedExactlyFromEleven | training-coordinator/src/admission.rs:66-118 | for every burst: on all runs of punctual keys the gate admits only what a bucket of that burst that never forgets has a token for, if and only if the burst is at least eleven |
| AdmissionIdeal.ForgettingCanAdmitMore | training-coordinator/src/admission.rs:66-118 | thirteen requests, none dated behind, the last admitted by the gate and refused by any such bucket of ten or less |
| AdmissionRate.QuotaIsNeverReached | training-coordinator/src/admission.rs:27-31 | dated at most 30 s ahead, a key has at most 85 timestamps remembered, so the quota of 160 never refuses |
| AdmissionRate.HintIsHonest | training-coordinator/src/admission.rs:83-88 | a key that next asks after the hinted delay is not refused as too fast, whatever other keys did meanwhile |
| AdmissionReplay.ReplayExactly | training-coordinator/src/admission.rs:66-75 | on every run a request is a replay if and only if an earlier one of the same key and timestamp was admitted and the timestamp has not left the window |
| AdmissionReplay.AdmittedOnce | training-coordinator/src/admission.rs:66-75 | so no timestamp of a key is admitted twice while inside the window |
| AdmissionReplay.TooFastOnlyAfterABurst | training-coordinator/src/admission.rs:76-88 | on every run a key refused for speed was admitted at least ten times in the last 22 s |
| AdmissionReplay.HintIsLeast | training-coordinator/src/admission.rs:83-88 | a key refused for speed that next asks a second or more before the hinted instant, while anything it used is in the window, is again too fast or a replay; no hint is below a second |
| AdmissionReplay.MemoryIsBounded | training-coordinator/src/admission.rs:89-95 | whatever timestamps it signs, a key never has more than 160 remembered, is not admitted with 160 in the window, and is refused for the quota with 160 only |
| AdmissionReplay.QuotaHintExactly | training-coordinator/src/admission.rs:89-95 | at the instant the quota's hint names the oldest timestamp has left the window, except exactly when it leaves a whole number of seconds from now |
| ContractChains.MockChain.CreateJob | training-worker/src/chain.rs:344-366 | the next id, and a recruiting job under it |
| ContractChains.MockChain.AdvanceBlocks | training-worker/src/chain.rs:526-529 | blocks pass and nothing else changes |
| ContractChains.MockChain.SetCommitteeMember | training-worker/src/chain.rs:763-770 | membership is added or removed |
| ContractChains.MockChain.JoinTrainingJob | training-worker/src/chain.rs:424-450 | the checks in order, the member added, a refusal changing nothing |
| ContractChains.MockChain.CloseRecruitment | training-worker/src/chain.rs:452-476 | likewise, into training with a joined coordinator |
| ContractChains.MockChain.CommitEpoch | training-worker/src/chain.rs:478-524 | likewise, one root per epoch and awaiting after the last |
| ContractChains.MockChain.FinalizeJob | training-worker/src/chain.rs:531-547 | likewise, once the window is over |
| ContractChains.MockChain.ExpireStalledTraining | training-worker/src/chain.rs:549-572 | likewise, after the stall period |
| ContractChains.MockChain.ReassignCoordinator | training-worker/src/chain.rs:574-609 | likewise, slashing only for governance |
| ContractChains.MockChain.ChallengeStep | training-worker/src/chain.rs:611-679 | likewise, with a verified leaf and the exact bond |
| ContractChains.MockChain.VoteChallenge | training-worker/src/chain.rs:681-761 | likewise, deciding at two votes of a kind and paying or forfeiting |
| ContractChains.MockChain.WorkerTotalSlashed | training-worker/src/chain.rs:772-785 | challenge slashes and the liveness portion |
| ContractChains.SlashFor | training-worker/src/chain.rs:732-750 | the slash of an upheld challenge never takes challenge slashes past the stake |
| ContractLifecycle.EveryReachableJob | training-worker/src/chain.rs:424-761 | on every run: members distinct and within the maximum, coordinator a member, roots exactly the non-zero roots of the epochs committed, votes distinct voters and at most three, bonds held only while voting, challenge slashes within the stake |
| ContractLifecycle.EpochAlreadyCommittedUnreachable | training-worker/src/chain.rs:513-515 | that refusal is never given |
| ContractLifecycle.RunMovesForward | training-worker/src/chain.rs:424-609 | over any run no phase is undone, no root changed, no member lost, no slash taken back |
| ContractLifecycle.NotFinalizedBeforeTheWindowEnds | training-worker/src/chain.rs:531-547 | after the call that ends training no run finalizes before the window has passed |
| ContractLifecycle.AnyWorkerCanFinish | training-worker/src/chain.rs:549-572 | from every reachable training state any single member reaches finalized by waiting, expiring and finalizing |
| ContractLifecycle.ExpiresExactlyWhenStalled | training-worker/src/chain.rs:549-572 | expiry succeeds exactly for the requester or a member of a job in training and stalled |
| ContractRecord.RefusedExactlyByTheRecord | training-worker/src/chain.rs:424-761 | after every run of calls on an empty chain, a call is accepted if and only if the record of the calls accepted so far (who joined, what was committed by whom and when, who voted, what was slashed) has no objection, and else refused with exactly that objection |
| ContractChallenges.ChallengedIsALeaf | training-worker/src/chain.rs:655-657 | when the disputed epoch's root is that of a tree, an accepted challenge names one of the tree's leaves, with that leaf's sibling path |
| ContractChallenges.LeavesAreNotRefused | training-worker/src/chain.rs:655-657 | and no leaf with its sibling path is refused for its proof |
| ContractChallenges.OtherWordsAreRefused | training-worker/src/chain.rs:655-657 | while any other word, and a leaf with any other siblings, is never accepted |
| ContractMoney.MoneyIsConserved | training-worker/src/chain.rs:611-761 | on every run rewards + bonds held + bonds forfeited = bonds paid in + halves of the slashes |
| ContractMoney.DecidedExactlyOnce | training-worker/src/chain.rs:681-761 | over any run openings of a slot equal decisions of it, plus the one still open |
| ContractMoney.SecondOfAKindDecides | training-worker/src/chain.rs:710-724 | an open challenge has at most two votes and is decided by the second of a kind, which the third vote always is |
| ContractMoney.DecidedStays | training-worker/src/chain.rs:658-677 | a decided challenge is final until a new one takes its slot |
| ContractMoney.UpholdingPays | training-worker/src/chain.rs:726-754 | upholding pays the challenger alone its bond and half the slash, and charges the target alone at most a tenth of the stake |
| ContractMoney.RejectingPaysNobody | training-worker/src/chain.rs:755-759 | rejecting pays and charges nobody |
| ContractMoney.TotalWithinStakeUnlessSlashedTooLate | training-worker/src/chain.rs:574-609 | a reported total within the stake stays so through a call if and only if the call is not a first liveness slash after challenge slashes beyond stake less the liveness portion |
| ContractMoney.RunWithinStake | training-worker/src/chain.rs:772-785 | without such a call no run reports more than the stake |
| ContractOvercharge.TotalCanPassTheStake | training-worker/src/chain.rs:772-785 | a run from an empty chain that reports 1001 of a stake of 1000 |
| Merkle.VerifyMerkleProof | training-worker/src/chain.rs:812-843 | the loop accepts exactly when hashing the leaf up along the siblings gives the root |
| Merkle.SiblingsVerify | training-worker/src/chain.rs:812-843 | every leaf's sibling path verifies |
| Merkle.VerifiedIsALeaf | training-worker/src/chain.rs:812-843 | a proof that verifies is the sibling path of one of the tree's leaves |
| Merkle.ProvableIffLeaf | training-worker/src/chain.rs:793-843 | a word can be proved exactly when it is a leaf |
| Merkle.InternalNodeIsNotALeaf | training-worker/src/chain.rs:797-806 | no proof presents an internal node as a leaf |
| Base64.BuildTable | training-worker/src/attestation.rs:346-356 | the table gives every byte its sextet, -1 for foreign and -2 for padding |
| Base64.Base64StandardDecode | training-worker/src/attestation.rs:280-344 | the loop decodes quartet by quartet, with each error at its offset |
| Base64.Base64UrlDecode | training-worker/src/attestation.rs:266-278 | alphabet mapped, padding restored, length 1 mod 4 refused |
| Base64.Base64UrlEncode | training-worker/src/attestation.rs:581-612 | groups, padding, alphabet and trimming give the unpadded url-safe letters |
| Base64Theorems.UrlRoundTrip | training-worker/src/attestation.rs:266-344 | decoding the encoding of any byte string gives it back |
| Base64Theorems.AcceptsExactlyReadable | training-worker/src/attestation.rs:266-344 | accepted exactly: alphabet characters, a number not 1 mod 4, then no more padding than completes the last four; n characters give floor(6n / 8) bytes, never a truncation |
| Base64Theorems.ReencodesExactlyWithoutStrayBits | training-worker/src/attestation.rs:266-344 | re-encoding gives the text back letter for letter, the last too exactly when its unused bits are zero |
| Base64Faults.RefusalNamesTheFault | training-worker/src/attestation.rs:266-344 | a text is refused with an error if and only if that is its first fault: the length, or of the first wrong quartet the first foreign character, padding in front, padding before the final quartet, or data after padding, each at its offset |
| Claims.FindSubslice | training-worker/src/attestation.rs:208-215 | the first occurrence, or none exists |
| Claims.VmMeasurementClaimBytes | training-worker/src/attestation.rs:151-205 | the claim at the first occurrence of the production field, else of the fallback; refused exactly when neither starts one |
| Claims.FirstClaimUnique | training-worker/src/attestation.rs:151-205 | payload and field determine the claim bytes |
| Claims.ClaimIsSubstring | training-worker/src/attestation.rs:136-142 | the claim is a literal part of the payload and begins with the field name |
| Abi.U256Be | training-worker/src/attestation.rs:452-456 | the 32-byte big-endian word of any number of 128 bits |
| Abi.EncodeSubmitStrictBound | training-worker/src/attestation.rs:378-446 | appending field by field gives selector and arguments laid out in whole words: seven head words, then each tail at its offset, its length word, its data and fewer than 32 zeros to the next word |
| Abi.EncodeBytesCall | training-coordinator/src/fl_round.rs:131-142 | selector, offset word and one tail: length word, data and fewer than 32 zeros to the next word |
| Abi.DecodeAddressArray | pool-coordinator/src/http_chain.rs:783-819 | accepted exactly when the counted words fit buffer and machine word; then the last 20 bytes of each |
| AbiTheorems.DecodesExactlyTheEncoded | pool-coordinator/src/http_chain.rs:853-894 | the checked decoder answers a byte string exactly when offset, length and data are in place in the buffer, padding not examined |
| AbiTheorems.DecodersAgree | training-coordinator/src/fl_round.rs:145-171 | `decode_bytes_return` accepts and reads exactly as `decode_dynamic_bytes_at_offset` does |
| AbiTheorems.StrictBoundRoundTrip | training-worker/src/attestation.rs:378-446 | the coordinator's decoder recovers all three dynamic arguments at slots 0, 32 and 96, with the static words between |
| AbiTheorems.BytesCallRoundTrip | training-coordinator/src/fl_round.rs:131-171 | decoding an encoded call's arguments gives the bytes back |
| AbiTheorems.JobSpecRoundTrip | pool-coordinator/src/http_chain.rs:485-549 | the two-level decode recovers the input and any 256-bit token limit, zero read as the default and large values clamped |
| AbiTheorems.LegacyJobDefaults | pool-coordinator/src/http_chain.rs:510-514 | a job without a spec gets an empty prompt and the default limit |
| AbiTheorems.FetchesExactly | pool-coordinator/src/http_chain.rs:485-549 | an answer yields a prompt and a limit exactly if it has eight words and encodes at its third a spec that is empty, for the defaults, or of seven words or more and encodes the prompt at its fourth |
| AbiTheorems.RefusalNamesTheFault | pool-coordinator/src/http_chain.rs:853-894 | the checked decoder's error says which word is missing or too large, which end overflows, or that the data are short |
| AbiTheorems.AddressArrayRoundTrip | pool-coordinator/src/http_chain.rs:783-819 | an encoded address list decodes to itself |
| Polling.SeenEvents.Insert | pool-coordinator/src/main.rs:89-103 | a new key joins the queue and the oldest leave, set and queue staying equal |
| Polling.EventLoop.OnePoll | pool-coordinator/src/main.rs:272-342 | failures and stale heads change nothing; otherwise the window is scanned, new events dispatched in order, and the last block moves |
| Polling.EveryBlockScanned | pool-coordinator/src/main.rs:272-342 | over any mix of failures, every block after the start and up to the last has been scanned |
| Polling.RescannedWhileWithinBuffer | pool-coordinator/src/main.rs:283-286 | a passed block is scanned again by exactly the advancing ticks that start at most the buffer past it |
| Polling.DispatchedAgainOnlyAfterCap | pool-coordinator/src/main.rs:68-104 | the queue is always exactly the last dispatches that fit, and a key is dispatched again only after at least the capacity of others |
| Polling.ReportedIsDispatched | pool-coordinator/src/main.rs:291-341 | every event reported to an advancing tick has been dispatched when it ends |
| Polling.LoopIsItsAnswers | pool-coordinator/src/main.rs:272-342 | on every run the last block is the highest head whose events came too, and the events handed on are exactly those reported with such heads, in order, each but those among the last capacity of dispatches |
| Polling.ScansExactly | pool-coordinator/src/main.rs:272-289 | a tick scans exactly the blocks from the buffer before that head, never block 0, to a newer one whose events came |

## Left out

- HTTP routes, JSON, logging, metrics, environment parsing, real threads: input and output around the state.
- Signature recovery, keccak, AES, PBKDF2, RLP: recovered addresses are inputs and hashes are constructors, so a chance or forged hash collision is outside the model.
- Descriptive worker fields (backend, dtype, tokens per second, registered_at) and job results' bytes: they never influence a decision.
- `max_attempts` and quarantine by attempts: `Quarantined` is a status no modelled operation enters.
- Admission is consulted only for registered signers (`training-coordinator/src/api.rs:383-388`): the wrapper that skips it for unknown keys is not modelled.
- The file-system steps of `Store::save` (temporary file, rename, sync): taken as one replacement or a failure.
- Overflow of 64-bit block numbers and 128-bit stakes in the contract: unbounded numbers stand for them.
- LoRA round aggregation, bundle roots, delta and GGUF modules, candle backends: not modelled.
- `String::from_utf8_lossy` on the decoded prompt: the prompt is left as bytes.
- The Solidity contract itself and its other client: only the in-memory client is modelled.
- VouchedWorkerWaitsAtMost: stated for clocks where t0 + lease_secs + P fits 64 bits, because saturated time no longer advances.
- A change lost by a crash before its save: histories with such a crash keep the core of the invariant, and only lives are compared with the no-show ledger and the waiting bound.
- A policy that changes between boots is modelled for what a boot hands back (`TightenedPolicyRequeues`); lives and histories keep one policy.
- StrictBoundRoundTrip: stated for inputs whose calldata length fits 64 bits, as every buffer in memory does.
- OnePoll: handlers run in the background in the source; the model records that an event was handed to one, not what it did.
