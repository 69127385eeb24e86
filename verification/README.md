# Verification of herdr-farm's effect protocols

herdr-farm drives coding agents through external effects that can die halfway.
It relies on file locks, durable claims and compare-and-swap on an event head.
This project models those protocols in Dafny and proves what they keep over
every run: every interleaving of processes, every crash point, every input.

`dafny verify dfyconfig.toml` checks everything. Each module stands for one
component:

| file | component |
|---|---|
| `Common.dfy` | results, lock names and lock compatibility |
| `LockKernel.dfy` | `flock` on open file descriptions, descriptor copies, fork, exec, the spawn gate, supervisors, guards |
| `GuardThreads.dfy` | threads running the guard library over that kernel, one try-lock or release at a time, and what they wait for |
| `Ordering.dfy`, `GuardAcquisition.dfy` | one process taking and giving up guards: try-lock sequences, retry loops, failure paths |
| `CheckOwnership.dfy` | project ownership handed around an isolated check |
| `Delivery.dfy`, `VerificationJobs.dfy`, `VerifierLane.dfy` | the delivery row of an operation, the claim, narrow, check, widen, record protocol, and the lane that runs one job at a time |
| `CoordinatorJobs.dfy` | coordinator start and priming at most once, recovery, reopening |
| `ResourceClaims.dfy`, `Capacity.dfy` | clashing resource claims, optimistic reservation, adoption, capacity kept until termination is proven |
| `Admission.dfy` | the rule, its shadowed form and assignment by a policy |
| `Observations.dfy` | the bounded observation scheduler and the idle veto |
| `AttemptTokens.dfy` | the rotating window over attempts |
| `Artifacts.dfy`, `Cleanup.dfy` | snapshot scan and publication, worktree removal and restoring |
| `ConfigEdits.dfy`, `AgentHome.dfy` | the configuration merge of an execution home |
| `TerminalOwnership.dfy` | the root-wide scan for other users of a terminal |

Conventions. A SHA-256 digest is injective, so the digested value stands for it.
Time is a parameter or a clock that never goes back. SQLite transactions are
atomic steps; Git, the terminal manager, the executor and other processes are
steps or parameters that may do anything their stated contract allows. Protocols
with many processes are state machines with one step per atomic effect; code that
works on its own fields is a class, proved against functions of its old state.

## Where the code and a promise differ

- A verification job that is pending or given up has no run under its key.
  An operator can break this in two ways and in no other: by retiring the job while a
  run is stored, and by verifying by hand under the job's key while it is pending or
  given up. `VerificationJobs.HonestAlways` is the if-and-only-if over runs,
  `RetireIsHonestIff` and `OperatorIsHonestIff` give each command's condition,
  `RetiredOverItsRun` and `OperatorRecordsEarly` are runs in which it happens.
- A job's scratch directory is not removed under a running check as long as one
  delivery or observation of the job is in flight at a time
  (`VerificationJobs.LaneKeepsScratch`), which the result lane and the ticker's lock see
  to (`VerifierLane.Lane.Admit`). The protocol alone does not: with a second deliverer
  beside the first there are two exceptions. A verifier that returns late removes it
  although its claim is no longer the row's; this meets a running check exactly when
  another check holds the fence then (`ScratchIsNotPulledAway`,
  `LateReturnPullsScratchAway`). And a job retired while its fence is held can be reset
  and delivered again onto the running check (`RetirementPullsScratchAway`,
  `FenceHeldWhenRetired`).
- Retained attempts stay within the limit, and live workers do not collide, as long as
  nothing is adopted. Adoption compares neither the limit nor any claim.
  `Capacity.CapacityBound` counts adoptions, `WorkersDoNotCollide` holds between workers
  that were not adopted, as does `WorkersShareNoNamedResource`, and `AdoptedFirst`, `AdoptedAboveLimit` and `AdoptedCollides`
  are runs that show each failure.
- Cancelling an attempt frees its capacity exactly when its launch is neither claimed
  nor retired (`Capacity.CancelFreesIff`, `RetainedChange`). All else the cancellation
  checks holds anyway, because renaming, queueing, rebinding and adopting are refused
  while a task has a retained attempt. An attempt whose launch an operator retired
  before it was claimed can never be freed, nor can an adopted one
  (`StuckForGood`, `RetiredThenCancelled`).
- Shadowed admission equals the plain rule unless the rule finds an approved profile
  and a read fails that the rule would not have made, of a later profile or of the
  policies' inputs (`Admission.ShadowDeparts`, `ShadowDepartsHere`). A whole page differs
  exactly when that happens to the candidate the rule reserves (`PagesDifferIff`).
- Restoring a worktree works exactly when Git's registration and the disk agree
  (`Cleanup.RestoreWorksIff`), and what it accepts has every file, exactly if no removal
  died inside Git's deletion before the worktree's `.git` file was gone
  (`RestoredIsWholeIff`). `CutInsideGit` and `CutInsideDeletion` show the failures.
- Repeating `prepare` changes nothing, but it is refused if the first run wrote a
  file above the size limit for reading (`AgentHome.PrepareIsIdempotent`,
  `OutgrownIsRefused`).
- The comment at `src/agent_home.rs:144` speaks of trusting exactly the given
  directories; the code adds trust and never withdraws it. The result is exact if and
  only if the home trusted no other directory before
  (`AgentHome.CodexTrustsExactlyIff`, `ClaudeTrustsExactlyIff`, `StaleTrustStays`).

## Model

| member | source | states |
|---|---|---|
| LockKernel.InvKept | src/execution_guard.rs:13-70 | every step (open, try-lock, transfer, drop, gated close, fork, exec, supervisor end, crash, building, narrowing and dismantling a guard) keeps the descriptor bookkeeping, the consistency of the lock table and every guard's hold on its locks |
| LockKernel.InvAlways | src/execution_guard.rs:13-70 | the same over every run |
| LockKernel.GuardExclusion | src/execution_guard.rs:101-256 | over every interleaving an exclusive root coexists with no other guard under that root, a project guard with no other project or shared guard of that project, and no two guards share a fence |
| LockKernel.GuardsExclude | src/execution_guard.rs:101-256 | the same for any state that satisfies the invariant |
| LockKernel.HeldExactlyByIntendedCopies | src/execution_guard.rs:40-70 | a lock is held exactly while an intended copy is open or a copy that a crash left with a child between fork and exec |
| LockKernel.SupervisorExcludes | src/runner.rs:246-275 | while a supervisor keeps its copy of a lock, nobody else holds the file exclusively, and if the lock is exclusive nobody else holds it at all, even after the caller died |
| LockKernel.ForkHandsOver | src/runner.rs:246-268 | a child forked with inherited locks carries each of them, still locked in its mode |
| LockKernel.ExecKeepsExactly | src/runner.rs:246-268 | at its exec a child loses every copy it was not to keep and keeps the others |
| LockKernel.TransferSurvives | src/execution_guard.rs:52-70 | over every run a lock that a child carries stays locked, in its mode, until that child ends, through its exec, every close and drop by its parent and its parent's death |
| LockKernel.GatedCloseFrees | src/execution_guard.rs:40-50 | when the last copy of a transferred lock is closed through the gate, the file is free |
| LockKernel.UnlockFrees | src/execution_guard.rs:64-70 | dropping a lock that was not transferred frees the file although children may be between fork and exec |
| LockKernel.UngatedCloseLeaks | src/execution_guard.rs:13-21 | a run to a state in which the gate keeps a transferred copy from closing; closed all the same, it would leave the file locked by a child between fork and exec |
| GuardThreads.InvKept | src/execution_guard.rs:101-256 | every try-lock and release of every thread, and every kernel step between them, keeps each thread's holdings to those of its place in the library |
| GuardThreads.InvAlways | src/execution_guard.rs:101-256 | the same over every run |
| GuardThreads.HoldsExactly | src/execution_guard.rs:172-256 | over every interleaving a thread holds exactly the locks its place in acquire, fence, narrow, widen or drop names, so a failed acquisition leaves nothing, whatever ran between its try-locks |
| GuardThreads.RootStaysShared | src/execution_guard.rs:170-223 | from narrowing until the project is regained nobody has the root exclusively, over every interleaving |
| GuardThreads.WaitersRest | src/execution_guard.rs:80-128 | among callers that keep the rule, whoever holds up a widening thread is waiting for nothing; whoever holds up a thread that wants the root is at most widening |
| GuardThreads.NoDeadlock | src/execution_guard.rs:2-6 | at no moment of any run whose callers never ask for a root exclusively while holding a guard do threads in the two retry loops wait for each other in a cycle, by the locks actually held; a chain has at most two waits |
| GuardThreads.RootAwaitedEmptyHanded | src/execution_guard.rs:2-4 | under that rule a thread waits for a root holding nothing |
| GuardThreads.DeadlockWithoutDiscipline | src/execution_guard.rs:2-4 | a run that breaks the rule and deadlocks |
| GuardThreads.NarrowAndRegain | src/execution_guard.rs:165-223 | a run in which a thread owns a project, fences a resource, narrows to it, gives it up and owns the project again |
| Ordering.FootprintOrder | src/execution_guard.rs:240-244 | sorting a footprint keeps its resources, and comparing neighbours finds a duplicate exactly when there is one |
| GuardAcquisition.FenceFilesDiffer | src/execution_guard.rs:141-147 | two valid resources whose digests have the same input are the same resource |
| GuardAcquisition.CanLockIff | src/execution_guard.rs:76-91 | an exclusive lock is granted exactly on a file nobody has, this process included, a shared one exactly on a file nobody has exclusively |
| GuardAcquisition.OwnGuardsExclude | src/execution_guard.rs:101-256 | the guards one process holds at a time exclude each other as guards of different processes do |
| GuardAcquisition.ConsistentKept | src/execution_guard.rs:76-91 | granting and dropping a lock keep the locks of one process free of conflicts |
| GuardAcquisition.GuardKeepsOthersOut | src/execution_guard.rs:101-256 | while a guard is held no other process has a lock that the guard excludes |
| GuardAcquisition.Locks.ExclusiveFileUntil | src/execution_guard.rs:82-91 | the lock is taken at the first attempt that finds it free; failure changes nothing and happens only at the deadline, on cancellation or for a file that is not regular |
| GuardAcquisition.Locks.AcquireProject | src/execution_guard.rs:176-184 | succeeds exactly when the root can be shared and the project taken exclusively; failure leaves the lock table as it was |
| GuardAcquisition.Locks.LockFences | src/execution_guard.rs:249-250 | the sorted fence loop takes every fence or none |
| GuardAcquisition.Locks.AcquireShared | src/execution_guard.rs:240-254 | a declared footprint is taken whole, exactly when it is non-empty, valid, without duplicates and free; failure leaves the lock table as it was |
| GuardAcquisition.Locks.FenceUnder | src/execution_guard.rs:165-169 | one more fence under project ownership, or no change |
| GuardAcquisition.Locks.Narrow | src/execution_guard.rs:170-175 | gives up exactly the project lock and keeps the shared root and the fence |
| GuardAcquisition.Locks.Widen | src/execution_guard.rs:207-223 | releases the fence and regains the project at the first attempt that finds it free; at no attempt had another process the root exclusively; failure leaves nothing held |
| CheckOwnership.Ownership.constructor | src/canonical_verification_jobs.rs:87-87 | ownership starts with the project guard and nothing else of the process's locks |
| CheckOwnership.Ownership.Held | src/canonical_verification_jobs.rs:52-52 | held means exactly that the project lock is held exclusively and the root shared |
| CheckOwnership.Ownership.Release | src/canonical_verification_jobs.rs:39-45 | ownership becomes the scratch fence and the same shared root, or stays as it was; releasing twice loses the guard and frees its locks |
| CheckOwnership.Ownership.Reacquire | src/canonical_verification_jobs.rs:46-51 | the guard comes back at the first attempt that finds the project free, before the claim is judged; otherwise the wait is over and nothing is held; the root was never exclusive elsewhere meanwhile |
| VerificationJobs.InvKept | src/canonical_verification_jobs.rs:59-107 | every step of any number of deliveries, observations, expiries, retirements and deaths keeps the protocol's invariant |
| VerificationJobs.InvAlways | src/canonical_verification_jobs.rs:59-107 | the same over every run |
| VerificationJobs.RowSteps | src/store/delivery.rs:92-216 | the row changes only for the project's owner or while nobody owns it, and its epoch never goes back |
| VerificationJobs.HonestAlways | src/canonical_verification_jobs.rs:59-107 | over every run a confirmed job has its run; and a pending or given up one never had any exactly if the operator neither retired it over a stored run nor recorded one by hand while it was pending or given up |
| VerificationJobs.RetireIsHonestIff | src/store/delivery.rs:205-216 | retiring keeps that promise exactly when no run is stored |
| VerificationJobs.OperatorIsHonestIff | src/verification/mod.rs:267-292 | a manual verification under the job's key keeps it exactly when the job is claimed, ambiguous or confirmed |
| VerificationJobs.OperatorRecordsEarly | src/cli.rs:1538-1543 | a run in which a pending job has a run that an operator stored |
| VerificationJobs.RetiredOverItsRun | src/store/delivery.rs:205-216 | a run in which an operator gives up a job that has a run |
| VerificationJobs.ObservationConfirms | src/canonical_verification_jobs.rs:69-77 | an observation that finds a stored run confirms the job |
| VerificationJobs.FinishDecides | src/canonical_verification_jobs.rs:90-105 | over every run, if a delivery's claim still holds, its stored run confirms the job, an unreadable store leaves it ambiguous, a changed fence or a cancellation brings it back while attempts are left, and any other end gives it up; a claim that no longer holds changes nothing |
| VerificationJobs.WithdrawnComesBack | src/canonical_verification_jobs.rs:82-84 | over every run a delivery cancelled before its verifier is entered brings the job back while attempts are left, if its claim still holds |
| VerificationJobs.ObserverIsCurrent | src/canonical_verification_jobs.rs:69-77 | over every run a job stays ambiguous and at its revision while it is observed |
| VerificationJobs.ObservationDecides | src/canonical_verification_jobs.rs:69-77 | over every run an observation confirms the job if a run is stored and otherwise brings it back while attempts are left |
| VerificationJobs.RegainedJudgesTheClaim | src/canonical_verification_jobs.rs:46-51 | over every run a verifier goes on after its check exactly if its claim is still the row's and its lease runs; otherwise it ends without a verdict |
| VerificationJobs.EndingsAreKept | src/canonical_verification_jobs.rs:90-105 | over every run how the verifier ended reaches its delivery as it was, and a verdict comes with a stored run, the first one |
| Delivery.ClaimLivesForItsLease | src/store/delivery.rs:94-129 | a claim holds exactly for its 300 seconds, and meanwhile nobody else can claim |
| Delivery.ExpiryVoidsTheClaim | src/store/delivery.rs:178-190 | expiring does nothing before the lease is over, and afterwards leaves the row ambiguous and the claim void for good |
| Delivery.RetryWaits | src/store/delivery.rs:55-85 | a retry waits one second, then twice as long each time up to 256 seconds, and can be claimed exactly from then on |
| VerificationJobs.LaterClaimsAreNewer | src/store/delivery.rs:94-129 | later claims of a job carry higher epochs |
| VerificationJobs.LateVerifierNeverRecords | src/canonical_verification_jobs.rs:46-51 | once an observer has declared that there is no effect, no verifier of an earlier claim records a run |
| VerificationJobs.ChecksPinAlways | src/canonical_verification_jobs.rs:35-53 | unless the job was retired while its fence was held, a running check is the one the row's claim is about, or the row is ambiguous or confirmed, so nobody can claim the job |
| VerificationJobs.ScratchIsNotPulledAway | src/verification/mod.rs:357-395 | over every run without such a retirement, a step that removes the scratch meets a running check exactly when it is the cleanup of a verifier whose claim is no longer the row's and another check holds the fence |
| VerificationJobs.LateReturnPullsScratchAway | src/verification/mod.rs:379-385 | a run with two deliveries in flight and no retirement, in which a late verifier's cleanup meets the other's check |
| VerificationJobs.RetirementPullsScratchAway | src/store/delivery.rs:205-216 | from every moment of every run at which a job is retired under a held fence, resetting it and delivering it a second time comes to clear the scratch under that check, unless claims or counters are used up |
| VerificationJobs.FenceHeldWhenRetired | src/store/delivery.rs:205-216 | a run to such a moment |
| VerificationJobs.LaneKeepsScratch | src/canonical_verification_jobs.rs:120-153 | over every run in which a job starts only when none is in flight, with deaths, expiry, retirement and manual verification, nobody removes the scratch under a running check |
| VerificationJobs.PulledAwayOffTheLane | src/canonical_verification_jobs.rs:120-153 | whenever that happens, a job was started beside another one |
| VerifierLane.Lane.constructor | src/canonical_verification_jobs.rs:125-128 | starts with nothing offered and nothing in flight |
| VerifierLane.Lane.Offer | src/canonical_verification_jobs.rs:129-132 | takes up a job unless it is in flight or paused |
| VerifierLane.Lane.Admit | src/canonical_verification_jobs.rs:137-141 | starts a job only when none is in flight, and then exactly one |
| VerifierLane.Lane.Drain | src/canonical_verification_jobs.rs:142-151 | lets the next job start only once the one in flight has reported back, and pauses a failed one |
| CoordinatorJobs.RecoverConverges | src/coordinator_jobs.rs:60-65 | wherever recovery dies, running it again reaches the state of an uninterrupted recovery |
| CoordinatorJobs.RecoverAfterAnyDeaths | src/coordinator_jobs.rs:60-65 | the same after any number of deaths |
| CoordinatorJobs.RecoverySettles | src/coordinator_jobs.rs:60-65 | recovery ends with no pending claim and every uncertain one notified under its own notice; confirmed claims, counters and the pending flag stay, the record is valid, and recovering again changes nothing |
| CoordinatorJobs.ProjectFiles.Settle | src/coordinator_start_jobs.rs:58-70 | settling one kind of claim makes exactly recovery's writes for it; an invalid record is refused untouched |
| CoordinatorJobs.ProjectFiles.RecoverClaims | src/coordinator_jobs.rs:60-65 | the two settling steps in order end exactly as recovery specifies |
| CoordinatorJobs.InvKept | src/coordinator_jobs.rs:40-58 | every step of workers, supervisors, recovery, opening, reprime, rebind and route edits keeps the claims, the log of sent commands and the lock holder consistent |
| CoordinatorJobs.InvAlways | src/coordinator_jobs.rs:40-58 | the same over every run |
| CoordinatorJobs.AtMostOnce | src/coordinator_start_jobs.rs:20-57 | over every run each request gets at most one start and at most one prime, no start after its prime, and requests are served in order |
| CoordinatorJobs.ClaimsConsistent | src/coordinator_jobs.rs:19-24 | over every run the record is valid, the two claims are never both pending, a confirmed claim's command was delivered, and a request whose prime is confirmed no longer waits for one |
| CoordinatorJobs.ClaimedWhenReady | src/coordinator_jobs.rs:25-52 | over every run a claim is made only for a request that waits for its prime and has a pane, while no claim is pending or unnotified, none primed this request and no start of it is in doubt; a start only for a request not yet started, and at most the third; the claim names the request, the execution and the sequence its worker was sent with |
| CoordinatorJobs.ConfirmChanges | src/coordinator_start_jobs.rs:56-56 | over every run an acknowledged start changes its claim's phase and notified flag and nothing else, so a request with a pane is ready to be primed; an acknowledged prime changes its claim's outcome and ends the wait |
| CoordinatorJobs.OpenRefusesClaimed | src/coordinator.rs:140-201 | over every run an opening without reprime writes a record only if no claim is pending and none is for the request it finds |
| CoordinatorJobs.ReadyIsServed | src/coordinator_jobs.rs:40-58 | from every moment of a run with the project free and the record ready, the command can be sent once and confirmed; after a start the record is ready to prime |
| CoordinatorJobs.FirstOpening | src/coordinator.rs:96-150 | a run from nothing that sends one start and one prime, after which nothing waits |
| CoordinatorJobs.PrimeNeverRacesStart | src/coordinator_jobs.rs:25-30 | over every run a prime is delivered only while its own claim is pending, no start is pending, and the start of its request is not uncertain |
| CoordinatorJobs.StartsAreBounded | src/coordinator_start_jobs.rs:5-12 | over every run at most three starts are claimed between two openings |
| CoordinatorJobs.OpenKeeps | src/coordinator.rs:96-201 | reprime, reopen and rebind leave both claims and their sequences as they were and move to exactly the next request; a route edit leaves the request too |
| CoordinatorJobs.RequestsAdvance | src/coordinator.rs:133-150 | over every run the request never goes back, and only opening moves it |
| CoordinatorJobs.ClaimsAdvance | src/coordinator_jobs.rs:51-52 | over every run a claim changes only its outcome, or is replaced by one with a higher sequence |
| CoordinatorJobs.NoticeIdInjective | src/coordinator_start_jobs.rs:66-66 | the text of a notice id determines kind, request and sequence |
| CoordinatorJobs.NoticesAreUnique | src/coordinator_jobs.rs:64-64 | over every run two claims with one notice id have the same kind, request, sequence and execution |
| ResourceClaims.OverlapIsExact | src/store/satisfaction.rs:797-818 | two path scopes overlap exactly when some file may be covered by both, wildcards read as widely as possible |
| ResourceClaims.PathsCouldOverlap | src/store/satisfaction.rs:797-818 | the segment loop decides that overlap |
| ResourceClaims.ConflictSymmetric | src/store/satisfaction.rs:781-795 | conflict does not depend on who asks |
| ResourceClaims.ConflictSound | src/store/satisfaction.rs:781-795 | a file that two claims without conflict may both cover is only read by both |
| ResourceClaims.NamedConflictIff | src/store/satisfaction.rs:781-787 | named claims conflict exactly when they name one resource and one of them writes, and never with a path claim |
| ResourceClaims.FilesConflictIff | src/store/satisfaction.rs:788-794 | path claims conflict exactly when some file may be covered by both, except that two exact paths may both read it |
| Capacity.InvKept | src/store/reservations.rs:112-208 | every step of admitters, adopters, launchers, reconcilers, operators and processes keeps attempts, seals, processes and claims consistent |
| Capacity.InvAlways | src/store/reservations.rs:112-208 | the same over every run |
| Capacity.RetainedChange | src/store/reservations.rs:229-270 | a reservation or an adoption retains one more attempt, a termination frees one, a cancellation frees its attempt exactly when the launch is neither claimed nor retired, and nothing else changes what is retained |
| Capacity.CancelFreesIff | src/store/reservations.rs:246-259 | all that a cancellation checks before it frees comes down to the launch: task and binding of a retained attempt cannot have moved, and its task has no other attempt or open launch |
| Capacity.CapacityBound | src/admission.rs:61-66 | over every run and any number of admitters, retained attempts exceed the limit in force at the last reservation by no more than the adoptions since, and before the first reservation there are only adopted ones |
| Capacity.WorkersWithinCapacity | src/canonical_worker.rs:515-696 | every live worker process belongs to a retained attempt, so their number keeps to the same bound |
| Capacity.WorkersDoNotCollide | src/store/satisfaction.rs:871-902 | of two live workers neither of which was adopted, none writes a file that the other's contract claimed when it was reserved |
| Capacity.WorkersShareNoNamedResource | src/store/satisfaction.rs:781-787 | of two live workers neither of which was adopted, no named resource is declared by both with one of them writing |
| Capacity.ReservedOnlyIf | src/store/reservations.rs:112-208 | over every run a reservation is made only while the project is active, a place is free, and no retained attempt is of this task or holds a conflicting claim |
| Capacity.ReservedIf | src/store/reservations.rs:112-208 | from every moment of a run at which that holds, reading the store and reserving succeeds and retains one more attempt |
| Capacity.WholeLife | src/canonical_worker.rs:515-696 | from every moment of a run with an unclaimed attempt and the root free, the attempt can be launched, recorded, exit and give its capacity back |
| Capacity.AdoptionPauses | src/store/ownership.rs:39-85 | over every run a worker is adopted only for a task without a retained attempt, is live then, and pauses the project |
| Capacity.ReservedAsRead | src/admission.rs:242-318 | a reservation is made on exactly the store that its admitter read |
| Capacity.ReservedClaims | src/store/satisfaction.rs:852-866 | every attempt was reserved or adopted, and declares what its contract claimed then; the overlap check sees that for a reserved attempt and nothing for an adopted one |
| Capacity.FreedByProof | src/canonical_worker.rs:515-696 | capacity comes back only by a cancellation of an untouched launch, an observed exit of the recorded supervisor, or a stop before any launch intent, and never for an adopted attempt |
| Capacity.FreedForGood | src/store/worker_termination.rs:303-420 | an attempt once freed stays freed and never has a live process again |
| Capacity.StuckForGood | src/store/delivery.rs:205-216 | an adopted attempt, and one whose launch was retired before it was claimed, keep their capacity to the end of every run |
| Capacity.AdoptedFirst | src/store/ownership.rs:39-85 | a run with one live worker under any limit and no reservation |
| Capacity.AdoptedAboveLimit | src/store/ownership.rs:39-85 | a run with two live workers under a limit of one |
| Capacity.AdoptedCollides | src/store/satisfaction.rs:887-893 | a run in which an adopted and a reserved worker both write one file |
| Capacity.RetiredThenCancelled | src/store/reservations.rs:246-259 | a run in which a cancellation of an unclaimed attempt frees nothing, because its launch was retired |
| Admission.Weigh | src/admission.rs:336-353 | evaluates all matched profiles, or those up to the first approved one, and fails exactly when a read among these fails |
| Admission.WeighedIsRight | src/admission.rs:330-353 | one status per evaluated profile in order, and exactly the approved ones in order with inputs sealed for them |
| Admission.DecideByRule | src/admission.rs:302-318 | with policies off the decision is the plain rule: the first approved profile, everything after it not evaluated, or why there is none |
| Admission.RuleIs | src/admission.rs:302-318 | the rule reserves for the first approved profile with that profile's own approval, sealed for this task, the earlier profiles saying what they lacked; it fails at a read before it, and otherwise reports missing knowledge if profiles match and none has any, or denies |
| Admission.DecideShadowed | src/admission.rs:269-301 | with policies watching the decision is the rule's, unless a read of any profile or of the policies' inputs fails |
| Admission.ShadowDeparts | src/admission.rs:269-301 | exactly when the two differ: the rule finds an approved profile, and a read of a later profile or of the policies' inputs fails |
| Admission.ShadowDepartsHere | src/admission.rs:269-301 | two candidates for which they differ, one by a profile's read and one by the policies' alone |
| Admission.DecidePage | src/admission.rs:269-318 | a whole page, with policies off or watching, decided candidate by candidate up to the first reservation or failed read; without failed reads it is the rule's page |
| Admission.PageIs | src/admission.rs:269-318 | a page ends at the first unblocked candidate that is reserved or whose reads fail, with that candidate's own reservation; until then exactly the denied tasks are recorded, in order, and the first task without knowledge is named |
| Admission.PagesDifferIff | src/admission.rs:269-318 | a watched page differs from the rule's exactly when the rule reserves a candidate and, for that candidate, a read of a later profile or of the policies' inputs fails; then it breaks there with the same record until there |
| Admission.Scatter | src/admission.rs:393-394 | the evaluation's probabilities reach their arms' positions, the total is kept and every other position is zero |
| Admission.DecideAssigned | src/admission.rs:380-399 | in assign mode one entry per matched profile, exactly one chosen, the one the evaluation picked, with its own sealed inputs; without grant or pick it abstains |
| Observations.Reads.constructor | src/canonical_observations.rs:143-143 | starts empty and with no verdict held open |
| Observations.Reads.Unknown | src/canonical_observations.rs:144-144 | unless the veto stands, every project polled successfully in this pass had an unexpired sample of its current fingerprint and head that saw nothing running and nothing scheduled |
| Observations.Reads.BeginPass | src/canonical_observations.rs:147-157 | collects exactly the arrivals before their deadlines, clears offers and verdict, moves the rotation to the last project a runner served, keeps all bounds and every classification |
| Observations.Reads.Classify | src/canonical_observations.rs:169-182 | a reply in time, for the same fingerprint and the current head, classifies its project with its verdict and deadline if there is room and leaves the verdict settled; any other usable reply forgets the project and opens the verdict; no usable reply changes neither |
| Observations.Reads.PollProject | src/canonical_observations.rs:158-192 | succeeds exactly when the project can be read and fits the registry and bounds; it leaves the verdict open exactly when the project is neither in flight nor offered, or was not seen idle: by the waiting reply if it can be used, and otherwise by the unexpired classification that stands |
| Observations.Reads.Offer | src/canonical_observations.rs:188-191 | a full offer list gives up the one project whose turn comes last, or the newcomer and the verdict; otherwise the project is offered anew |
| Observations.Reads.AdmitWhere | src/canonical_observations.rs:197-210 | admits nothing until the whole previous batch drained, then up to sixteen allowed offers, those whose turn comes first; an offer leaves the list only by admission or refusal, and a project is never both offered and pending |
| Observations.Collect | src/canonical_observations.rs:149-156 | the arrivals of one pass, each kept exactly while its deadline lies ahead, and the last one a runner served |
| Observations.AdmitBatch | src/canonical_observations.rs:203-209 | the admission loop: least in rotation order first, at most sixteen |
| Observations.Least | src/fair_admission.rs:8-12 | the next project in rotation order |
| Observations.Greatest | src/fair_admission.rs:8-12 | the last project in rotation order |
| Observations.RotationOrder | src/fair_admission.rs:8-12 | the order is strict and total: after the last serviced project the later ones, then the earlier ones, itself last |
| Observations.NoOfferStarves | src/fair_admission.rs:8-18 | a project offered round after round is admitted within as many rounds as there are projects ahead of it, and one more, whichever of each batch was served last |
| AttemptTokens.PartitionPoint | src/attempt_token_jobs.rs:292-292 | how many names do not come after the cursor |
| AttemptTokens.Hints.Requests | src/attempt_token_jobs.rs:286-304 | the offer is exactly what lies between the old and the new cursor, going round, so nothing present is skipped |
| AttemptTokens.CallsCover | src/attempt_token_jobs.rs:286-304 | consecutive calls over a stable inventory offer consecutive positions |
| AttemptTokens.RotationIsFair | src/attempt_token_jobs.rs:286-304 | over a stable inventory, as many calls as it has sixteens, rounded up, offer every attempt |
| Artifacts.FlattenInjective | src/artifacts.rs:90-107 | the pre-order entry list determines the tree, empty directories included |
| Artifacts.EntriesDetermineSource | src/artifacts.rs:110-118 | two report and library sources with equal entry lists are equal |
| Artifacts.Scan.Visit | src/artifacts.rs:90-107 | lists a tree, and succeeds exactly when depth, entries and bytes fit what is left of the budget |
| Artifacts.Scan.VisitAll | src/artifacts.rs:97-97 | the same for a directory's children |
| Artifacts.ScanSource | src/artifacts.rs:110-118 | one budget covers report and library; success exactly within it |
| Artifacts.FitsIff | src/artifacts.rs:90-118 | a source is within the budget exactly when its list has at most 10000 entries and 50 MiB and no path more than 64 levels |
| Artifacts.EntriesTellSizes | src/artifacts.rs:90-107 | every entry tells the size of what it lists, and a directory none |
| Artifacts.Load | src/artifacts.rs:235-249 | loads exactly a snapshot whose name, manifest and bytes agree |
| Artifacts.Capture | src/artifacts.rs:144-217 | publishes exactly when manifest, staged copy and source agree within the budget and an existing snapshot of that name is intact; what is retained then equals the source, and no existing snapshot is replaced |
| Cleanup.Worktree.Remove | src/cleanup.rs:121-158 | wherever it dies, an absent worktree has a durable removal record |
| Cleanup.RemoveTouches | src/cleanup.rs:121-158 | wherever it dies, a removal leaves a busy or untidy worktree alone and touches another only once its record stands with path, branch, head and snapshot; it says removed only of one that is gone, and gets there if nothing stops it |
| Cleanup.GoneWasRemoved | src/cleanup.rs:121-207 | over every run of calls and crash points, a worktree that is gone was taken by a removal that found it quiet and tidy, and the record names what it was then |
| Cleanup.Worktree.Restore | src/cleanup.rs:162-207 | works exactly under its checks and ends, wherever it dies, in a state with that record |
| Cleanup.AbsentIsRecorded | src/cleanup.rs:121-207 | over every run of calls and crash points, branch moves and damaged snapshots, an absent worktree is recorded |
| Cleanup.WholeGitIsConsistent | src/cleanup.rs:121-207 | if no process dies inside a Git command, disk and registration always agree and a directory that is there is whole |
| Cleanup.GoneComesBack | src/cleanup.rs:160-207 | after any such run one restore brings a removed worktree back whole, if its branch did not move and its snapshot is intact |
| Cleanup.RestoreConverges | src/cleanup.rs:160-207 | after any number of interrupted restores one complete restore reaches the one restored state, whole |
| Cleanup.RestoreWorksIff | src/cleanup.rs:162-207 | restoring works exactly when disk and registration agree, the branch has not moved and the snapshot is intact; otherwise nothing changes |
| Cleanup.CutInsideGit | src/cleanup.rs:151-151 | Git cut short between deleting and unregistering leaves a worktree that no restore brings back |
| Cleanup.RestoredIsWholeIff | src/cleanup.rs:121-207 | over every run of calls and crash points, what a restore would accept has every file all the way exactly if no removal died inside Git's deletion before the `.git` file was gone |
| Cleanup.RestoredIsWhole | src/cleanup.rs:191-206 | a restore of what has every file, or of nothing, ends with every file |
| Cleanup.CutInsideDeletion | src/cleanup.rs:29-42 | a removal cut before the `.git` file is gone lets the next restore clear the record over lost files; cut after it, the worktree is prunable and no restore does anything |
| ConfigEdits.RepeatChangesNothing | src/agent_home.rs:164-254 | a list of edits none of which undoes an earlier one changes nothing when repeated |
| ConfigEdits.AllPreserve | src/agent_home.rs:164-254 | what no edit is about keeps its value at every depth |
| ConfigEdits.AddMissingOnce | src/agent_home.rs:222-226 | whatever is added to a list is added once and was not there |
| ConfigEdits.AllWorkIff | src/agent_home.rs:164-254 | such a list works exactly when, in the file as it is, each edit finds nothing but tables on its way and at its end a value it can change |
| AgentHome.TrustedPaths | src/agent_home.rs:127-139 | succeeds exactly when all given directories are absolute, and lists their given and canonical forms in order of first mention |
| AgentHome.FormsAreDistinct | src/agent_home.rs:127-139 | that list has no duplicates and holds exactly those forms |
| AgentHome.Home.Prepare | src/agent_home.rs:148-162 | succeeds exactly with valid pins, absolute directories and editable files, and then has made exactly the product's edits; on failure only a Claude home's settings may have changed |
| AgentHome.CodexPreparedIff | src/agent_home.rs:148-194 | a Codex home can be prepared exactly with valid pins, absolute directories and a file that is missing, or a table of at most 256 KiB with tables where the network switch and the trusted directories go |
| AgentHome.ClaudePreparedIff | src/agent_home.rs:148-254 | a Claude home exactly when that holds for both its files, with tables and lists where the settings go, and the writable directories are absolute |
| AgentHome.PinsArePlain | src/agent_home.rs:28-33 | a valid pin has at most 64 characters and cannot be taken for an option, a path or text that needs quoting |
| AgentHome.Home.PrepareCodex | src/agent_home.rs:164-194 | the Codex file is edited as a whole or not at all |
| AgentHome.Home.PrepareClaude | src/agent_home.rs:206-254 | both Claude files are edited, or the second is untouched |
| AgentHome.Home.ReadPins | src/agent_home.rs:257-275 | returns the texts the configuration pins right now, as `AgentHome.PinsReadBack` relates them to a preparation |
| AgentHome.PrepareIsIdempotent | src/agent_home.rs:148-254 | a repeat that succeeds changes nothing, and it succeeds exactly when the files written are within the size limit |
| AgentHome.OutgrownIsRefused | src/agent_home.rs:87-98 | for any measure of length, a file at the limit that the edits make longer is prepared once and refused the second time |
| AgentHome.AtTheLimitIsPrepared | src/agent_home.rs:87-98 | every file at the limit without the owned keys is such a file, if a further key makes the text longer |
| AgentHome.CodexForces | src/agent_home.rs:172-192 | the product-owned Codex keys have their values, and each given directory is trusted |
| AgentHome.ClaudeForces | src/agent_home.rs:216-252 | the product-owned Claude keys have their values, and each given directory is trusted |
| AgentHome.CodexTrustsExactlyIff | src/agent_home.rs:187-192 | exactly the given directories are trusted in the end, if and only if the file trusted no other before |
| AgentHome.ClaudeTrustsExactlyIff | src/agent_home.rs:244-252 | the same for each of Claude's two flags |
| AgentHome.StaleTrustStays | src/agent_home.rs:141-147 | two homes whose trust in a directory that is not given survives |
| AgentHome.CodexPreserves | src/agent_home.rs:164-194 | every other key of the Codex file keeps its value at every level |
| AgentHome.ClaudePreserves | src/agent_home.rs:206-254 | every other key of the two Claude files keeps its value at every level |
| AgentHome.ListsGrowOnce | src/agent_home.rs:220-235 | the permission lists keep their entries in place and gain each missing one once |
| AgentHome.PinsReadBack | src/agent_home.rs:257-275 | reading back gives each pin asked for, and otherwise what the configuration said before |
| TerminalOwnership.Inventory.Check | src/brief_jobs_ownership.rs:18-27 | a reference passes exactly when it is within the limit and cannot be the same terminal |
| TerminalOwnership.Inventory.Scan | src/brief_jobs_ownership.rs:33-73 | the scan succeeds exactly when every entry is sound, every file and every budget is within bounds and no reference can be the same terminal |
| TerminalOwnership.NobodyElse | src/brief_jobs_ownership.rs:12-27 | after success no reference under the root names the pane on the same resolved socket, and none names it at all when either side is remote |
| TerminalOwnership.NoOtherThread | src/brief_jobs_ownership.rs:64-71 | that holds for every thread record but the asking one |
| TerminalOwnership.NoOtherCoordinator | src/brief_jobs_ownership.rs:60-62 | and for every coordinator record but an asking one |
| TerminalOwnership.NoStoredReference | src/brief_jobs_ownership.rs:48-58 | and for every binding and launch target of a stored project |
| TerminalOwnership.UnownedIff | src/brief_jobs_ownership.rs:33-73 | the scan's condition by the entries' own fields: at most 1024 entries, everything readable, 50 MiB read in all, at most 1024 places that refer to a terminal, and none but the asker's at this one |

## Left out

- `src/canonical_integration_jobs.rs`: its claim, narrow, widen and record steps are those of verification; the merge and its publication live in the integrator.
- `fair_admission::ProjectRound`: a round of projects; it would only add easy members.
- `deliver_brief` and `await_acceptance` in `src/canonical_worker.rs`: their claim logic repeats the coordinator protocol.
- `collect_with` in `src/canonical_observations.rs`: probes and planning of one project; the model takes the sample it returns.
- `PolicySpec::evaluate`: only the length of its probabilities and the range of its choice are used.
- `prepare_held`, `backlog_reason` and the paging of candidates in `src/admission.rs`: selection without a decision to compare.
- `mapped_path` and `no_process_references` in `src/cleanup.rs`: whether writers are quiet is a parameter of the removal.
- Read deadlines, cancellation during scans, file modes and link counts: a scan here fails for size or shape only.
- GuardAcquisition.Locks.AcquireProject: other processes move only while this one sleeps, so its two try-locks see one state of the lock table; `GuardThreads.HoldsExactly` has no such limit.
- GuardAcquisition.Locks.LockFences: likewise for the fence loop.
- GuardAcquisition.Locks.AcquireShared: likewise for the whole footprint; it also counts the length limit of a resource's identity in characters, the source in bytes.
- GuardThreads.NoDeadlock: a thread takes a shared guard only while it has none, and at most one fence under a project guard, as every effect of the library's callers does; record locks, which are never waited for, are not modelled.
- LockKernel.GuardExclusion: takes a guard's locks as already granted; that acquisition is all-or-nothing is proved in `GuardThreads.dfy` under every interleaving and in `GuardAcquisition.dfy` with its loops and deadlines.
- VerificationJobs.HonestAlways: a run stored by hand counts whatever submission and policy it names; the check of a manual verification runs in a directory of its own.
- Artifacts.Capture: the limit on the manifest's encoded size and the syncing of directories are not modelled; the verifying scan sees the source at one moment.
- Artifacts.Scan.Visit: takes file names as text; the source refuses names that are not UTF-8.
- ResourceClaims.PathsCouldOverlap: works on paths already cut into segments.
- Capacity.CapacityBound: approvals, budgets, dependency evidence, attempt limits and worker knowledge can only refuse a reservation and are left out; a runtime adopted without a task has no attempt.
- Capacity.WorkersDoNotCollide: stores too old to hold resource claims, which skip the overlap check, are not modelled.
- VerificationJobs.LaneKeepsScratch: a check counts as running while its verifier does; one that a killed ticker leaves behind is nobody's check any more, and its process is not modelled. That a root has one ticker, whose executor joins its threads before it gives up its lock, is taken from `src/ticker.rs` and `src/executor.rs`.
- Capacity.FreedByProof: which identity a supervisor has and how its exit is observed is a step of the environment.
- Admission.DecidePage: covers policies off and watching; in assign mode the policy may choose differently, which `Admission.DecideAssigned` covers per candidate.
- Observations.Reads.PollProject: reads the clock three times per poll; the source may read it more often in between.
- AttemptTokens.Hints.Requests: one project; the expiry of published hints is not modelled.
- CoordinatorJobs.AtMostOnce: counts commands that left through the supervised bridge; what the terminal manager does with one is outside.
- CoordinatorJobs.ProjectFiles.Settle: claims carry neither the prompt text nor the argument, route and terminal digests.
- Cleanup.Worktree.Remove: stopped writers, process references, ownership by other records and the ticker's version are one parameter.
- AgentHome.Home.Prepare: the text form of configurations is abstract but for its length, and each key the product sets is a constructor of its own.
- TerminalOwnership.Inventory.Scan: parsing and symbolic-link checks are verdicts on an entry.
