# Control plane: state machine and protocols

This project models the in-memory control plane of the autoLive backend and the protocols beside it, and proves what
they keep.

* **The shared tables** (`Tables`, `LeaseTable`, `Activation`, `ModelPool`, `Leasing`): users, devices, activation
  codes, device bindings, model accounts, leases, usage records, test results, remembered requests and counters, and
  one specification function per command on them, with the branches, the order of checks and the error kinds of the
  program.
* **The store** (`MemoryStore`): the same commands as methods of a class that overwrites its maps in place, with the
  loops that sweep, count, add up, scan and select. Every method's contract gives its whole new state and reply;
  `Execute` serves any command.
* **Outcomes** (`Requests`, `GrantOutcomes`, `PoolOutcomes`, `LeaseOutcomes`, `UsageOutcomes`): for every command, in
  terms of the tables alone, the checks it runs through in order with their errors, what it changes when it passes
  them all, and that it leaves everything else; `OutcomeRuns` draws conclusions for runs.
* **Runs** (`Bindings`, `LeaseSafety`, `Progress`, `Delivery`, `ControlPlane`, `Runs`, `LeaseOwners`, `LeaseLedger`,
  `Redelivery`, `RedeliveryRun`, `Forgetting`, `ForgettingRun`, `Quota`, `StatusRefresh`, `TieRun`): commands as
  deliveries, runs as sequences of them under a clock that never runs backwards, and what holds in every reachable
  state or along every run. Requests are remembered with a date, and retention passes drop what is older than a
  lifetime.
* **Secret rotation** (`SecretRotation`, `RotationOutcomes`): any number of rotations and cleanup passes, each a
  sequence of small steps that interleave and may crash between any two.
* **Refresh-token families** (`RefreshFamilies`, `RefreshRuns`, `RefreshReplay`, `RefreshOutcomes`, `RefreshDevices`,
  `RefreshExamples`): the three in-memory maps as a class, refreshes in flight between their read and rotate phases,
  and device bindings in flight between the lock section that reads a session and the one that writes it back.
* **Administrative roles** (`AdminRbac`, `Delegation`, `RoleOutcomes`, `RoleReplacements`, `RoleExamples`): the checks
  and writes of role requests as separate transactions that interleave.
* **Login throttle** (`LoginThrottle`, `ThrottleRace`), **password hashes** (`Argon2id`, `HashTexts`, `Base64`) and
  the **sync budget** (`ClientSync`).
* `Collections`, `Ordering` and `Decimal` hold sums over tables, the selection order and decimal text.

Time is counted in whole seconds. `dafny verify dfyconfig.toml` checks the whole project.

## What turned out to be conditional

* A device binding reads a session under one lock and writes it back under another. If the session is removed in
  between, the write restores it: sessions and index disagree, a family can get two sessions, and a family revoked by
  replay detection can come back to life. The exact conditions are
  `RefreshReplay.ConsistentExactlyWithoutStaleWrites`, `RefreshReplay.OneSessionPerFamilyExactly`,
  `RefreshReplay.ReplayKillsFamily` and `RefreshReplay.ReplayIsFinalExactly`; the failing runs are
  `RefreshExamples.LateWriteRevivesFamily` and `RefreshExamples.LateWriteCrowdsFamily`. That a token is exchanged at
  most once holds regardless.
* A device bound between the two phases of a refresh is lost: `RefreshDevices.DeviceSurvivesExactly`, with the run
  `RefreshExamples.RefreshLosesDevice`.
* A lease is extended once per renewal key only as long as the key is remembered: `LeaseLedger.ExpiryIsExplained`,
  `Redelivery.RedeliveryExtendsExactly` and, for every lifetime of records below 3600 times 10 to the 128th seconds,
  the run `RedeliveryRun.ForgottenRenewalExtendsAgain`.
* A repeated request leaves codes, bindings, devices and accounts unchanged only as long as it is remembered. What
  each kind of request does once it is forgotten is `Forgetting.RedeliveryActsExactly`: revoking a code, releasing or
  reclaiming a lease and recording usage never act again, the others do exactly when their checks pass once more and
  something is left to do. In the run `ForgettingRun.ForgottenUnbindDetaches` a device bound anew is taken off its
  code, and a forgotten secret rotation rotates once more (`RotationOutcomes.ForgottenRotationRotatesAgain`).
* A role replacement writes what it listed earlier and was let through by a guard that looked earlier, so crossing
  replacements can lose an assignment or leave nobody in charge: `RoleReplacements.OthersStayExactly` and
  `RoleReplacements.InChargeExactly`, with the runs `RoleExamples.CrossingReplacementLosesAssignment` and
  `RoleExamples.CrossingDemotionsLeaveNobody`. For the local administrator it also writes the implicit assignment
  down: `AdminRbac.StoredOutsideScopeStays`, `RoleExamples.ImplicitIsWrittenDown`.
* Refreshing account statuses depends on the iteration order of the test results on one kind of tie; the exact
  condition is `StatusRefresh.OrderMattersOnlyOnATie`, a run that leads there `TieRun.OrderDecidesAfterARun`.
* The end of a cooldown shown by the in-memory store is not always the one the refresh goes by:
  `StatusRefresh.CooldownEndsAsShownExactly`, with the run `TieRun.CrossingProbesShowAnotherEnd`.
* The throttle checks and records in separate steps and records under the clock reading of the check: attempts that
  overlap exceed the sequential bound by as many as are in flight, and a late failure can lift a block
  (`ThrottleRace.ConcurrentFailuresBounded`, `ThrottleRace.OverlapReachesBound`, `ThrottleRace.LateAnswerLiftsBlock`).
* Two account edits in a row are not always one edit of the fields of both: `ModelPool.EditsMerge`.
* Secret availability rests on the distance between staging and commit, and the cleanup grace is the exact bound:
  `SecretRotation.AvailableExactlyWithinGrace`.
* Deleting throttle rows is unobservable exactly for lifetimes of at least 15 minutes, while the configuration accepts
  any positive one: `LoginThrottle.InvisibleExactlyFromWindow`.
* The password hash parser reads more than the printer writes: `HashTexts.AcceptsExactly`.

## Model

| member | source | states |
|---|---|---|
| `Tables.NextIdFresh` | backend/internal/service/helpers.go:56-59 | the next generated identifier is not in any table whose identifiers were drawn from the same counter |
| `Tables.IdentifierInjective` | backend/internal/service/helpers.go:56-59 | two draws of one counter print the same identifier only if they are the same draw, also past eight digits |
| `Tables.IdentifiersCountDraws` | backend/internal/service/helpers.go:56-59 | the n-th identifier drawn is the prefix, an underscore and n, with zeros up to eight digits |
| `Activation.ChoiceIsEarliest` | backend/internal/service/controlplane.go:4295-4335 | the chosen code is open and no open code expires earlier, or at the same time under a smaller identifier; a refusal means no code is open, and its kind says exactly whether a current or any unrevoked code of the user exists |
| `ModelPool.SelectedIsBest` | backend/internal/service/controlplane.go:4798-4831 | the selected account is active, configured, below its day limit and has a free slot, and beats every other such account by priority, then identifier; none is selected only if there is none |
| `Ordering.LeastUnique` | backend/internal/service/controlplane.go:4320-4325 | the order of the candidates is total, so the least one does not depend on the order in which a map is iterated |
| `Collections.SumRemove` | backend/internal/service/controlplane.go:4833-4868 | counting leases or adding tokens gives the same result whichever row is visited first |
| `Tables.ActiveCountIsSize` | backend/internal/service/controlplane.go:4833-4841 | the count of active leases is the number of the account's active rows |
| `Tables.BoundCountIsSize` | backend/internal/service/controlplane.go:4215-4286 | the count of bound devices is the number of devices bound to the code |
| `Tables.TotalsAddUp` | backend/internal/service/controlplane.go:4843-4896 | a record adds its tokens to exactly the totals of its lease's user and account on its day and for its product |
| `MemoryStore.Store.NextIdentifier` | backend/internal/service/helpers.go:56-59 | draws the identifier the specification names and advances that counter only |
| `MemoryStore.Store.Find` | backend/internal/service/controlplane.go:4194-4204 | a recorded scope is a conflict under another fingerprint and a repetition under the same |
| `MemoryStore.Store.HasActiveProduct` | backend/internal/service/controlplane.go:3968-3980 | true exactly for an active membership, or for the default product when the user has no membership at all |
| `MemoryStore.Store.SelectActivationCode` | backend/internal/service/controlplane.go:4295-4335 | the scan, sort and error selection compute the specified choice for any visiting order |
| `MemoryStore.Store.SweepExpired` | backend/internal/service/controlplane.go:4763-4783 | the sweep expires exactly the product's active leases whose time is up, stamping the release time once |
| `MemoryStore.Store.ReleaseDeviceLeases` | backend/internal/service/controlplane.go:4785-4796 | releases exactly the device's active leases of the product |
| `MemoryStore.Store.CountActiveLeases` | backend/internal/service/controlplane.go:4833-4841 | counts the account's active leases |
| `MemoryStore.Store.AccountTokensUsed` | backend/internal/service/controlplane.go:4843-4868 | adds the tokens of the day's records whose lease names the account |
| `MemoryStore.Store.UserTokensUsed` | backend/internal/service/controlplane.go:4870-4896 | adds the tokens of the day's records whose lease names the user |
| `MemoryStore.Store.LatestResult` | backend/internal/service/controlplane.go:5083-5093 | of the account's results the latest, the first one visited on a tie |
| `MemoryStore.Store.RefreshedStatus` | backend/internal/service/controlplane.go:5046-5078 | one account's status switch and the exhaustion check after it |
| `MemoryStore.Store.RefreshStatuses` | backend/internal/service/controlplane.go:5044-5081 | refreshes every account, whatever the visiting order of the accounts |
| `MemoryStore.Store.SortedEligible` | backend/internal/service/controlplane.go:4800-4825 | lists exactly the eligible accounts, best first |
| `MemoryStore.Store.SelectAccount` | backend/internal/service/controlplane.go:4798-4831 | refreshes, then returns the best eligible account that has room |
| `MemoryStore.Store.CreateCode` | backend/internal/service/controlplane.go:3764-3823 | the whole new state and the reply of creating a code; the counter moves even when drawing the code text fails |
| `MemoryStore.Store.RevokeCode` | backend/internal/service/controlplane.go:4028-4064 | the whole new state and the reply of revoking a code |
| `MemoryStore.Store.ListCodes` | backend/internal/service/controlplane.go:3833-3856 | listing records the expiry of the active codes it passes |
| `MemoryStore.Store.CheckActivation` | backend/internal/service/controlplane.go:4174-4227 | everything an activation checks before it looks for a code, in order |
| `MemoryStore.Store.BindDevice` | backend/internal/service/controlplane.go:4246-4285 | takes the device off its old code and counts it on the new one |
| `MemoryStore.Store.Activate` | backend/internal/service/controlplane.go:4186-4288 | the whole new state and the reply of an activation, re-registration and re-homing included |
| `MemoryStore.Store.DisableDevice` | backend/internal/service/controlplane.go:4388-4422 | the whole new state and the reply of disabling a device; a repetition still ends its leases |
| `MemoryStore.Store.DetachDevice` | backend/internal/service/controlplane.go:4502-4515 | uncounts the device, reopens a full code, clears binding and owner |
| `MemoryStore.Store.UnbindDevice` | backend/internal/service/controlplane.go:4478-4518 | the whole new state and the reply of unbinding a device; a repetition still ends its leases |
| `MemoryStore.Store.CreateAccount` | backend/internal/service/controlplane.go:2448-2484 | the whole new state and the reply; a failing secret store leaves no account behind |
| `MemoryStore.Store.CheckEdit` | backend/internal/service/controlplane.go:2656-2664 | a busy account cannot be disabled, nor a limit set below its active leases |
| `MemoryStore.Store.UpdateAccount` | backend/internal/service/controlplane.go:2638-2686 | the whole new state and the reply of an account edit, the sweep made by a refused one included |
| `MemoryStore.Store.DisableAccount` | backend/internal/service/controlplane.go:2533-2564 | the whole new state and the reply of disabling an account |
| `MemoryStore.Store.ListAccounts` | backend/internal/service/controlplane.go:2026-2038 | listing sweeps all leases and refreshes all statuses |
| `MemoryStore.Store.RecordTest` | backend/internal/service/controlplane.go:3394-3423 | the closing transaction of a connectivity test, for any result of the probe |
| `MemoryStore.Store.CheckPolicy` | backend/internal/service/controlplane.go:2992-2999 | model authorisation first, then the user's day total against the limit |
| `MemoryStore.Store.CreateLease` | backend/internal/service/controlplane.go:2959-3031 | the whole new state and the reply of creating a lease |
| `MemoryStore.Store.Allocate` | backend/internal/service/controlplane.go:3001-3030 | selects an account, asks for its secret and writes the lease |
| `MemoryStore.Store.RenewLease` | backend/internal/service/controlplane.go:3083-3157 | the whole new state and the reply of a renewal |
| `MemoryStore.Store.ReleaseLease` | backend/internal/service/controlplane.go:3210-3275 | the whole new state and the reply of a release |
| `MemoryStore.Store.ReclaimLease` | backend/internal/service/controlplane.go:2348-2383 | the whole new state and the reply of the administrator's release, which writes back the lease as it was before the sweep |
| `MemoryStore.Store.FindCall` | backend/internal/service/controlplane.go:3517-3524 | finds a record of the same lease and call identifier if there is one |
| `MemoryStore.Store.CleanupIdempotencyRecords` | backend/internal/store/retention_memory.go:14-35 | drops exactly those of the chosen requests that were first seen before the cutoff |
| `MemoryStore.Store.CleanupModelPoolTestResults` | backend/internal/store/retention_memory.go:37-55 | drops exactly those of the chosen test results that are older than the cutoff |
| `MemoryStore.Store.SyncIdempotencyRecordCreated` | backend/internal/store/memory.go:211-223 | dates the new requests, keeps the dates of the old ones and forgets those of requests that are gone |
| `MemoryStore.Store.RecordUsage` | backend/internal/service/controlplane.go:3452-3558 | the whole new state and the reply of recording a call |
| `MemoryStore.Store.Charge` | backend/internal/service/controlplane.go:3510-3558 | duplicate detection, quota check, record and account update |
| `MemoryStore.Store.ChargeAccount` | backend/internal/service/controlplane.go:3551-3555 | marks the account exhausted once its total reaches its limit, whatever its status was |
| `MemoryStore.Store.Execute` | backend/internal/store/memory.go:196-209 | serving any command computes the specified step and keeps the invariant, without rollback |
| `ModelPool.EditsMerge` | backend/internal/service/controlplane.go:2665-2682 | two account edits in a row amount to one that gives the fields of both, if and only if they do not take the account out of a cooldown with an end and put it back |
| `MemoryStore.ScanChooses` | backend/internal/service/controlplane.go:4301-4335 | what a scan of the codes in any order found determines the specified choice |
| `MemoryStore.FirstWithRoomIsLeast` | backend/internal/service/controlplane.go:4826-4830 | the first of the sorted eligible accounts that has room is the least usable one |
| `Requests.TrimTakesEnds` | backend/internal/service/helpers.go:29-32 | trimming takes white space off both ends and nothing else |
| `Requests.WhiteSpaceIsListed` | backend/internal/service/helpers.go:29-32 | white space is the Unicode property, code point by code point |
| `Requests.KeysAreGood` | backend/internal/service/helpers.go:29-32 | a key is valid exactly if it has 8 to 128 characters and white space at neither end |
| `Requests.IdsAreGood` | backend/internal/service/controlplane.go:19 | an identifier is valid exactly if it has 8 to 64 ASCII letters, digits, underscores and hyphens and begins with a letter or digit |
| `GrantOutcomes.CodeCreationDecided` | backend/internal/service/controlplane.go:3764-3823 | a request for a code gets the error of the first check it fails, in the order of the table `CodeChecks`, and succeeds if it fails none; a refusal leaves nothing but, after a failed draw of the text, the counter |
| `GrantOutcomes.CodeIsCreated` | backend/internal/service/controlplane.go:3764-3823 | a new code is as asked for, open and unbound; every other row stays; a repetition answers with the code it made |
| `GrantOutcomes.RevocationDecided` | backend/internal/service/controlplane.go:4028-4064 | a revocation gets the error of the first check it fails, and succeeds if it fails none |
| `GrantOutcomes.CodeIsRevoked` | backend/internal/service/controlplane.go:4028-4064 | a revoked code keeps everything but its status and text; every other row stays |
| `GrantOutcomes.CodesAreListed` | backend/internal/service/controlplane.go:3833-3856 | listing expires exactly the active codes of the product listed whose time is up |
| `GrantOutcomes.ActivationDecided` | backend/internal/service/controlplane.go:4174-4288 | an activation gets the error of the first check it fails: among them another product's device, one held by somebody else and the user's own disabled one; it succeeds if it fails none |
| `GrantOutcomes.ActivationIsConfirmed` | backend/internal/service/controlplane.go:4186-4244 | a repeated activation changes nothing, one of a covered device only profile and expiry shown |
| `GrantOutcomes.ActivationTakesHold` | backend/internal/service/controlplane.go:4229-4288 | any other activation makes the device the user's and active under the usable code that expires first; that code counts it, an old one no longer does, and every other row stays |
| `GrantOutcomes.DisablingDecided` | backend/internal/service/controlplane.go:4388-4422 | disabling a device gets the error of the first check it fails, and succeeds if it fails none |
| `GrantOutcomes.DeviceGetsDisabled` | backend/internal/service/controlplane.go:4388-4422 | the device is marked, exactly its active leases of the product are released, also on a repetition, and nothing else changes |
| `GrantOutcomes.UnbindingDecided` | backend/internal/service/controlplane.go:4478-4518 | unbinding a device gets the error of the first check it fails, and succeeds if it fails none |
| `GrantOutcomes.DeviceGetsUnbound` | backend/internal/service/controlplane.go:4478-4518 | the device becomes nobody's, its code counts one device fewer and reopens if it was full, exactly its active leases are released, and nothing else changes |
| `PoolOutcomes.AccountCreationDecided` | backend/internal/service/controlplane.go:2448-2484 | a request for an account gets the error of the first check it fails, and succeeds if it fails none |
| `PoolOutcomes.AccountIsCreated` | backend/internal/service/controlplane.go:2448-2484 | a new account is as asked for with a secret reference of its own; if its secret is not stored only the counter has moved |
| `PoolOutcomes.EditDecided` | backend/internal/service/controlplane.go:2638-2686 | an edit gets the error of the first check it fails, busy accounts and limits below the leases running included; behind the checks on the request expired leases are noticed even by a refusal |
| `PoolOutcomes.AccountIsEdited` | backend/internal/service/controlplane.go:2638-2686 | exactly the fields given are taken over and the end of a cooldown left behind is dropped; no other account changes |
| `PoolOutcomes.AccountDisablingDecided` | backend/internal/service/controlplane.go:2533-2564 | disabling an account gets the error of the first check it fails, and succeeds if it fails none |
| `PoolOutcomes.AccountGetsDisabled` | backend/internal/service/controlplane.go:2533-2564 | exactly the account's status changes, besides leases that expire |
| `PoolOutcomes.RefreshGives` | backend/internal/service/controlplane.go:5044-5081 | the status a refresh gives, as a function of usage, limit and cooldown end |
| `PoolOutcomes.AccountsAreListed` | backend/internal/service/controlplane.go:2026-2038 | listing expires leases of every product, refreshes every account and does nothing else |
| `PoolOutcomes.TestDecided` | backend/internal/service/controlplane.go:3394-3423 | recording a test fails exactly if its request is remembered under another fingerprint |
| `PoolOutcomes.TestIsRecorded` | backend/internal/service/controlplane.go:3394-3423 | the result is kept, and unless it is disabled its account is active after a success and cools down for five minutes otherwise |
| `PoolOutcomes.PassForgets` | backend/internal/store/retention_memory.go:14-55 | a retention pass drops of what it is given exactly the requests and test results from before their cutoffs, and nothing with a lifetime that is not positive |
| `PoolOutcomes.StepDates` | backend/internal/store/memory.go:211-223 | every transaction dates the requests it has remembered and drops the dates of those that are gone |
| `LeaseOutcomes.LeaseCreationDecided` | backend/internal/service/controlplane.go:2959-3031 | a lease request gets the error of the first check it fails, policy list, day limit and accounts that can serve included, and succeeds if it fails none |
| `LeaseOutcomes.LeaseIsConfirmed` | backend/internal/service/controlplane.go:2976-2990 | a repetition answers with the lease it created and only notices leases that have expired |
| `LeaseOutcomes.LeaseIsCreated` | backend/internal/service/controlplane.go:3001-3030 | the new lease is as asked for, on the account of highest priority that can serve it; besides, leases expire and accounts are brought up to date, and nothing else changes |
| `LeaseOutcomes.RefusedLeaseLeaves` | backend/internal/service/controlplane.go:2959-3031 | what a refused lease request leaves behind, by its error: nothing, expired leases, or refreshed accounts too |
| `LeaseOutcomes.RenewalDecided` | backend/internal/service/controlplane.go:3083-3157 | a renewal gets the error of the first check it fails, a lease past its end and an account that is not active included, and succeeds if it fails none |
| `LeaseOutcomes.LeaseIsRenewed` | backend/internal/service/controlplane.go:3131-3157 | a renewal moves the end of its lease by the extension and changes no other lease, but that expired ones are noticed |
| `LeaseOutcomes.ReleaseDecided` | backend/internal/service/controlplane.go:3210-3275 | a release gets the error of the first check it fails, and succeeds if it fails none |
| `LeaseOutcomes.LeaseIsReleased` | backend/internal/service/controlplane.go:3210-3275 | a running lease is released now, any other one stays ended or is noticed to have expired |
| `LeaseOutcomes.ReclaimDecided` | backend/internal/service/controlplane.go:2348-2383 | an administrator's release gets the error of the first check it fails, and succeeds if it fails none |
| `LeaseOutcomes.LeaseIsReclaimed` | backend/internal/service/controlplane.go:2348-2383 | an active lease is released even if its time is up; leases of every product expire |
| `LeaseOutcomes.RefusedChangeLeaves` | backend/internal/service/controlplane.go:3083-3275 | a refused renewal or release leaves nothing but leases noticed to have expired, and those exactly once it looks for the lease |
| `UsageOutcomes.RecordingDecided` | backend/internal/service/controlplane.go:3452-3558 | recording a call gets the error of the first check it fails, another client's lease, another model and a call recorded with other contents included, and succeeds if it fails none; a refusal changes nothing |
| `UsageOutcomes.CallIsConfirmed` | backend/internal/service/controlplane.go:3505-3524 | a repeated request, or a new one about a recorded call, answers with the record and records nothing |
| `UsageOutcomes.CallIsRecorded` | backend/internal/service/controlplane.go:3526-3558 | the record says what the request said, with its total or else the tokens in and out; its account is exhausted exactly once the day's tokens reach its limit; nothing else changes |
| `UsageOutcomes.DayTotalRises` | backend/internal/service/controlplane.go:3540-3557 | in every sound state a recorded call raises the day's total of its user by the tokens of the request, never fewer than it counts in and out, and no other total |
| `Bindings.RehomingLeavesTheOldCode` | backend/internal/service/controlplane.go:4229-4252 | when an activation reaches the selection with a device still bound, its old code has expired and the chosen code is a different one, so nothing is counted twice |
| `Bindings.ActivateKeeps` | backend/internal/service/controlplane.go:4186-4288 | activation keeps counters equal to the binding table, within limits, and statuses truthful |
| `Bindings.UnbindKeeps` | backend/internal/service/controlplane.go:4478-4518 | unbinding keeps the same |
| `Bindings.DisableKeeps` | backend/internal/service/controlplane.go:4388-4422 | disabling a device keeps the same |
| `Bindings.RevokeKeeps` | backend/internal/service/controlplane.go:4028-4064 | revoking keeps the same |
| `Bindings.ListKeeps` | backend/internal/service/controlplane.go:3833-3856 | recording expiry keeps the same |
| `Bindings.CreateKeeps` | backend/internal/service/controlplane.go:3764-3823 | a new code starts uncounted under an identifier nothing is bound to |
| `Bindings.LaterStillConsistent` | backend/internal/service/controlplane.go:4311-4316 | the mere passing of time breaks none of it |
| `Bindings.DoubleCount` | backend/internal/service/controlplane.go:4215-4286 | counting bound devices one by one and adding up the codes' counters give the same total |
| `Bindings.DevicesWithinGrants` | backend/internal/service/controlplane.go:4215-4286 | a user's devices are as many as the counters of the user's codes say, hence no more than the codes grant |
| `LeaseSafety.ReleaseFreesDevice` | backend/internal/service/controlplane.go:4785-4796 | after the release no lease of any product is active on the device |
| `LeaseSafety.EndingKeepsPool` | backend/internal/service/controlplane.go:4763-4796 | ending leases keeps limits, account references and the once-only recording of calls |
| `LeaseSafety.UnbindKeepsDevices` | backend/internal/service/controlplane.go:4478-4518 | an unbound device leaves no active lease behind it |
| `LeaseSafety.DisableKeepsDevices` | backend/internal/service/controlplane.go:4388-4422 | a disabled device leaves no active lease behind it |
| `LeaseSafety.UpdateAccountKeeps` | backend/internal/service/controlplane.go:2638-2686 | an edit keeps every limit at or above its account's active leases and disables only idle accounts |
| `LeaseSafety.AllocateKeeps` | backend/internal/service/controlplane.go:3001-3030 | a new lease fits its account's limit and names the user's active device |
| `LeaseSafety.RecordUsageKeeps` | backend/internal/service/controlplane.go:3452-3558 | no two records share lease and call identifier |
| `LeaseOwners.GateAdmitsExactly` | backend/internal/service/controlplane.go:2959-2976 | the gate lets a request pass exactly if its user is active, names a device, and a lease of that user, device and product could be active without breaking what active leases rely on |
| `LeaseOwners.LeaseChangesAreJustified` | backend/internal/service/controlplane.go:3083-3275 | whatever command is served, a lease stays as it was, or its time was up, or its own user asked for it through the gate from the lease's device, or an administrator took it back |
| `LeaseOwners.CallsMatchTheirLeases` | backend/internal/service/controlplane.go:3485-3504 | in every reachable state a recorded call names an existing lease of its product, provider and model and was made no earlier than the lease |
| `LeaseTable.CountZero` | backend/internal/service/controlplane.go:4833-4841 | the count is zero exactly when no lease of the account is active |
| `LeaseTable.EndingLowersCount` | backend/internal/service/controlplane.go:4763-4796 | sweeps and releases never raise an account's count |
| `ControlPlane.StepKeepsInvariant` | backend/internal/store/memory.go:196-209 | every command keeps the joint invariant of codes, bindings, devices, leases, accounts and usage |
| `ControlPlane.StepAdvances` | backend/internal/store/memory.go:196-209 | no command takes back a revocation, an ended lease, a usage record or a remembered request |
| `Runs.BindingsConserved` | backend/internal/service/controlplane.go:4215-4286 | in every reachable state a code's counter is the number of devices bound to it, at most its limit; unrevoked and unexpired it is active exactly below the limit and used exactly at it |
| `Runs.DevicesNeverExceedGrants` | backend/internal/service/controlplane.go:4215-4286 | in every reachable state a user holds no more devices than all of the user's codes grant |
| `Runs.ConcurrencyCapped` | backend/internal/service/controlplane.go:4825-4841 | in every reachable state an account's active leases are within its current limit, and a disabled account has none |
| `Runs.ActiveLeasesCoherent` | backend/internal/service/controlplane.go:2959-3030 | in every reachable state an active lease names an active device of its user and product and an enabled account of its product |
| `Runs.RevokedForever` | backend/internal/service/controlplane.go:4052-4058 | a revoked code stays revoked and its count never rises |
| `Runs.EndedForever` | backend/internal/service/controlplane.go:4763-4796 | a lease that has ended never changes again |
| `Runs.FailureIsHarmless` | backend/internal/store/memory.go:196-209 | a command that fails leaves only leases past their expiry, derived statuses and at most one step of one counter behind |
| `Runs.RecordsSurvive` | backend/internal/store/retention_memory.go:14-35 | a remembered request is never altered, and lost only to a retention pass that finds it older than its lifetime |
| `Runs.DuplicateDelivery` | backend/internal/service/controlplane.go:4194-4204 | after a success and any run, a redelivery under the same scope changes no code, binding, device, record or stored setting as long as the scope is remembered, and fails under another fingerprint; the scope is forgotten only by a retention pass that finds its record older than the lifetime |
| `Forgetting.RedeliveryActsExactly` | backend/internal/service/controlplane.go:4194-4204 | for every kind of request: after a success in a reachable state and any run, retention passes included, delivering it again does more than end leases and move derived statuses if and only if its record is gone and its checks pass on tables on which it has something to do, spelled out for each kind; revoking, releasing, reclaiming and recording usage never act again |
| `ForgettingRun.ForgottenUnbindDetaches` | backend/internal/service/controlplane.go:4478-4518 | for every lifetime of records a run from the empty store in which a forgotten unbinding is delivered again and takes the device off the code it has been bound to since |
| `Runs.ConflictIsReported` | backend/internal/service/controlplane.go:4032-4042 | a scope reused with another fingerprint is reported as a conflict, or refused for a reason that holds without any memory of requests |
| `LeaseLedger.ExpiryIsExplained` | backend/internal/service/controlplane.go:3131-3156 | along any run a lease's expiry is its creation plus its remembered duration plus one extension per distinct renewal remembered, if and only if no retention pass has dropped its creation or one of its renewals |
| `Redelivery.RedeliveryExtendsExactly` | backend/internal/service/controlplane.go:3083-3157 | after a successful renewal and any run, delivering it again moves the expiry, and then by exactly the same extension, if and only if its record is gone and the user, device, lease and account checks still pass; only a pass that found the record older than its lifetime has dropped it |
| `RedeliveryRun.ForgottenRenewalExtendsAgain` | backend/internal/store/retention_memory.go:14-35 | for every lifetime of records below 3600 times 10 to the 128th seconds, the limit being that keys have at most 128 characters: a run from the empty store in which the lease is kept alive by other renewals until the record is old enough, and the redelivery extends it once more |
| `Runs.CallsRecordedOnce` | backend/internal/service/controlplane.go:3517-3524 | in every reachable state a client call is recorded at most once, under an existing lease of its product |
| `OutcomeRuns.DisabledUntilUnbound` | backend/internal/service/controlplane.go:4221-4222 | along any run a disabled device stays exactly as it is until a request unbinds it |
| `OutcomeRuns.NewLeasesAreAuthorised` | backend/internal/service/controlplane.go:2959-3031 | in every reachable state whatever adds a lease is a request of an active user from an active device of their own, for a model the policy allows, below the day limit, served by an account that can |
| `Quota.AcceptedBelowLimit` | backend/internal/service/controlplane.go:3526-3557 | an accepted record found the user's day total below the limit in force and raised it by exactly its own tokens |
| `Quota.UsageBounded` | backend/internal/service/controlplane.go:3526-3528 | under a fixed limit a user's total for any day and product stays below the limit plus the day's last record |
| `StatusRefresh.RefreshAllIdempotent` | backend/internal/service/controlplane.go:5044-5081 | refreshing twice at one instant is refreshing once, and no active account is left at or over its limit |
| `StatusRefresh.RefreshTellsTheTruth` | backend/internal/service/controlplane.go:5050-5078 | after a refresh active, exhausted and cooldown each say what the usage and the cooldown end say |
| `StatusRefresh.SummaryAgrees` | backend/internal/service/controlplane.go:4920-4951 | the summary made from the normalised tables, which carries no test-derived cooldown end, shows the status the refresh would store |
| `StatusRefresh.CooldownEndsAsShownExactly` | backend/internal/service/controlplane.go:4898-4918 | the summary made from the in-memory tables shows when the refresh will end a cooldown, exactly unless a stored end differs from five minutes after a failing latest test |
| `StatusRefresh.FindsALatest` | backend/internal/service/controlplane.go:5083-5093 | whatever the order, one of the latest results is found, and none only if there is none |
| `StatusRefresh.OrderMattersOnlyOnATie` | backend/internal/service/controlplane.go:5044-5093 | the refreshed account is independent of the iteration order exactly if no account in cooldown without an end has its latest results tied between a failing one past its five minutes and one that is not failing |
| `StatusRefresh.TieExample` | backend/internal/service/controlplane.go:5083-5093 | a concrete account and two results on which two iteration orders disagree |
| `TieRun.OrderDecidesAfterARun` | backend/internal/service/controlplane.go:5044-5093 | a run from the empty store to a state in which two listings that visit the results in different orders store different statuses |
| `TieRun.CrossingProbesShowAnotherEnd` | backend/internal/service/controlplane.go:3394-3423 | a run from the empty store in which two failing probes finish out of order and the cooldown ends before the end shown |
| `SecretRotation.AvailableExactlyWithinGrace` | backend/internal/service/controlplane.go:2785-2907 | over all interleavings and crashes of rotations and cleanup passes every account's secret resolves, if and only if commits follow their staging within the cleanup grace |
| `SecretRotation.LateCommitLosesSecret` | backend/internal/service/retention_cleanup_scheduler.go:54-56 | the run on which a commit one second later loses the active secret |
| `SecretRotation.NoSecretLost` | backend/internal/service/controlplane.go:2847-2864 | however late commits come, every stored secret is active, queued, or a candidate that never served; nothing queued is active |
| `SecretRotation.LeavesQueueOnlyWhenGone` | backend/internal/service/controlplane.go:313-366 | however late commits come, a queue entry leaves the queue only once its secret is gone |
| `SecretRotation.CommitKeeps` | backend/internal/service/controlplane.go:2833-2866 | the compare-and-swap commit, however late, loses no secret and keeps every running pass sound; within the grace it also keeps every account's secret available |
| `SecretRotation.SweepKeeps` | backend/internal/service/controlplane.go:285-311 | deleting any choice of old unprotected candidates loses no secret that ever served; within the grace it hits no active one |
| `SecretRotation.ClearKeeps` | backend/internal/service/controlplane.go:350-366 | closing a pass removes only entries whose secrets are gone, and costs no availability |
| `SecretRotation.PassCollectsAll` | backend/internal/service/controlplane.go:271-370 | after any run, late commits included, once everything is older than the grace every pass that sweeps, picks and cleans all it may leaves of what is stored exactly the active secrets, and all of those if commits kept within the grace; the queue is empty if and only if the pass also finds out about every queued secret that was gone before the cleaning |
| `SecretRotation.RecordedRequestCannotCommit` | backend/internal/service/controlplane.go:2840-2846 | a request already recorded does not rotate again |
| `RotationOutcomes.CommitSwitchesExactly` | backend/internal/service/controlplane.go:2833-2866 | in every reachable state a commit makes its candidate serve, queues the reference it replaces and records the request if and only if the account still holds the reference read and the request is not recorded; otherwise none of these changes |
| `RotationOutcomes.RotationServes` | backend/internal/service/controlplane.go:2785-2907 | a rotation that nothing crosses comes to serve, and the reference it replaces is neither stored nor queued afterwards |
| `RotationOutcomes.EveryRotationServes` | backend/internal/service/controlplane.go:2785-2907 | in every reachable state any number of rotations of one account, one after another, come to serve one by one, and of the references used only the last is stored |
| `RotationOutcomes.YoungIsLeftAlone` | backend/internal/service/controlplane.go:285-366 | in every reachable state a cleanup pass leaves alone what was queued or stored within the last hour |
| `RotationOutcomes.PassClosesExactly` | backend/internal/service/controlplane.go:350-366 | closing a pass ends it and takes exactly the resolved and old references off the queue |
| `RotationOutcomes.RefusedRotationLeavesNothing` | backend/internal/service/controlplane.go:2867-2872 | in every reachable state a rotation whose commit is refused leaves nothing but the token drawn |
| `RotationOutcomes.ForgottenRotationRotatesAgain` | backend/internal/store/retention_memory.go:14-35 | a rotation request that a retention pass has forgotten rotates once more when it is delivered again |
| `RefreshFamilies.Authenticator.RevokeFamily` | backend/internal/httpapi/auth.go:532-539 | removes exactly the family's sessions and their index entries, in any visiting order |
| `RefreshFamilies.Authenticator.RefreshRead` | backend/internal/httpapi/auth.go:283-292 | the read phase, revoking the family of a replayed token |
| `RefreshFamilies.Authenticator.Rotate` | backend/internal/httpapi/auth.go:541-558 | the compare-and-swap rotation, revoking the family when it fails on a spent token |
| `RefreshFamilies.Authenticator.RevokeRefreshToken` | backend/internal/httpapi/auth.go:568-577 | logging out with a current or a spent token removes the family |
| `RefreshFamilies.Authenticator.RevokeAccessToken` | backend/internal/httpapi/auth.go:585-590 | removes that session and its index entry |
| `RefreshFamilies.Authenticator.RevokeUserSessions` | backend/internal/httpapi/auth.go:600-620 | removes exactly the user's sessions |
| `RefreshFamilies.Authenticator.RevokeDeviceSessions` | backend/internal/httpapi/auth.go:626-646 | removes exactly the device's sessions of the product |
| `RefreshFamilies.Authenticator.BindDeviceRead` | backend/internal/httpapi/auth.go:688-703 | the first lock section of a device binding hands out a copy to write back exactly for an unbound session, and changes nothing |
| `RefreshFamilies.Authenticator.BindDeviceWrite` | backend/internal/httpapi/auth.go:710-713 | the second one writes the copy under its key; the maps stay consistent exactly if the session is still there |
| `RefreshFamilies.Authenticator.ClearDeviceBinding` | backend/internal/httpapi/auth.go:726-746 | clears exactly that binding, and nothing for an empty device text |
| `RefreshFamilies.Authenticator.CleanupAuthSessions` | backend/internal/httpapi/auth_retention.go:38-72 | drops a batch of the oldest expired sessions and the spent tokens past the cutoff, returns how many entries went, and keeps the maps consistent |
| `RefreshFamilies.InsertingKeeps` | backend/internal/httpapi/auth.go:219-222 | a login keeps the index sound, sessions and index inverse, and the family at one session exactly if the family is new |
| `RefreshFamilies.DroppingKeeps` | backend/internal/httpapi/auth.go:532-539 | removing any sessions with their index entries keeps the index sound, sessions and index inverse, and families at one session |
| `RefreshFamilies.RotatingKeeps` | backend/internal/httpapi/auth.go:541-558 | a rotation keeps the same |
| `RefreshFamilies.WritingBack` | backend/internal/httpapi/auth.go:710-713 | writing a copy back always keeps the index sound; it keeps sessions and index inverse exactly if the session is still there, and families at one session exactly if it is or no other session of the family is |
| `RefreshFamilies.PassShortensBacklog` | backend/internal/httpapi/auth_retention.go:38-71 | a pass shortens the backlog by a batch and touches no session or spent token at or after the cutoff |
| `RefreshFamilies.BacklogClearsInTime` | backend/internal/httpapi/auth_retention.go:38-71 | a backlog of n sessions is empty after k passes exactly if k is at least n over the batch size, rounded up |
| `RefreshReplay.ExchangedAtMostOnce` | backend/internal/httpapi/auth.go:284-341 | with any number of refreshes between their phases and bindings between their lock sections each token is exchanged at most once |
| `RefreshReplay.ExpiryIsInherited` | backend/internal/httpapi/auth.go:306-317 | access never outlives refresh, refresh expiry is the one the family began with, and every index entry names a session that answers to it |
| `RefreshReplay.ConsistentExactlyWithoutStaleWrites` | backend/internal/httpapi/auth.go:689-713 | sessions and index stay inverse, with one session a family, along exactly those runs in which no binding writes back a session removed since it was read |
| `RefreshReplay.OneSessionPerFamilyExactly` | backend/internal/httpapi/auth.go:541-558 | a family has at most one session along exactly those runs in which no such write finds another session of the family |
| `RefreshReplay.ReplayKillsFamily` | backend/internal/httpapi/auth.go:532-578 | once a spent token is presented in either phase or at logout its family is empty, and it has a live session again along a run if and only if a binding writes back an unexpired session of it |
| `RefreshReplay.ReplayIsFinalExactly` | backend/internal/httpapi/auth.go:689-713 | no continuation revives the family if and only if no binding in flight holds an unexpired session of it |
| `RefreshReplay.ForgetsOnlyExpiredFamilies` | backend/internal/httpapi/auth_retention.go:63-68 | a spent token is forgotten only when its whole family is past its refresh expiry |
| `RefreshDevices.DeviceSurvivesExactly` | backend/internal/httpapi/auth.go:306-317 | a rotated session has the device its predecessor had to the last if and only if the last device written into that predecessor between the two phases, if any, is the one the read phase saw |
| `RefreshExamples.LateWriteRevivesFamily` | backend/internal/httpapi/auth.go:710-713 | the run in which a replayed family comes back to life |
| `RefreshExamples.LateWriteCrowdsFamily` | backend/internal/httpapi/auth.go:710-713 | the run in which a family gets two sessions |
| `RefreshExamples.RefreshLosesDevice` | backend/internal/httpapi/auth.go:306-317 | the run in which a device bound between the phases is lost |
| `RefreshOutcomes.LogoutEndsFamily` | backend/internal/httpapi/auth.go:560-578 | in every reachable state logging out with a current or spent token ends every session of its family with its index entry and changes no other; any other token changes nothing |
| `RefreshOutcomes.LogoutIsFinalExactly` | backend/internal/httpapi/auth.go:560-578 | after such a logout the family is live again along a run if and only if a device binding writes back an unexpired session of it |
| `RefreshOutcomes.RevocationEndsExactly` | backend/internal/httpapi/auth.go:580-646 | revoking a token, a user or a device ends exactly the sessions it names, with their index entries |
| `RefreshOutcomes.PassEndsExactly` | backend/internal/httpapi/auth_retention.go:38-72 | a retention pass ends exactly the batch it takes and forgets exactly the spent tokens past the cutoff |
| `RefreshOutcomes.LoginInstalls` | backend/internal/httpapi/auth.go:205-222 | a login adds one session with the lifetimes of 15 minutes and 30 days and changes no other |
| `RefreshOutcomes.RefreshIsServedExactly` | backend/internal/httpapi/auth.go:283-341 | in every reachable state a refresh that nothing crosses replaces the session by its successor if and only if a session answers to the token, is not past its refresh expiry and its user is admitted; a spent token ends its family |
| `RefreshOutcomes.RefreshCompletesExactly` | backend/internal/httpapi/auth.go:541-558 | a refresh in flight is completed, whatever has happened since its read, if and only if its token is still current |
| `RefreshOutcomes.BindingTakesHoldExactly` | backend/internal/httpapi/auth.go:688-713 | a binding that nothing crosses gives exactly an unbound session its device |
| `RefreshOutcomes.ClearingIsExact` | backend/internal/httpapi/auth.go:726-746 | clearing takes the device off exactly the session that has it |
| `LoginThrottle.LoginFailureBackoff` | backend/internal/store/login_throttle_store.go:42-58 | the doubling loop computes the smaller of 900 and 30 doubled once per failure past the threshold, and 0 below it |
| `LoginThrottle.Throttle.Check` | backend/internal/store/login_throttle_store.go:60-81 | positive exactly if some bucket is blocked, and then the longest remaining time |
| `LoginThrottle.Throttle.RecordFailure` | backend/internal/store/login_throttle_store.go:83-120 | counts on or starts over after a gap of more than 15 minutes, for each bucket |
| `LoginThrottle.Throttle.Serve` | backend/internal/httpapi/rate_limit.go:187-218 | check, attempt, then record or reset; a turned-away attempt counts for nothing, a success clears the account only |
| `LoginThrottle.Throttle.Cleanup` | backend/internal/store/login_throttle_store.go:122-140 | deletes any choice of rows untouched since the cutoff |
| `LoginThrottle.AttemptLeavesExactly` | backend/internal/httpapi/rate_limit.go:187-218 | a refused password counts in account and address, a success forgets the account alone, everything else leaves every bucket |
| `LoginThrottle.FailureRateBounded` | backend/internal/httpapi/rate_limit.go:187-218 | after any history, attempts one at a time within a closed 15-minute window and without a clearing success record at most 9 failures for an account and 54 for an address |
| `LoginThrottle.BoundReached` | backend/internal/store/login_throttle_store.go:42-58 | both bounds are attained |
| `ThrottleRace.AloneIsServed` | backend/internal/httpapi/rate_limit.go:187-218 | check and answer of an attempt that no other overlaps amount to serving it in one step |
| `ThrottleRace.ConcurrentFailuresBounded` | backend/internal/httpapi/rate_limit.go:187-218 | from any state and for any interleaving of checks and answers with at most k attempts for the bucket in flight, a half-open 15-minute window without a clearing success records at most 9 + k failures for an account and 54 + k for an address, once more for every failure recorded under a clock reading from before the window |
| `ThrottleRace.OverlapReachesBound` | backend/internal/httpapi/rate_limit.go:187-218 | for every k of at least 2 a run from the empty table attains that bound, for accounts and for addresses |
| `ThrottleRace.LateAnswerLiftsBlock` | backend/internal/store/login_throttle_store.go:83-120 | a run in which a failure recorded under an old clock reading lifts the block of its bucket |
| `LoginThrottle.InvisibleExactlyFromWindow` | backend/internal/store/login_throttle_store.go:122-140 | a retention pass changes the answer to no later attempt if and only if rows are kept for at least the window |
| `AdminRbac.PermissionsSubset` | backend/internal/service/admin_rbac.go:545-559 | true exactly if every requested permission is owned |
| `AdminRbac.NormalizeDesiredAssignments` | backend/internal/service/admin_rbac.go:610-655 | accepts exactly if every assignment is allowed, returns the assignments completed with the user, or the first refusal |
| `AdminRbac.MergeScopedAssignments` | backend/internal/service/admin_rbac.go:657-672 | keeps what is outside the scope and adds what is desired; the order of the list is left open |
| `AdminRbac.ReplacementStaysInScope` | backend/internal/service/admin_rbac.go:383-413 | the single step with nothing between listing and writing, of which RoleReplacements.OthersStayExactly is the run: a replacement changes no other user, nothing listed outside its scope, and leaves exactly the requested assignments inside it |
| `AdminRbac.StoredOutsideScopeStays` | backend/internal/store/memory_admin_rbac.go:520-550 | for the same single step the stored table keeps this too, except exactly when a product-scoped replacement writes down the local administrator's implicit assignment |
| `AdminRbac.SomebodyStaysInCharge` | backend/internal/service/admin_rbac.go:695-727 | the single step with guard and write together, of which RoleReplacements.InChargeExactly is the run: it never removes the last effective super administrator |
| `Delegation.NobodyGainsMore` | backend/internal/service/admin_rbac.go:115-413 | over all interleavings of the separate transactions of role creations, updates, deletions and replacements nobody ever holds a permission in a product that nobody held there at the start |
| `Delegation.WriteKeeps` | backend/internal/store/memory_admin_rbac.go:133-230 | each writing transaction hands out nothing beyond the bounds, even though its checks were made earlier |
| `Delegation.AssignedIsHarmless` | backend/internal/store/memory_admin_rbac.go:371-432 | what an active user's assignments hand out is within what the user holds |
| `RoleReplacements.OthersStayExactly` | backend/internal/service/admin_rbac.go:379-413 | whatever happens between listing and writing, a replacement makes the target's assignments outside its scope what they were when listed; it leaves them as it finds them if and only if no replacement for the target was committed in between, or the last one left them as listed |
| `RoleReplacements.InChargeExactly` | backend/internal/service/admin_rbac.go:695-727 | along any run there is always a super administrator if and only if no replacement is written that its own guard would refuse by then |
| `RoleExamples.CrossingReplacementLosesAssignment` | backend/internal/service/admin_rbac.go:379-413 | the run of two replacements in different products in which an assignment is lost |
| `RoleExamples.CrossingDemotionsLeaveNobody` | backend/internal/service/admin_rbac.go:695-727 | the run in which two super administrators demote each other and nobody is left |
| `RoleExamples.ImplicitIsWrittenDown` | backend/internal/store/memory_admin_rbac.go:520-550 | in the freshly seeded store a product-scoped replacement for the local administrator stores a global assignment |
| `RoleOutcomes.HoldsExactly` | backend/internal/store/memory_admin_rbac.go:371-432 | an active user holds a permission in a product exactly through a role assigned there or everywhere, or as a super administrator |
| `RoleOutcomes.RoleIsCreatedExactly` | backend/internal/service/admin_rbac.go:119-182 | a creation that nothing crosses writes the role as asked for exactly if it is well formed, in scope, within what the administrator holds, and its code is free |
| `RoleOutcomes.RoleIsUpdatedExactly` | backend/internal/service/admin_rbac.go:188-259 | an update that nothing crosses writes name and permissions exactly under the like conditions on the stored role |
| `RoleOutcomes.RoleIsDeletedExactly` | backend/internal/store/memory_admin_rbac.go:236-280 | a role is deleted exactly if it is there, not built in and assigned to nobody |
| `RoleOutcomes.ReplacementIsOneStep` | backend/internal/service/admin_rbac.go:346-418 | the separate transactions of a replacement, with nothing in between, are the replacement in one step |
| `RoleOutcomes.ReplacementIsMadeExactly` | backend/internal/service/admin_rbac.go:346-418 | a replacement that nothing crosses is carried out exactly under the conditions of `MayReplace`; then the target has exactly the kept and the requested assignments and nobody else's change |
| `RoleOutcomes.AuthorisationDecided` | backend/internal/store/memory_admin_rbac.go:371-432 | which error an unknown user, an inactive one and one without the permission get |
| `RoleOutcomes.ScopeDecided` | backend/internal/service/admin_rbac.go:470-484 | which scopes an administrator may write in, and the error otherwise |
| `RoleOutcomes.AssignmentDecided` | backend/internal/service/admin_rbac.go:610-655 | which error an assignment gets that may not be made |
| `RoleOutcomes.RoleChecksDecided` | backend/internal/service/admin_rbac.go:119-259 | which error a role gets that may not be created or changed |
| `RoleOutcomes.StoreDecided` | backend/internal/store/memory_admin_rbac.go:133-280 | which error the store gives a write it refuses |
| `Base64.RoundTrip` | backend/internal/authn/password.go:68-70 | decoding what was encoded gives the same bytes, for every byte string |
| `Base64.DecodesOnlyCanonical` | backend/internal/authn/password.go:154-161 | line breaks aside, an accepted text is the one the encoder writes |
| `Base64.StandardAlphabet` | backend/internal/authn/password.go:68-70 | the symbols are those of table 1 of RFC 4648, by their code points |
| `Base64.EncodesNumbers` | backend/internal/authn/password.go:68-70 | every four symbols are the 24-bit number of their three bytes |
| `Base64.EncodedLength` | backend/internal/authn/password.go:68-70 | an encoding has no more symbols than its bits need |
| `Argon2id.ParseArgon2id` | backend/internal/authn/password.go:130-162 | the parsing loop computes the specified parse |
| `Argon2id.ParseInvertsPrint` | backend/internal/authn/password.go:56-70 | a printed hash is read back exactly if salt, digest and parameters are in range, and then as exactly those values |
| `Argon2id.FreshHashVerifies` | backend/internal/authn/password.go:71-88 | a fresh hash accepts its password with no upgrade needed, and accepts exactly the passwords deriving the same key |
| `Argon2id.FreshHashText` | backend/internal/authn/password.go:56-70 | with the parameters of a fresh hash the text begins as the standard encoding does |
| `Decimal.NoLeadingZero` | backend/internal/authn/password.go:56-70 | a number other than zero is printed without leading zeros |
| `HashTexts.AcceptsExactly` | backend/internal/authn/password.go:130-162 | a text is read as given values if and only if they are in range and it is the fixed header, one field for each key in any order with any leading zeros, and salt and digest as the encoder writes them but for line breaks anywhere |
| `HashTexts.VerifiesExactly` | backend/internal/authn/password.go:71-88 | a bcrypt text is for bcrypt to judge; any other is unreadable unless it says acceptable values, accepts a password exactly if deriving with those values gives the digest, and is due for an upgrade exactly if they are not those of new hashes |
| `Argon2id.TrailingBreakIsRead` | backend/internal/authn/password.go:154-161 | the parser reads texts the printer never writes: a line break at the end is ignored |
| `ClientSync.ValidateContainer` | backend/internal/controlplane/client_sync.go:367-399 | the shared key counter accepts exactly the trees whose depth, total keys, list lengths and text lengths are within the budget |
| `ClientSync.MemberOrderIsIrrelevant` | backend/internal/controlplane/client_sync.go:376-380 | the order in which an object's members are visited does not matter |
| `ClientSync.HeightIsLongestPath` | backend/internal/controlplane/client_sync.go:367-399 | the depth measured is the length of the longest path into the tree |
| `ClientSync.ModestEverywhere` | backend/internal/controlplane/client_sync.go:367-399 | a tree keeps the text and list limits exactly if every value inside it does |
| `ClientSync.KeysAreCounted` | backend/internal/controlplane/client_sync.go:376-380 | the keys counted are the paths that end at a member of an object |

## Left out

- The PostgreSQL and normalised branches, the outbox and advisory locks; the throttle's row updates are the exception.
- HTTP routing, JSON decoding, audit entries, metrics, logging, configuration, schedulers and listing, filtering and
  paging endpoints: they read or describe the tables but change nothing in them beyond the sweeps of `ListAccounts`.
- Heartbeats and the first phase of a connectivity test: they change no field the invariants speak of.
- User, membership and policy commands: a run may change those three tables arbitrarily at any point (`Administer`).
- Which of the requests and test results past their lifetime a retention pass takes: the program takes the oldest up
  to a batch size, a run may take any of them (`Forget`).
- Replies carry the stored row; the fields computed for display only (active leases, used tokens, last test, online
  flag, code prefix, activation index) and a call's finish reason are not modelled.
- Each command reads the clock once; sub-second times, time texts and invalid timestamps are not modelled.
- Idempotency scopes and fingerprints are structured values: that different requests never share a scope text or a
  digest is taken for granted.
- Requests arrive with surrounding blanks removed where the program removes them, base addresses without a trailing
  slash; whether an address is acceptable, whether the secret store answers and what a probe finds are inputs.
- Empty product texts, codes without a device limit and other rows from earlier releases; integer overflow. Length
  limits count characters, where the program counts bytes in most places; the two agree on ASCII texts.
- The secret reference of an account in the control-plane runs is the first one; its rotation is modelled in a state
  of its own (`SecretRotation`), without the probe result it also stores and without accounts that have no reference
  yet.
- The cleanup pass may delete or pick any part of what qualifies: batch sizes and the order within a batch are not
  modelled there.
- The SQL session store and the revocation of access tokens there; token hashes are taken to be injective and fresh.
- Users and memberships stay as they are along a run of role requests; role requests change roles and assignments
  only.
- Deleting a role is modelled as the store's transaction; the check of the administrator before it is not.
- Role requests are modelled without their replay records, texts arrive trimmed, and the sort order of assignment
  lists is not modelled (`MergeScopedAssignments` fixes the contents only).
- Throttle buckets arrive as one address and at most one account; the digest check and de-duplication of buckets and
  transaction failures of the throttle store are not modelled; recording a failure in both buckets is one step.
- The bounded slots for password hashing, the dummy comparison, the bcrypt comparison and the derivation itself: the
  last two are parameters.
- Sync field schemas, secret-key detection and hashing.
- FailureRateBounded: speaks of attempts that run one at a time; for attempts that overlap see
  ConcurrentFailuresBounded.
- SomebodyStaysInCharge: takes guard and write as one step; the separate transactions are in InChargeExactly.
- ReplacementStaysInScope: takes listing and write as one step; the separate transactions are in OthersStayExactly.
- StoredOutsideScopeStays: takes listing and write as one step; the separate transactions are in OthersStayExactly.
- MergeScopedAssignments: does not state the order in which the merged list is sorted.
