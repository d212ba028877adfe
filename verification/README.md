# Verified model of the commerce backend

This project models the parts of the backend in which many workers, clients or calls act on shared
rows, and proves what holds of them over whole runs. Each part has a model of the stored rows with
one `Step` per service call, a class whose methods work on the rows in place and are each shown to
be one `Step`, and theorems over every run (`Common.History`) of such steps.

| files | what they are about |
|---|---|
| `Outbox*.dfy` | the event outbox: claims under leases, crashes, retries with backoff, recovery, receipts, fairness |
| `RefreshSessions.dfy`, `Session*.dfy` | refresh-token families: rotation, reuse detection, revocation, cleanup |
| `Cart*.dfy` | one cart under optimistic versions: interleaved clients, serializability, event replay |
| `Checkout*.dfy` | checkout sessions over carts: frozen snapshots, confirmation, expiry |
| `Categories.dfy` | the category tree: the validating walk, reparenting, what interleaving breaks |
| `AttributeMigration.dfy` | the migration that normalizes variant attributes, and its way back |
| `RateLimiter.dfy` | the fixed-window limiter and its bound over sliding intervals |
| `Passwords.dfy` | password history and reset tokens |
| `AccountSecurity.dfy` | password changes and resets together with the sessions they end |
| `Permissions.dfy` | role grants and the versioned permission cache |
| `PermissionFailures.dfy` | lost invalidations and overlapping lookups: when they do harm, and how long |

What each call does to single columns, and exactly when it succeeds, is in the files named `*Effects.dfy`.

Conventions: time is in microseconds; money is in ten-thousandths, as NUMERIC(19, 4); a crash is a
worker that makes no further call; a call that raises within its transaction changes nothing. "In every run"
means every finite sequence of calls with any arguments, starting from empty tables.

Where the code promises less than one might expect, the model follows the code:

- Settling an outbox event checks the worker's name and not its lease, so a worker may settle late,
  and a worker that claims twice under one name may settle its second claim with its first
  (`OutboxSafety.SettleNeedsTheOpenClaim`, `OutboxRuns.SettledLate`,
  `OutboxRuns.SettledUnderOneName`).
- `attempts` may exceed `max_attempts`, since releases and stale re-claims count too; what is
  bounded is failures (`OutboxRuns.AttemptsPassAnyMaximum`, `OutboxSafety.FailuresAreBounded`).
- Adding an item, deleting, checking out and expiring a cart compare the version the client names,
  not the one the call read. A client who names a version ahead of its read can check out a cart
  emptied meanwhile, and nothing else can go wrong (`CartInterleaving.EmptiedCartIsCheckedOut`,
  `CartInterleaving.SerializableExactlyIf`).
- Only the moved category carries a version, so two interleaved moves can close a cycle: exactly if
  each category is above the other's new parent (`Categories.InterleavedMovesCloseExactlyIf`). A move
  is safe exactly if it is valid in the tree it is written to
  (`Categories.MoveKeepsForestExactlyIf`).
- The permission service carries on when the cache cannot be reached. A lost invalidation does harm
  exactly if the call affects a user who has a snapshot cached
  (`PermissionFailures.LostInvalidationIsSafeExactlyIf`); the user may keep a revoked role
  (`PermissionFailures.RevokedRoleIsServed`) until the entry goes or an invalidation arrives
  (`PermissionFailures.RenewalRestores`).
- A lookup stores under the key that is current when it stores. If other calls come between its read
  and its store, the cache stays coherent exactly if they leave each role and permission of the user
  as it was (`PermissionFailures.OverlappedLookupIsSafeExactlyIf`).
- A grant in a request that has read before is invalidated before it is committed. A lookup between
  the two does harm exactly if it leaves a snapshot of a user the grant affects
  (`PermissionFailures.LookupBetweenIsHarmlessExactlyIf`, `PermissionFailures.RevocationBehindALookup`).
- Revoking all sessions of a user acts on the rows that were there when the statement began, so the
  child of a rotation that commits meanwhile stays live. The user is cut off exactly if nothing added
  meanwhile is live (`SessionOverlaps.LateRevocationCutsOffExactlyIf`,
  `SessionOverlaps.RotationOutlivesTheRevocation`).
- The way back of the migration folds attribute names, so it is an inverse exactly for variants
  whose names were folded already (`AttributeMigration.RoundTripExactlyIfFolded`).
- A cart stays mutable while a checkout session for it is open, so a session's lines are those of
  the cart when the session began (`CheckoutSafety.SessionsRecordTheirBeginning`). An item added
  later is checked out with the cart and sold by no line (`CheckoutDrift.LateItemIsSoldByNoLine`,
  `CheckoutDrift.LateItemRun`). While the cart is active, its items are the same exactly if its
  version is (`CheckoutDrift.ItemsSameExactlyIfVersionSame`), and at the same version the lines are
  what is checked out (`CheckoutDrift.ConfirmationSellsTheCart`).

## Model

| member | source | states |
|---|---|---|
| `OutboxRepository.SelectionIsTheEarliest` | backend/app/events/infrastructure/repositories.py:52-59 | An eligible event that a claim leaves out comes after every event it hands out, and then exactly `limit` were handed out. |
| `OutboxRepository.SelectionHasNoDuplicates` | backend/app/events/infrastructure/repositories.py:52-59 | A claim hands out at most `limit` events, each once, in order of availability and then identifier. |
| `OutboxRepository.Repository.Publish` | backend/app/events/infrastructure/publishers.py:23-43 | A new event is stored pending with no attempts; an identifier already in use changes nothing. |
| `OutboxRepository.Repository.Claim` | backend/app/events/infrastructure/repositories.py:32-81 | Takes exactly the events that are due or stale, of a name asked for, not locked by others, and preferred by fewer than `limit` such events; each returned claim carries name and payload of its row, the attempt it now is, and whether it was in progress before; every other row is left alone. |
| `OutboxRepository.Repository.Lock` | backend/app/events/infrastructure/repositories.py:60-81 | The loop over the rows does that for any distinct rows, one at a time. |
| `OutboxEffects.ClaimTakesExactly` | backend/app/events/infrastructure/repositories.py:41-58 | An event is selected exactly if it has a name asked for, is not locked by others, is pending and available or in progress under a lease that has run out, and fewer than `limit` such events sort before it. |
| `OutboxEffects.ClaimDoes` | backend/app/events/infrastructure/repositories.py:61-67 | Column by column what a claim leaves of taken rows; the other rows, and the receipts, stay. |
| `OutboxRepository.Repository.MarkProcessed` | backend/app/events/infrastructure/repositories.py:83-107 | True exactly for a row in progress under this worker, which becomes published and unlocked with a receipt for this consumer; otherwise nothing changes. |
| `OutboxRepository.Repository.Release` | backend/app/events/infrastructure/repositories.py:109-121 | True exactly for a row in progress under this worker, which becomes pending and available now. |
| `OutboxRepository.Repository.MarkFailed` | backend/app/events/infrastructure/repositories.py:123-153 | True exactly for a row in progress under this worker, which fails for good if its attempts have reached the maximum and otherwise waits for its backoff. |
| `OutboxRepository.Repository.Recover` | backend/app/events/infrastructure/repositories.py:177-209 | A failed row, or one in progress past its lease, becomes pending and available now; any other row is left alone. |
| `OutboxEffects.CompletionDoes` | backend/app/events/infrastructure/repositories.py:83-107 | In any run, column by column: completing an event the worker has locked publishes it now and adds its one receipt; any other attempt changes nothing. |
| `OutboxEffects.ReleaseDoes` | backend/app/events/infrastructure/repositories.py:109-121 | Column by column for a release, and nothing for a worker without the lock. |
| `OutboxEffects.FailureDoes` | backend/app/events/infrastructure/repositories.py:133-146 | Column by column for a failure: terminal exactly from the maximum on, attempts kept, error recorded, and the delay from now. |
| `OutboxEffects.DelayDoubles` | backend/app/events/infrastructure/repositories.py:139-141 | The delay is the base in seconds after one attempt, and doubles with each further one. |
| `OutboxEffects.BackoffIsExact` | backend/app/events/infrastructure/repositories.py:136-141 | In any run, the wait after a failure is the delay for the number of claims of the event so far, and it is terminal exactly if that number has reached the maximum. |
| `OutboxEffects.RecoveryDoes` | backend/app/events/infrastructure/repositories.py:184-206 | Column by column for a recovery, exactly of failed rows and of rows under a lease that has run out. |
| `OutboxEffects.PublicationDoes` | backend/app/events/infrastructure/publishers.py:27-38 | Column by column for a new event. |
| `OutboxEffects.NameAndPayloadStay` | backend/app/events/infrastructure/repositories.py:68-76 | In any run an event keeps its name and payload, and its attempts never fall. |
| `OutboxSafety.LockedExactlyWhileProcessing` | backend/app/events/infrastructure/repositories.py:61-67 | In every reachable state an event is in progress exactly if it names a holder, exactly if it has a lock time; and it is published exactly if it has a publication time. |
| `OutboxSafety.AttemptsAreAccountedFor` | backend/app/events/infrastructure/repositories.py:61-79 | In every reachable state an event's attempts are the claims of it ever made, and also the completions, releases, failures, stale recoveries and stale re-claims of it plus one if it is in progress. |
| `OutboxSafety.CompletedExactlyOnce` | backend/app/events/infrastructure/repositories.py:83-107 | Under any interleaving of workers, crashes and recoveries, an event is completed once at most; it has exactly one receipt if it is published and none otherwise. |
| `OutboxSafety.PublishedIsForever` | backend/app/events/infrastructure/repositories.py:211-221 | No later call of any kind changes a published event, its row or its single receipt. |
| `OutboxSafety.LockNamesTheHolder` | backend/app/events/infrastructure/repositories.py:61-67 | The lock on a row is always the worker and the time of the latest claim that nothing has closed since. |
| `OutboxSafety.LeaseExcludes` | backend/app/events/infrastructure/repositories.py:41-51 | While a claim is open and its lease has not run out, no claim call takes the event, so two consecutive claims with nothing between are a lease apart; a later one is a stale re-claim. |
| `OutboxSafety.SettleNeedsTheOpenClaim` | backend/app/events/infrastructure/repositories.py:211-221 | Completing, releasing or failing an event succeeds exactly if the worker name holds the open claim, even past its lease; otherwise nothing changes. |
| `OutboxSafety.SupersededWorkerIsFenced` | backend/app/events/infrastructure/repositories.py:211-221 | Once another worker has claimed the event, every settling call of the old one fails and changes nothing until the old one claims it again. |
| `OutboxSafety.RetriesBelowCap` | backend/app/events/infrastructure/repositories.py:136-137 | With failures reported under at most `cap` attempts, fewer than `cap` of them are ever retried, in any run. |
| `OutboxSafety.TerminalFailuresAreRecovered` | backend/app/events/infrastructure/repositories.py:185-206 | Terminal failures of an event are as many as its recoveries from failure, plus one if it is failed now. |
| `OutboxSafety.FailuresAreBounded` | backend/app/events/infrastructure/repositories.py:133-153 | At most `max_attempts` failures succeed per event, plus one for each administrator recovery of a failed event. |
| `OutboxRuns.AttemptsPassAnyMaximum` | backend/app/events/infrastructure/repositories.py:64-64 | For every n, a run in which an event is attempted n + 1 times without a failure, claimed and released over and over. |
| `OutboxRuns.SettledLate` | backend/app/events/infrastructure/repositories.py:211-221 | A run in which a worker completes an event as long after its lease ran out as one likes. |
| `OutboxRuns.SettledUnderOneName` | backend/app/events/infrastructure/repositories.py:211-221 | A run in which a claim is taken over under the same worker name and the name completes it. |
| `OutboxSafety.RecoveredEventFailsForGood` | backend/app/events/infrastructure/repositories.py:136-137 | An event that has failed for good has used up its attempts, so after a recovery its next failure is terminal again. |
| `OutboxBackoff.AvailabilityBacksOff` | backend/app/events/infrastructure/repositories.py:139-141 | With clocks that do not go back and no recovery of a failed event, after k retried failures the event is not available before the first of them plus base * (2^k - 1) seconds. |
| `OutboxBackoff.NoClaimBeforeBackoff` | backend/app/events/infrastructure/repositories.py:41-51 | No claim made before that instant takes the event, whether as pending or as stale. |
| `OutboxFairness.NothingJumpsAhead` | backend/app/events/infrastructure/repositories.py:109-121 | A call with its clock past a waiting event's availability never puts a row ahead of it: released, failed and recovered rows queue behind. |
| `OutboxFairness.PassedOverMeansFewerAhead` | backend/app/events/infrastructure/repositories.py:52-59 | A claim that covers a due event but does not take it takes `limit` rows that sort before it: pending ones, which are then ahead no longer, and ones it takes over from expired leases. |
| `OutboxFairness.OvertakingIsBounded` | backend/app/events/infrastructure/repositories.py:41-81 | A due event with r pending rows ahead has been taken once (r + t) / limit + 1 claims covering it were made, t being how many rows those claims took over from expired leases, whatever other calls come between (clocks past its availability, no negative backoff, no event dated before it). |
| `SessionService.Service.Create` | backend/app/modules/identity/application/services.py:145-178 | Adds a root session of a new family, live, with count 0 and its own deadline. |
| `SessionService.Service.Rotate` | backend/app/modules/identity/application/services.py:180-242 | The exchange by itself: no stored token, reuse, expiry and rotation each leave exactly the rows the model says. |
| `SessionService.Service.Refresh` | backend/app/modules/identity/application/services.py:346-375 | Answers with a child session exactly if the presented token is stored, live and unexpired and its owner has an account that is active, not deleted, verified if required and not locked any more; on an owner who may not log in, everything of that owner is revoked. |
| `SessionService.Service.Revoke` | backend/app/modules/identity/application/services.py:393-395 | Revokes the session; reports whether it was stored and live. |
| `SessionService.Service.RevokeOwned` | backend/app/modules/identity/application/session_management.py:91-113 | Not found for someone else's session, a conflict for the current or an already revoked one, and otherwise the revocation. |
| `SessionService.Service.RevokeAll` | backend/app/modules/identity/infrastructure/persistence/repositories.py:388-402 | Revokes every session of the user and no other, and says how many were live. |
| `SessionService.Service.RevokeOthers` | backend/app/modules/identity/application/session_management.py:115-130 | Revokes the user's unexpired sessions other than the current one, and says how many were live. |
| `SessionService.Service.Cleanup` | backend/app/modules/identity/application/session_management.py:154-175 | Revokes a batch of expired sessions and deletes a batch of revoked ones past the retention that no stored session descends from; says how many of each. |
| `SessionEffects.StepKeepsIndexed` | backend/app/modules/identity/infrastructure/persistence/repositories.py:335-347 | A token finds at most one stored session, after every call. |
| `SessionEffects.ExchangedExactlyIf` | backend/app/modules/identity/application/services.py:428-442 | A rotation hands out tokens exactly if the owner has an account that is active, not deleted, verified if that is required, and not under a lock that still holds. |
| `SessionEffects.JudgedExactly` | backend/app/modules/identity/application/services.py:184-206 | A presented token is reused if its session is revoked, expired from the deadline on, and otherwise rotated. |
| `SessionEffects.UnknownExactlyIf` | backend/app/modules/identity/application/services.py:189-190 | It is unknown exactly if no stored session bears it. |
| `SessionEffects.CreateDoes` | backend/app/modules/identity/application/services.py:154-177 | Field by field the session a login adds. |
| `SessionEffects.ReuseDoes` | backend/app/modules/identity/application/services.py:191-201 | A reused token revokes the sessions of its family and no other. |
| `SessionEffects.ExpiryDoes` | backend/app/modules/identity/application/services.py:204-206 | An expired token revokes its own session and no other. |
| `SessionEffects.RotationDoes` | backend/app/modules/identity/application/services.py:208-241 | Field by field the child of a rotation; the parent is revoked, and all of the owner's sessions exactly if the owner may not log in. |
| `SessionEffects.RevocationsDo` | backend/app/modules/identity/infrastructure/persistence/repositories.py:356-483 | Exactly which sessions each plain revocation revokes. |
| `SessionEffects.CleanupDoes` | backend/app/modules/identity/infrastructure/persistence/repositories.py:538-590 | Of its batches, cleanup revokes exactly what has expired and deletes exactly what is revoked, has been expired for the retention and is nobody's parent. |
| `SessionEffects.UndisturbedStays` | backend/app/modules/identity/application/services.py:180-248 | In any run a session stays as it is until its token is presented, a token of its family is reused, its owner logs out or is refused, or cleanup finds it expired; other users and families do not matter. |
| `SessionEffects.UndisturbedIsExchanged` | backend/app/modules/identity/application/services.py:346-375 | So a live session nobody disturbs is exchanged for an owner who may log in, until its deadline. |
| `SessionEffects.RevokedIsFinal` | backend/app/modules/identity/application/services.py:393-395 | The token of a session that was revoked never yields tokens again, in any later run. |
| `SessionSafety.InvHolds` | backend/app/modules/identity/application/services.py:145-242 | In every run: stored sessions are ledger entries, tokens are distinct, every session succeeds its parent by one in the same family, a family has one owner and one deadline, only its last session is live, and the parent of a stored session is stored. |
| `SessionTheorems.FamilyIsOneChain` | backend/app/modules/identity/application/services.py:210-241 | All the sessions a family ever had form one chain: exactly one at each rotation count, the first without parent, each the child of the one before, with one owner and one deadline. |
| `SessionTheorems.StoredFamilyIsAPrefix` | backend/app/modules/identity/infrastructure/persistence/repositories.py:561-590 | After any cleanups, what is stored of a family is a beginning of its chain. |
| `SessionTheorems.OnlyTheLastIsLive` | backend/app/modules/identity/application/services.py:208-241 | At most one session of a family is live, and it is the last one the family ever had. |
| `SessionTheorems.DeadlineIsInherited` | backend/app/modules/identity/application/services.py:239-239 | Every session of a family expires when the family's first login said. |
| `SessionTheorems.ExchangedAtMostOnce` | backend/app/modules/identity/application/services.py:191-209 | In any run, a token is exchanged for new ones once at most. |
| `SessionTheorems.ReuseKillsTheFamily` | backend/app/modules/identity/application/services.py:191-201 | Presenting any stored revoked token leaves its family without a live session, in every later state. |
| `SessionTheorems.UnexpiredAreKept` | backend/app/modules/identity/application/session_management.py:154-164 | With clocks that do not go back, whatever batches cleanup deletes, a family whose deadline has not passed still has every session it ever had. |
| `SessionTheorems.ReuseIsAlwaysDetected` | backend/app/modules/identity/application/services.py:189-206 | Until the deadline, presenting any token the family was ever given is either the exchange of its last, live session or detected as reuse, which kills the family. |
| `SessionTheorems.CutOffIsFinal` | backend/app/modules/identity/application/services.py:346-361 | After all sessions of a user are revoked, by logging out everywhere or a refresh while not eligible, no token issued to the user before yields tokens again, in any later run. |
| `SessionTheorems.OthersAreCutOff` | backend/app/modules/identity/application/session_management.py:115-121 | After the other sessions of a user are revoked, no token issued to the user before but the current session's yields tokens again, in any later run with a clock that does not go back. |
| `SessionOverlaps.LateRevocationCutsOffExactlyIf` | backend/app/modules/identity/infrastructure/persistence/repositories.py:388-402 | A revocation of all sessions that acts on the rows it began with leaves the user without a live session exactly if every session that calls added for the user meanwhile has been revoked or removed again. |
| `SessionOverlaps.RotationOutlivesTheRevocation` | backend/app/modules/identity/application/services.py:208-241 | A rotation that commits while the revocation waits: its child stays live and its new token can be exchanged. |
| `AccountSecurity.SidesOfARun` | backend/app/modules/identity/application/account_security.py:276-288 | A run of changes, resets and session calls is a run of the password model and a run of the session model in step. |
| `AccountSecurity.StepsTogether` | backend/app/modules/identity/application/account_security.py:276-288 | Each joint step is a step of the password model together with exactly the revocation that goes with it. |
| `AccountSecurity.ResetCutsOff` | backend/app/modules/identity/application/account_security.py:348-359 | After an accepted password reset, no refresh token issued to the user before ever yields a session again, in any later run. |
| `AccountSecurity.ChangeCutsOffOthers` | backend/app/modules/identity/application/account_security.py:276-288 | After an accepted password change, no refresh token issued to the user before, but that of the session it was made from, yields a session again, in any later run with a clock that does not go back. |
| `AccountSecurity.Service.ChangePassword` | backend/app/modules/identity/application/account_security.py:251-288 | The change of the password and the revocation of the user's other sessions happen together or not at all. |
| `AccountSecurity.Service.ResetPassword` | backend/app/modules/identity/application/account_security.py:328-359 | The reset, the end of the user's tokens and the revocation of all the user's sessions happen together or not at all. |
| `CartService.Service.Create` | backend/app/modules/cart/application/services.py:124-126 | A new active cart at version 1 without items, and one event about it; the checks before it are in `CheckoutService.Service.OpenCart`. |
| `CheckoutService.Service.OpenCart` | backend/app/modules/cart/application/services.py:117-127 | Opens a cart exactly if the currency is known, its expiry is in the future, the store is open and the customer has no active cart there; each refusal as in the source's order of checks. |
| `CartService.Service.Touch` | backend/app/modules/cart/infrastructure/repositories.py:102-117 | Succeeds exactly on the owner's undeleted active cart at the expected version, and then takes the version up by one. |
| `CartService.Service.Transition` | backend/app/modules/cart/infrastructure/repositories.py:119-140 | The same check for a change of status; the check-out time is set exactly for a check-out. |
| `CartService.Service.AddItem` | backend/app/modules/cart/application/services.py:140-177 | Adds the item and touches the cart, or leaves rows and outbox as they were; refuses for the first reason in the source's order of checks. |
| `CartService.Service.UpdateItem` | backend/app/modules/cart/application/services.py:179-221 | Changes quantity and snapshots of a live item at its expected version and touches the cart, or leaves everything as it was; refuses for the first reason in the source's order of checks. |
| `CartService.Service.RemoveItem` | backend/app/modules/cart/application/services.py:223-255 | Archives a live item at its expected version and touches the cart, or leaves everything as it was; refuses for the first reason in the source's order of checks. |
| `CartService.Service.Delete` | backend/app/modules/cart/application/services.py:257-276 | Abandons the cart and archives all its live items, or leaves everything as it was; refuses for the first reason in the source's order of checks. |
| `CartService.Service.CheckOut` | backend/app/modules/cart/application/services.py:291-311 | Checks out an active, unexpired, non-empty cart at the expected version, or leaves everything as it was; refuses for the first reason in the source's order of checks. |
| `CartService.Service.Expire` | backend/app/modules/cart/application/services.py:313-331 | Expires an active cart past its deadline at the expected version, or leaves everything as it was; refuses for the first reason in the source's order of checks. |
| `CartEffects.SucceedsExactlyIf` | backend/app/modules/cart/application/services.py:140-331 | Exactly when each of the six calls succeeds, in terms of the rows, the offer, the time and the versions named. |
| `CartEffects.RefusedExactlyFor` | backend/app/modules/cart/application/services.py:140-331 | Exactly when a refused call reports something missing, a quantity that is none, or else a conflict. |
| `CartEffects.WriteDoes` | backend/app/modules/cart/infrastructure/repositories.py:102-311 | Field by field what each call leaves: the quantity asked for, the price and stock offered, the times of removal and check-out; every other item as it was. |
| `CartEffects.EventsAre` | backend/app/modules/cart/application/services.py:174-176 | The events each call writes, in order. |
| `CartEffects.ItemsStay` | backend/app/modules/cart/infrastructure/repositories.py:257-311 | In every interleaving an item stays as it is until a call that concerns it commits. |
| `CartEffects.CommittedQuantityStays` | backend/app/modules/cart/application/services.py:179-221 | After an addition or an update has committed, the item carries the quantity asked for and the price offered until the next committed call that concerns it, whatever other clients do. |
| `CartInterleaving.AlwaysSound` | backend/app/modules/cart/infrastructure/repositories.py:102-174 | Whatever interleaves, what a call in flight has read is either current or of an older version. |
| `CartInterleaving.CommitIsAtomicExactlyIf` | backend/app/modules/cart/infrastructure/repositories.py:102-174 | A call that commits does exactly what it would have done alone at that moment, with the events it would have written, except that it may check out a cart emptied since its items were read; alone it would then have been refused. |
| `CartInterleaving.CommitIsAtomic` | backend/app/modules/cart/infrastructure/repositories.py:163-174 | A call that names no version beyond the one it read is atomic without exception. |
| `CartInterleaving.OneVersionPerCommit` | backend/app/modules/cart/infrastructure/repositories.py:113-117 | In every interleaving each commit takes the version up by one, so no two commits share a version. |
| `CartInterleaving.SerializableExactlyIf` | backend/app/modules/cart/application/services.py:140-331 | An interleaving of reads and writes of any number of clients ends in the state and the outbox of the serial run of its committed calls exactly if no commit checks out a cart emptied meanwhile; otherwise that serial run does not even succeed. |
| `CartInterleaving.Serializable` | backend/app/modules/cart/application/services.py:140-331 | If no client names a version that the cart has not reached when its call begins, every interleaving ends in the state and the outbox of the serial run of its committed calls: no update is lost. |
| `CartInterleaving.EmptiedCartIsCheckedOut` | backend/app/modules/cart/application/services.py:291-311 | A schedule in which a client who guesses the next version checks out a cart that has just been emptied. |
| `CartInterleaving.CommitsExactlyIfUnchanged` | backend/app/modules/cart/infrastructure/repositories.py:102-174 | A call in flight that names no version beyond the one it read commits exactly if the cart is still at that version, read and named, and the call would succeed alone now. |
| `CartInterleaving.StaleCallsFail` | backend/app/modules/cart/application/services.py:211-218 | Such a call fails and changes nothing if its cart changed after it was read. |
| `CartReplay.EventsTellTheChange` | backend/app/modules/cart/application/services.py:387-401 | The events of a call tell exactly what it did to the status and the set of live items. |
| `CartReplay.OutboxRebuildsTheCart` | backend/app/modules/cart/application/services.py:117-331 | In every interleaving, folding the cart's events in order rebuilds its status and its exact set of live items. |
| `CartReplay.OutboxCoversEveryVersion` | backend/app/modules/cart/application/services.py:387-401 | The versions in a cart's events are in order and cover 1 to the current version without a gap. |
| `Checkout.ListedOnce` | backend/app/modules/cart/infrastructure/repositories.py:226-237 | Listing a cart names each live item once, by time of addition and then identifier. |
| `CheckoutService.Service.PrepareItems` | backend/app/modules/checkout/application/services.py:119-121 | The loop over the items gives their lines in order, or the first refusal. |
| `CheckoutService.PrepareStops` | backend/app/modules/checkout/application/services.py:267-303 | Once an item is refused, so is every longer list, for the same reason. |
| `CheckoutService.Service.Sum` | backend/app/modules/checkout/application/services.py:122-125 | The loop computes the sum of unit price times quantity. |
| `CheckoutService.Service.Begin` | backend/app/modules/checkout/application/services.py:111-151 | Stores one open session with the prepared lines; its subtotal is the total over the cart's items of quoted price times quantity. Leaves everything as it was otherwise, also when promotions refuse at the end; refuses for the first reason in the source's order of checks. |
| `CheckoutService.Service.Transition` | backend/app/modules/checkout/infrastructure/repositories.py:85-106 | Succeeds exactly on the owner's undeleted open session at the expected version; the completion time is set exactly for a confirmation. |
| `CheckoutService.Service.Confirm` | backend/app/modules/checkout/application/services.py:163-188 | Confirms the session and checks out its cart together, or leaves both as they were; refuses for the first reason in the source's order of checks. |
| `CheckoutService.Service.Cancel` | backend/app/modules/checkout/application/services.py:190-208 | Cancels an open, unexpired session at the expected version, or leaves everything as it was; refuses for the first reason in the source's order of checks. |
| `CheckoutService.Service.Access` | backend/app/modules/checkout/application/services.py:248-265 | Reading an overdue open session expires it, so what is returned open is not overdue. |
| `CheckoutTotals.SubtotalOfOne` | backend/app/modules/checkout/application/services.py:122-125 | The subtotal of one line is its unit price times its quantity. |
| `CheckoutTotals.SubtotalOfBoth` | backend/app/modules/checkout/application/services.py:122-125 | Subtotals add up. |
| `CheckoutTotals.TotalTakesAnyFirst` | backend/app/modules/checkout/application/services.py:122-125 | The total over a set of items does not depend on the order in which they are taken. |
| `CheckoutTotals.FrozenTotal` | backend/app/modules/checkout/application/services.py:122-125 | The subtotal of frozen lines is that total over the items in the cart, at the quoted prices. |
| `CheckoutEffects.AllPreparedExactlyIf` | backend/app/modules/checkout/application/services.py:267-303 | Preparing succeeds exactly if every item is still offered as its product and enough is in stock. |
| `CheckoutEffects.OpeningDoes` | backend/app/modules/cart/application/services.py:54-73 | What opening a cart comes to, refusals included; the default lifetime is thirty days. |
| `CheckoutEffects.BeginSucceedsExactlyIf` | backend/app/modules/checkout/application/services.py:111-148 | Exactly when a session begins, in terms of the cart, its items, the quotes, the time and the sessions there are; the default lifetime is fifteen minutes. |
| `CheckoutEffects.BeginRefusedFor` | backend/app/modules/checkout/application/services.py:111-148 | Why a beginning is refused, in the order of the checks. |
| `CheckoutEffects.BeginDoes` | backend/app/modules/checkout/application/services.py:126-142 | Field by field the session that begins; nothing else changes. |
| `CheckoutEffects.ConfirmDoes` | backend/app/modules/checkout/application/services.py:163-188 | What a confirmation comes to, refusals included, field by field for session and cart. |
| `CheckoutEffects.CancelDoes` | backend/app/modules/checkout/application/services.py:190-206 | What a cancellation comes to, refusals included, field by field. |
| `CheckoutEffects.AccessDoes` | backend/app/modules/checkout/application/services.py:248-265 | What reading comes to: exactly an overdue open session is expired. |
| `CheckoutEffects.CancelledForGood` | backend/app/modules/checkout/infrastructure/repositories.py:108-127 | In any later run a cancelled session stays cancelled and is not found by any call. |
| `CheckoutSafety.OneSessionPerCart` | backend/app/modules/checkout/application/services.py:115-116 | In every run a cart has at most one checkout session ever, cancelled and expired ones included. |
| `CheckoutSafety.OneActiveCartPerStore` | backend/app/modules/cart/application/services.py:122-123 | In every run a customer has at most one active cart in a store. |
| `CheckoutSafety.SnapshotsAreFrozen` | backend/app/modules/checkout/infrastructure/repositories.py:85-127 | A session is never removed; its items, subtotal and deadline never change; once it is no longer open nothing about it does. |
| `CheckoutSafety.SessionsRecordTheirBeginning` | backend/app/modules/checkout/application/services.py:111-151 | At any later time a session's lines are the live items its cart had when the session began, item for item in product, variant and quantity, at the prices resolved then, and the subtotal is the total of price times quantity over those items. |
| `CheckoutDrift.ItemsSameExactlyIfVersionSame` | backend/app/modules/cart/infrastructure/repositories.py:102-117 | While a cart is active, its items are what they were at an earlier point of the run exactly if its version is. |
| `CheckoutDrift.CartsAdvance` | backend/app/modules/cart/infrastructure/repositories.py:257-311 | From an earlier point of a run to a later one, no item of a cart goes, no version falls, and an active cart at a higher version has an item that is new or at a higher version. |
| `CheckoutDrift.LinesMatchAtTheSameVersion` | backend/app/modules/checkout/application/services.py:117-151 | If the cart still is at the version it had when the session began, the session's lines are its live items now, at the prices resolved then. |
| `CheckoutDrift.ConfirmationSellsTheCart` | backend/app/modules/checkout/application/services.py:163-188 | A confirmation at that version checks out exactly what the lines sell. |
| `CheckoutDrift.LateItemIsSoldByNoLine` | backend/app/modules/checkout/application/services.py:184-185 | In any shop in which a session can be confirmed, an item added before, of a variant in no line, is checked out with the cart and sold by no line. |
| `CheckoutDrift.LateItemRun` | backend/app/modules/checkout/application/services.py:184-185 | The same as a run from empty tables. |
| `CheckoutSafety.ConfirmedMeansCheckedOut` | backend/app/modules/checkout/application/services.py:163-188 | A confirmed session was completed before its deadline, and its cart is checked out. |
| `CheckoutSafety.NoLateConfirmation` | backend/app/modules/checkout/application/services.py:172-173 | With a clock that does not go back, a session that is not confirmed by its deadline never is. |
| `CheckoutSafety.CartIsUsedUp` | backend/app/modules/checkout/infrastructure/repositories.py:36-44 | Cancelling or expiring does not free the cart: no later call begins another session for it. |
| `Categories.Climb` | backend/app/modules/catalogs/application/taxonomy_services.py:79-87 | The loop ends on every parent graph, cyclic ones included, and accepts exactly if the chain of parents reaches a root without meeting the category. |
| `Categories.ValidateParent` | backend/app/modules/catalogs/application/taxonomy_services.py:67-87 | Accepts exactly: no parent, or a parent of the same store that is not archived and whose chain of parents reaches a root without meeting the category. |
| `Categories.NoRepeats` | backend/app/modules/catalogs/application/taxonomy_services.py:79-87 | A chain of parents that reaches a root meets nothing twice. |
| `Categories.PathIsUnique` | backend/app/modules/catalogs/infrastructure/taxonomy_repositories.py:49-54 | There is at most one chain of parents from a category to a root. |
| `Categories.MoveKeepsForestExactlyIf` | backend/app/modules/catalogs/infrastructure/taxonomy_repositories.py:155-196 | Writing a new parent keeps the parent relation acyclic exactly if, in the tree it is written to, the parent's chain does not pass through the moved category. |
| `Categories.SerialRunsKeepTheForest` | backend/app/modules/catalogs/application/taxonomy_services.py:96-162 | Every serial run of creations, updates and archivings keeps the parent relation acyclic and every parent in its child's store. |
| `Categories.InterleavedMovesCloseExactlyIf` | backend/app/modules/catalogs/application/taxonomy_services.py:129-162 | Two moves of different categories, each accepted in the tree both were validated against, close a cycle when both are written exactly if each category is above the other's new parent there; neither fails for its version. |
| `Categories.InterleavedMovesCanClose` | backend/app/modules/catalogs/application/taxonomy_services.py:136-154 | An instance: two roots moved under each other. |
| `Categories.Service.Create` | backend/app/modules/catalogs/application/taxonomy_services.py:96-118 | Creates exactly if the parent is acceptable and the other checks pass; otherwise nothing changes. |
| `Categories.Service.Update` | backend/app/modules/catalogs/application/taxonomy_services.py:129-162 | Updates exactly if the category is current and a mentioned parent is acceptable; a parent that is not mentioned stays. |
| `Categories.Service.Archive` | backend/app/modules/catalogs/infrastructure/taxonomy_repositories.py:198-238 | Archives exactly a category that is not archived yet, at the given version. |
| `Categories.AcceptableExactlyIf` | backend/app/modules/catalogs/application/taxonomy_services.py:67-87 | A parent is acceptable exactly if it is a category of the store, not archived, whose parents lead up to a root and not through the category. |
| `Categories.UpdateDoes` | backend/app/modules/catalogs/infrastructure/taxonomy_repositories.py:155-196 | Field by field what an update leaves: the parent it mentions or else the old one, and the next version; exactly when it is accepted. |
| `Categories.ArchiveDoes` | backend/app/modules/catalogs/infrastructure/taxonomy_repositories.py:212-238 | Field by field what archiving leaves, and exactly when it is accepted. |
| `Categories.ParentStays` | backend/app/modules/catalogs/application/taxonomy_services.py:136-154 | In any run a category stays under its parent until an update mentions another. |
| `AttributeMigration.Migration.FindOrAddAttribute` | backend/migrations/versions/4b6c8e0a2d35_normalize_variant_attributes.py:293-323 | The attribute row of a store and name: the one there is, with nothing changed, or a new one and no other. |
| `AttributeMigration.Migration.FindOrAddValue` | backend/migrations/versions/4b6c8e0a2d35_normalize_variant_attributes.py:324-350 | The value row of an attribute and value: the one there is, with nothing changed, or a new one and no other. |
| `AttributeMigration.Migration.BackfillOne` | backend/migrations/versions/4b6c8e0a2d35_normalize_variant_attributes.py:289-369 | The loop links the variant to values that read exactly its attributes, and signs it by those values; other variants keep theirs. |
| `AttributeMigration.Migration.Backfill` | backend/migrations/versions/4b6c8e0a2d35_normalize_variant_attributes.py:277-369 | The loop over all variants leaves every one of them linked to exactly its attributes, with its signature, and nothing stored twice. |
| `AttributeMigration.SignaturesTellAttributesApart` | backend/migrations/versions/4b6c8e0a2d35_normalize_variant_attributes.py:454-456 | Two variants of a store have equal new signatures exactly if their attributes are equal; across stores exactly if both have none. |
| `AttributeMigration.Migration.Gather` | backend/migrations/versions/4b6c8e0a2d35_normalize_variant_attributes.py:376-387 | The loop fills a dictionary from the joined rows under folded names. |
| `AttributeMigration.Migration.Restore` | backend/migrations/versions/4b6c8e0a2d35_normalize_variant_attributes.py:372-401 | Every variant is given the dictionary of its rows and the signature of that dictionary. |
| `AttributeMigration.RowsAreTheAttributes` | backend/migrations/versions/4b6c8e0a2d35_normalize_variant_attributes.py:376-387 | The joined rows of a backfilled variant are its attributes, name for name and value for value. |
| `AttributeMigration.GatheredExactlyIfFolded` | backend/migrations/versions/4b6c8e0a2d35_normalize_variant_attributes.py:387-387 | A dictionary gathered from an attribute map under folded names, in any order, is that map exactly if all its names are folded. |
| `AttributeMigration.RoundTripExactlyIfFolded` | backend/migrations/versions/4b6c8e0a2d35_normalize_variant_attributes.py:277-401 | Restoring after backfilling returns a variant's original attributes exactly if all its names were folded to begin with. |
| `AttributeMigration.Migration.UpgradeAndDowngrade` | backend/migrations/versions/4b6c8e0a2d35_normalize_variant_attributes.py:277-401 | Backfilling and then restoring gives each variant its original attributes back exactly if all its names were folded to begin with. |
| `AttributeMigration.UnfoldedNameIsLost` | backend/migrations/versions/4b6c8e0a2d35_normalize_variant_attributes.py:387-387 | A variant with the one attribute "Size" comes back with "size" instead. |
| `RateLimiter.CounterTells` | backend/app/common/rate_limiting/redis.py:15-22 | In every run the counter of a key says how many requests passed since its window opened, and bounds how many passed since any earlier instant up to a window before. |
| `RateLimiter.SlidingBound` | backend/app/common/rate_limiting/redis.py:46-62 | In any half-open interval as long as the window, at most 2 * limit - 1 requests on a key pass. |
| `RateLimiter.SlidingBoundIsTight` | backend/app/common/rate_limiting/redis.py:46-62 | That bound is reached, for every policy. |
| `RateLimiter.RefusedExactlyWhenUsedUp` | backend/app/common/rate_limiting/redis.py:55-62 | A request is refused exactly if `limit` requests have passed since the current window opened. |
| `RateLimiter.Limiter.Check` | backend/app/common/rate_limiting/redis.py:40-62 | Every decision satisfies the decision's own checks, counts one request on this key alone, tells what is left, and names a wait exactly if it refuses, to the second in which the window ends; a scope without a policy raises. |
| `Passwords.Service.MatchesRecent` | backend/app/modules/identity/application/account_security.py:426-443 | The loop finds a match exactly if the candidate is the current password or among the last `depth` replaced ones. |
| `Passwords.Service.ChangePassword` | backend/app/modules/identity/application/account_security.py:251-288 | Replaces the hash and files the old one exactly if the current password is right and the new one is allowed; the sessions are in `AccountSecurity.Service.ChangePassword`. |
| `Passwords.Service.ResetPassword` | backend/app/modules/identity/application/account_security.py:328-358 | The same for an unused, unexpired token of an undeleted user, spending every token of that user; the sessions are in `AccountSecurity.Service.ResetPassword`. |
| `Passwords.Service.RequestReset` | backend/app/modules/identity/application/account_security.py:297-312 | Spends the user's tokens and issues one, exactly for an active, undeleted user. |
| `Passwords.HistoryIsComplete` | backend/app/modules/identity/application/account_security.py:276-283 | While an account lives, its history and current hash are exactly the passwords it ever had, in order. |
| `Passwords.WindowIsDistinct` | backend/app/modules/identity/application/account_security.py:426-449 | Over any run of changes and resets, any history_depth + 2 consecutive passwords of a user are pairwise distinct. |
| `Passwords.ResetSpendsAllTokens` | backend/app/modules/identity/application/account_security.py:348-359 | After a reset or a new request, no token issued to the user before ever resets a password again. |
| `PasswordEffects.RecentExactlyIf` | backend/app/modules/identity/application/account_security.py:432-443 | A candidate is recently used exactly if it is among the last depth + 1 passwords on record. |
| `PasswordEffects.ChangeAcceptedExactlyIf` | backend/app/modules/identity/application/account_security.py:259-274 | A change is accepted exactly if the account exists, the caller names its password, and the new one may replace it. |
| `PasswordEffects.ChangeNamesTheLastPassword` | backend/app/modules/identity/application/account_security.py:259-283 | In any run, a living account's password is changed exactly if the caller names the last one it was given, and the new one keeps the rules and is none of the last depth + 1. |
| `PasswordEffects.StandingIsStored` | backend/app/modules/identity/application/account_security.py:302-312 | A token can still be used exactly if it was given on request and its owner has since neither been given another nor reset the password, and it was not deleted as expired. |
| `PasswordEffects.ResetNeedsAStandingToken` | backend/app/modules/identity/application/account_security.py:334-358 | In any run, a reset is accepted exactly if its token still stands and has not expired, its owner is not deleted, and the new password may replace the old. |
| `PasswordEffects.ChangeDoes` | backend/app/modules/identity/application/account_security.py:275-288 | Field by field what a change leaves. |
| `PasswordEffects.ResetDoes` | backend/app/modules/identity/application/account_security.py:347-358 | Field by field what a reset leaves. |
| `PasswordEffects.RequestDoes` | backend/app/modules/identity/application/account_security.py:297-312 | Field by field what a request leaves, exactly for an active, undeleted account. |
| `PasswordEffects.DeletionDoes` | backend/app/modules/identity/infrastructure/persistence/repositories.py:795-811 | Deletion removes exactly the expired tokens of its batch. |
| `Permissions.UserGrantsAreLocal` | backend/app/modules/identity/infrastructure/persistence/repositories.py:288-319 | Changing one user's roles alters no other user's snapshot. |
| `Permissions.SnapshotIs` | backend/app/modules/identity/infrastructure/persistence/repositories.py:288-319 | A user has exactly the roles given to the user, and exactly the permissions given to one of them. |
| `Permissions.AcceptedExactlyIf` | backend/app/modules/identity/application/authorization.py:219-352 | Exactly when each grant call is accepted. |
| `Permissions.GrantsDo` | backend/app/modules/identity/infrastructure/persistence/repositories.py:250-286 | Each accepted call gives or takes exactly what it names. |
| `Permissions.InvalidationsDo` | backend/app/modules/identity/infrastructure/authorization_cache.py:60-73 | An invalidation that arrives moves one user's key or everybody's and touches no entry; one that does not arrive changes nothing. |
| `Permissions.AlwaysGood` | backend/app/modules/identity/infrastructure/authorization_cache.py:60-90 | In every run in which invalidations reach the cache, every snapshot a lookup can find is the user's roles and the union of their permissions in the database, and nothing lies under a key not reached yet. |
| `Permissions.AnswersAreAuthoritative` | backend/app/modules/identity/application/authorization.py:72-87 | The resolver always answers with what the database says now, whatever was cached, evicted, or could not be read or stored. |
| `PermissionFailures.AffectsExactlyIf` | backend/app/modules/identity/infrastructure/persistence/repositories.py:288-319 | A call changes a user's snapshot exactly if it gives or takes a role of this user that was not or was held, or a permission of a held role that no other held role carries. |
| `PermissionFailures.LostInvalidationIsSafeExactlyIf` | backend/app/modules/identity/infrastructure/authorization_cache.py:60-73 | When the invalidation of any of the five grant calls is lost, the cache stays coherent exactly if the call affects no user who has a snapshot cached. |
| `PermissionFailures.LostInvalidationIsSafeExactlyIfNotCached` | backend/app/modules/identity/application/authorization.py:237-255 | For a role assignment: exactly if nothing is cached for the user. |
| `PermissionFailures.LostRevocationIsSafeExactlyIf` | backend/app/modules/identity/application/authorization.py:265-287 | For a role revocation: exactly if the user did not have the role or nothing is cached for the user. |
| `PermissionFailures.LostPermissionIsSafeExactlyIf` | backend/app/modules/identity/application/authorization.py:289-312 | For a permission assignment: exactly if every cached holder of the role has the permission already. |
| `PermissionFailures.LostPermissionRevocationIsSafeExactlyIf` | backend/app/modules/identity/application/authorization.py:322-342 | For a permission revocation: exactly if the role did not have it, or every cached holder of the role has it through another role. |
| `PermissionFailures.LostRegistrationIsSafe` | backend/app/modules/identity/application/authorization.py:219-235 | For the registration of a permission: always. |
| `PermissionFailures.StaleAnswer` | backend/app/modules/identity/infrastructure/authorization_cache.py:60-64 | A run in which a lost invalidation makes the resolver miss a role the user has. |
| `PermissionFailures.RevokedRoleIsServed` | backend/app/modules/identity/infrastructure/authorization_cache.py:60-64 | A run in which a role is taken away, the invalidation is lost, and the resolver still answers with the role. |
| `PermissionFailures.RenewalRestores` | backend/app/modules/identity/infrastructure/authorization_cache.py:43-73 | However wrong the cache is, evicting the user's entry, the next invalidation that arrives, or a lookup that stores puts it right for that user. |
| `PermissionFailures.AnswersFollowTheUser` | backend/app/modules/identity/application/authorization.py:72-87 | The answers about a user are what the database says now if nothing has affected this user since the last such renewal, whatever is lost for others. |
| `PermissionFailures.StoringIsSafeExactlyIfCurrent` | backend/app/modules/identity/infrastructure/authorization_cache.py:43-58 | Storing a snapshot under the current key keeps a coherent cache coherent exactly if it is the user's snapshot now. |
| `PermissionFailures.OverlappedLookupIsSafeExactlyIf` | backend/app/modules/identity/application/authorization.py:72-87 | A lookup that reads at one point of a run and stores at a later one keeps the cache coherent exactly if the calls in between gave or took each role and each permission of the user an even number of times, even with every invalidation delivered. |
| `PermissionFailures.OverlappedLookupIsSafe` | backend/app/modules/identity/application/authorization.py:72-87 | So it does if none of the calls in between affects the user. |
| `PermissionFailures.OverlappedLookupGoesStale` | backend/app/modules/identity/infrastructure/authorization_cache.py:43-58 | If exactly one of them affects the user, of whatever kind and wherever it comes, the cache is no longer coherent. |
| `PermissionFailures.CommittingIsSafeExactlyIf` | backend/app/modules/identity/application/authorization.py:373-379 | When a grant becomes visible after its invalidation went out, the cache is coherent afterwards exactly if the grant affects no user who has a snapshot cached by then. |
| `PermissionFailures.LookupBetweenIsHarmlessExactlyIf` | backend/app/modules/identity/application/authorization.py:237-255 | So whatever calls come between, it is coherent exactly if no lookup among them has left a snapshot of a user the grant affects. |
| `PermissionFailures.RevocationBehindALookup` | backend/app/modules/identity/application/authorization.py:265-277 | One lookup between the invalidation and the commit of a revocation, and the role is served after both. |
| `Permissions.Service.Resolve` | backend/app/modules/identity/application/authorization.py:72-87 | Answers from the current key if it is readable and filled, and otherwise from the database, filling the key if it can. |
| `Permissions.Service.AssignRole` | backend/app/modules/identity/application/authorization.py:237-255 | Grants an existing role that the user lacks and moves the user's key. |
| `Permissions.Service.RevokeRole` | backend/app/modules/identity/application/authorization.py:265-277 | Removes the role if the user has it, and moves the user's key either way. |
| `Permissions.Service.AssignPermission` | backend/app/modules/identity/application/authorization.py:289-312 | Grants an existing permission that the role lacks and moves every key. |
| `Permissions.Service.RevokePermission` | backend/app/modules/identity/application/authorization.py:322-342 | Removes the permission if the role has it, and moves every key either way. |

## Left out

- Outbox: aggregate, version, `updated_at`, `dispatched` and the inspection listing; normalization of error texts; datetime overflow of very long backoffs. The ordered and limited SELECT is a pure selection, whose order is proved; row locks held by others are an argument of the claim.
- OutboxBackoff.AvailabilityBacksOff: assumes no administrator recovery of a failed event, which makes the event available at once.
- OutboxFairness.OvertakingIsBounded: assumes the conditions named in its row; a claim that finds the event's own row locked by another transaction does not count as covering it.
- AccountSecurity.ResetCutsOff: takes each session, change and reset call as one step, as the other session theorems do; a revocation overlapping other calls is in `SessionOverlaps`.
- Refresh sessions: device, risk and display fields, renaming, activity updates, metrics and published events. Token hashing is injective and generators never repeat a value. A cleanup batch is any set of rows, which covers every limit, order and skipped lock. A login's credential check is not part of the session model: it may create a session for anyone.
- SessionService.Service.Cleanup: leaves the size and the order of a batch open, because every batch is covered.
- Carts: one cart per state of `Cart.State`. Prices and stock are inputs of a call. A call's writes are one step: item rows are written shortly before the cart row in the source, but a commit in between makes the cart write miss, unless it leads to the very version the client named. A version that no longer matches is reported as a conflict. The mapper's version column, which can refuse further writes when the row read before is still held, is not modelled. Two live items of one variant are refused by the write, as the unique index does.
- Checkouts: promotions are one boolean, so discounts, the final total and coupon codes are absent; so are currency, store and inventory identifiers of a line and the session's own events.
- CheckoutService.Service.Begin: promotions are one boolean, as above.
- Checkouts over interleavings: each checkout call is one step here; only the calls on a cart are split into reading and writing.
- Categories: names, slugs, ownership and product assignment are one boolean of a call. Reordering a collection is not modelled: it writes independent rows.
- Categories.Service.Create: does not tell ownership, name and slug checks apart, because none of them reads or writes a parent.
- Categories.Service.Update: the same.
- Categories.Service.Archive: leaves out the check of access to the store, for the same reason.
- AttributeMigration.Migration.FindOrAddAttribute: leaves out the slug and the sort order.
- AttributeMigration.Migration.FindOrAddValue: leaves out the slug and the sort order.
- AttributeMigration: slugs, sort order and the other columns are absent, and so is the failure of the migration when two values get the same slug. Names are visited in any order rather than sorted. SHA-256 is injective, and casefolding is any function that is the same when applied twice.
- RateLimiter: Redis never loses a counter; a counter lives while now is before its deadline; remaining life is rounded to the nearest second.
- Passwords: policy rules are one boolean. A salted hash verifies exactly the password it was made from. History is ordered by the order of calls. The flags of an account appear in the password model and in the session model, and joint runs do not tie them together. Lockout durations and e-mail verification are not modelled.
- Permissions.AnswersAreAuthoritative: takes a grant, its invalidation and its commit as one step; the steps apart are in `PermissionFailures`.
- Permissions: the counters in the keys are not evicted, and expiry of a snapshot is an eviction. Decisions built on a snapshot (any, all, role) are not modelled: they are set tests.
- Catalogs, products, orders, payments, inventory, reservations, shipments and the web applications are not modelled.
