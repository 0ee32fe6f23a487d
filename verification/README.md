# Client pairing, user lifecycle and the sequential cores of a portfolio server, in Dafny

The server lets command-line clients read balances. A client *starts* a pairing and gets an identifier and
a short code; a signed-in user *approves* it; the client *claims* it with its key, which writes a display
name to the user's database and a capability to the application database. From then on requests with that
key are authorised until the capability is revoked or expires. Behind this stands a registry of user
lifecycles: request leases, an exclusive guard per user, capability shutdowns, pinned browser sessions, and
the closing of a user's database when nothing needs it any more.

The project models these protocols, and three sequential cores beside them, and proves what they guarantee
over every run.

| files | what they hold |
|---|---|
| `Registry`, `LifecycleRegistry` | the registry's critical sections as functions, and the registry object whose methods are those sections |
| `Protocol`, `ProtocolInvariant`, `ProtocolTheorems`, `ProtocolWrites`, `ProtocolEffects` | threads that interleave critical sections and database calls, with wait loops, notifications, spurious wakeups and restarts |
| `Codes`, `RateLimiter`, `Pairing`, `PairingRuns`, `PairingAnswers`, `StartLimits`, `PairingStoreObject` | the pairing store as functions over every sequence of operations, its answers, limits and hints, and the store object with its loops |
| `Activation` | the two-database activation with compensation, every call of which may work, fail, or fail after taking effect |
| `World`, `WorldInvariant`, `WorldTheorems`, `WorldUndisturbed`, `WorldShadowing`, `WorldLimits` | all of the above in one state machine: the store's lock is held across an approval and an activation while other threads run |
| `AccountModes` | account modes under two allowances |
| `Sorting`, `Catalog`, `ManualSearch` | the stable sort, the asset catalogue and the two searches over it |
| `Amounts` | amount splitting and decimal printing |

A step system is a total function of state and event: an event that is not enabled changes nothing, so that
a run is any sequence of events and a theorem about all sequences is a theorem about all interleavings. A
condition variable is a set of sleeping threads and a count of notifications that are owed because they come
after the lock is released. A restart may happen anywhere and leaves only the databases. Database calls,
clocks, generated identifiers and the outcome of closing a database are parameters of the events.

## Where the code falls short of what one would expect

Each of these is proved, with the condition under which the code does keep the property.

- **A revocation and a login can stop each other for good.** The revoking handler holds the lease of its own
  browser session (`src/backend/session_context.rs:78-80`) while it waits to block the capability; a thread
  that has claimed the exclusive flag waits for that lease. `RevocationCanDeadlock` reaches the state,
  `EmbraceIsForever` shows that only a restart ends it, and `ProgressExactly` that nothing else can stop all
  waiters of a user.
- **The rate limits hold for a clock that never goes back, and only then.** `StartRateBound` gives the window
  that remains when the clock goes back by a bounded amount; `FullWindowExactly` shows that the full
  ten-minute window of a source holds in every run if and only if that amount is zero.
- **A durable capability can lose its stored name** when the write of the capability takes effect but reports
  an error, and the second look fails or finds a grant that is already past its expiry; listing the paired
  clients then fails (`src/backend/pairing.rs:753-756`). `NameLostExactly` gives the exact faults,
  `NamelessExactly` the exact condition over every run, `AtomicRunsKeepNames` the common case without them.
- **An identifier of a durable capability can be handed out again**, because a start compares new identifiers
  with pending entries only (`StartCanShadow`, `ShadowingIsReachable`). Identifiers are 32 random bytes, so
  this is improbable; it is the exact exception in `ClaimsConverge`.
- **The two searches disagree for ranks within two of the 32-bit limit**, because the merged search adds 2 with
  saturation (`BuildDisagreement`, `SearchesAgreeExactly`, `MergedResultsArePrefixExactly`).

## Model

| member | source | states |
|---|---|---|
| `ProtocolTheorems.RevocationIsFinal` | src/backend/pairing.rs:779-795 | Once a revocation has been answered, then in that state and after every continuation, restarts included, no thread is past the recheck for that capability: none is authorised and none ever will be. |
| `ProtocolTheorems.RevokedOnlyByDrain` | src/auth/lifecycle.rs:239-258 | The answer "revoked" is given only by a revocation that finished draining: its row exists, belongs to the caller, is marked revoked, and no lease for the capability is live. |
| `ProtocolTheorems.Exclusivity` | src/auth/lifecycle.rs:84-114 | While a thread has the returned exclusive guard of a user there is no live lease of that user, no capability shutdown, no second claimant, and every request attempt is refused. |
| `ProtocolTheorems.ExactAccounting` | src/auth/lifecycle.rs:17-25 | In every reachable state the request counter and each per-capability counter equal the live leases, keys have positive counts, no idle entry is kept, and dropping any live lease finds its entry and positive counters. |
| `ProtocolTheorems.ClosesOnlyUnused` | src/auth/lifecycle.rs:178-198 | A step that closes a user database leaves that user without live leases, and without pinned sessions unless the exclusive holder closed it. |
| `ProtocolTheorems.OpenUntilLeaseDrops` | src/auth/lifecycle.rs:271-311 | A database open under a lease stays open over every run throughout which that lease is live. |
| `ProtocolTheorems.LastDropCloses` | src/auth/lifecycle.rs:290-307 | Dropping the last lease of a user with nothing pinned closes the database when the close works. |
| `ProtocolWrites.DropClosesExactly` | src/auth/lifecycle.rs:281-307 | Dropping a lease closes the user's database if and only if no other lease of that user is live, nothing is pinned and the close works; it closes no other. |
| `ProtocolWrites.LastUnpinCloses` | src/auth/lifecycle.rs:184-194 | Unpinning closes the user's database if and only if the user is known, has no live lease, nothing else is pinned and the close works; it closes no other. |
| `ProtocolTheorems.EnablingStepsNotify` | src/auth/lifecycle.rs:84-345 | From any state, every step that turns one of the four wait predicates from false to true notifies itself, at once or by a call it owes after releasing the lock; notifications owed by earlier steps do not count. |
| `ProtocolTheorems.NoLostWakeups` | src/auth/lifecycle.rs:90-111 | In every reachable state a sleeping thread whose wait predicate holds has a notification still to be delivered. |
| `ProtocolTheorems.SilentStepsEnableNobody` | src/auth/lifecycle.rs:139-176 | Admission, whether of a plain request, of a client request or of a revoking session, pinning and clearing sessions neither notify nor turn a wait predicate true. |
| `ProtocolTheorems.DeadlockFreedom` | src/auth/lifecycle.rs:200-222 | If a user has no live lease, no returned exclusive guard, and every shutdown holder is inside the request wait, then some thread waiting on that user can proceed. |
| `ProtocolTheorems.ProgressExactly` | src/auth/lifecycle.rs:84-114 | When only waiters keep a user busy, some waiter can proceed if and only if no revoker that holds its session lease is blocked behind a draining claimant. |
| `ProtocolTheorems.EmbraceIsForever` | src/auth/lifecycle.rs:200-222 | A draining claimant and a revoker waiting to block the same user stay where they are over every continuation without a restart. |
| `ProtocolTheorems.RevocationCanDeadlock` | src/backend/pairing.rs:777-779 | That state is reachable in four steps, with both threads asleep and no notification to come, and no continuation without a restart leaves it. |
| `ProtocolTheorems.AuthorizationSucceedsExactly` | src/backend/public_api.rs:140-234 | Undisturbed, a request is authorised if and only if its row has the key presented, is neither revoked nor expired, grants the permission and still has its wrapped key, and the registry admits it; it then holds its own lease with the user database open. |
| `WorldUndisturbed.HandlersAgree` | src/backend/public_api.rs:97-138 | A request and a claim agree on which capabilities are in force: what a request needs is what a claim answers as active, plus the permission and admission. |
| `ProtocolTheorems.RevocationSucceedsExactly` | src/backend/pairing.rs:771-796 | Undisturbed, a revocation is answered "revoked" if and only if the caller is admitted, owns the row, finds neither the flag nor the capability taken, and no request for it is in progress. |
| `ProtocolTheorems.GuardSucceedsExactly` | src/auth/lifecycle.rs:84-114 | Undisturbed, the exclusive guard is returned at once if and only if nobody has the flag, no capability is blocked and no lease of the user is live. |
| `ProtocolWrites.RetirementClearsExactly` | src/auth/lifecycle.rs:224-237 | Undisturbed, the retirement of a capability takes its wrapped key if and only if it can be blocked, is the user's, is not revoked and is at or past its expiry; otherwise no row changes. |
| `ProtocolWrites.RetirementWaits` | src/auth/lifecycle.rs:224-237 | A retirement that has written is done exactly when no request for the capability is live. |
| `ProtocolWrites.RowsChangeExactly` | src/db/client_capabilities.rs:148-171 | From any state every step leaves a row as it is, except that an effective revocation by its owner marks it and takes the wrapped key, and an effective retirement at or after its expiry takes the wrapped key of an unrevoked one. |
| `ProtocolWrites.WrapLostExactly` | src/db/client_capabilities.rs:256-303 | A step takes a wrapped key if and only if it is such a revocation or retirement; an effective revocation always leaves the row revoked and unwrapped, and nothing else marks a row revoked. |
| `ProtocolWrites.RowsAppearExactly` | src/db/client_capabilities.rs:63-99 | A row appears exactly by the insertion of an unrevoked one under a new identifier and a key that no row has. |
| `ProtocolWrites.RevokedIsUnwrapped` | src/db/client_capabilities.rs:256-303 | After every run a revoked capability has no wrapped key. |
| `ProtocolWrites.TestsAreExact` | src/auth/lifecycle.rs:90-162 | In every reachable state the tests of the critical sections are what threads and requests hold: claimable, blockable, drained, flushed and admitted each if and only if no thread has claimed the user, shuts the capability down, or holds such a lease. |
| `ProtocolWrites.SessionsChangeExactly` | src/auth/lifecycle.rs:164-198 | Pinned sessions change exactly by pinning and unpinning that session, by the exclusive holder that clears them, and by a restart. |
| `ProtocolEffects.OpenChangesExactly` | src/auth/lifecycle.rs:164-311 | Whenever the invariant holds a step opens and closes exactly the databases it should: opened under a lease, by the exclusive holder or by a request past its checks; closed by the exclusive holder, with the last lease or the last pinned session when the close works, or by a restart. |
| `ProtocolEffects.NotificationsExactly` | src/auth/lifecycle.rs:192-197 | A notification after the lock is owed for exactly the lease drops and the unpins of known users whose close does not fail; delivering one wakes every sleeper. |
| `ProtocolEffects.ClaimReturnsExactly` | src/auth/lifecycle.rs:90-111 | A pass of the claim loop claims if and only if no thread has claimed the user or shuts one of its capabilities down, wakes everybody else, and returns at once without leases; otherwise it sleeps. |
| `ProtocolEffects.DrainReturnsExactly` | src/auth/lifecycle.rs:103-113 | A pass of the drain returns the guard if and only if no lease of the user is live, and otherwise sleeps. |
| `ProtocolEffects.BlockReturnsExactly` | src/auth/lifecycle.rs:206-221 | A pass of the block loop blocks if and only if no thread has claimed the user or shuts the capability down, and wakes everybody; otherwise it sleeps. |
| `ProtocolEffects.WriteLeadsOn` | src/backend/pairing.rs:781-792 | A failed write, and a revocation that finds no row of the caller, give the guard back without a wait; every other write waits for the requests. |
| `ProtocolEffects.GuardDropFrees` | src/auth/lifecycle.rs:313-328 | After the exclusive guard is dropped nobody has claimed the user, requests are admitted again and every sleeper is awake. |
| `ProtocolEffects.ShutdownDropFrees` | src/auth/lifecycle.rs:330-345 | After a shutdown guard is dropped nobody shuts the capability down, every sleeper is awake, and a revoker goes on to drop its session's lease. |
| `ProtocolEffects.LookupLeadsTo` | src/backend/public_api.rs:147-163 | An identity lookup leads nowhere for an unknown, revoked or forbidden key, to retirement for an expired capability, and otherwise to the lease. |
| `ProtocolEffects.RecheckLeadsTo` | src/backend/public_api.rs:172-192 | The recheck passes exactly for a row of the same user and key that is neither revoked nor expired and grants the permission; an expired one is retired once the lease is dropped. |
| `ProtocolEffects.ActivityLeadsTo` | src/backend/public_api.rs:211-226 | The last checks retire a capability that has expired since, refuse one that is revoked or expired by the time of the write, and otherwise authorise. |
| `ProtocolEffects.LeavingDropsLease` | src/backend/public_api.rs:186-191 | A thread that leaves drops exactly its own lease and goes on as it was bound. |
| `ProtocolInvariant.StepKeepsInv` | src/auth/lifecycle.rs:84-345 | Every critical section, database call, wakeup and restart keeps the invariant: exact counters, guards held by the threads whose program counters say so, leases owned, drained users quiet, sleepers owed a notification, revocations final, verifiers unique. |
| `ProtocolInvariant.TighterEnablesNobody` | src/auth/lifecycle.rs:152-176 | A change that only raises counters or touches sessions makes no wait predicate true. |
| `ProtocolInvariant.FlushedMeansNoneAuthorized` | src/auth/lifecycle.rs:239-258 | When the drain of a capability ends no thread is past its recheck for it. |
| `ProtocolInvariant.AuthRecheckKeeps` | src/backend/public_api.rs:172-192 | The recheck under the lease keeps the invariant: a thread passes only for a row that is its user's and not answered as revoked. |
| `Registry.AdmitSound` | src/auth/lifecycle.rs:139-162 | Admission keeps the counters equal to the live leases. |
| `Registry.ReleaseSound` | src/auth/lifecycle.rs:271-293 | Dropping a live lease finds its entry and positive counters, so neither subtraction saturates, and keeps the counters exact with no idle entry left. |
| `LifecycleRegistry.UserLifecycleRegistry.AcquireRequest` | src/auth/lifecycle.rs:139-162 | Refused exactly under an exclusive flag or for a blocked capability, and then nothing changes; otherwise this user's counters gain exactly the new lease. |
| `LifecycleRegistry.UserLifecycleRegistry.DropLease` | src/auth/lifecycle.rs:271-311 | The entry is always found; a close is asked for exactly when no lease of the user remains and nothing is pinned; flags and sessions stay. |
| `LifecycleRegistry.UserLifecycleRegistry.PinBrowserSession` | src/auth/lifecycle.rs:164-176 | Exactly this session joins the user's pinned sessions, nothing else changes, and the counters stay exact. |
| `LifecycleRegistry.UserLifecycleRegistry.UnpinBrowserSession` | src/auth/lifecycle.rs:178-198 | Exactly this session leaves; a close is asked for if and only if the user was known, has no live lease and had no other session pinned. |
| `LifecycleRegistry.UserLifecycleRegistry.TryClaim` | src/auth/lifecycle.rs:90-100 | Claims exactly when nobody has the flag and no capability is blocked; otherwise nothing changes. |
| `LifecycleRegistry.UserLifecycleRegistry.Drained` | src/auth/lifecycle.rs:103-111 | The drain is over exactly when no lease of the user is live. |
| `LifecycleRegistry.UserLifecycleRegistry.TryBlock` | src/auth/lifecycle.rs:206-216 | Blocks exactly when nobody has the flag and the capability is not blocked yet; otherwise nothing changes. |
| `LifecycleRegistry.UserLifecycleRegistry.Flushed` | src/auth/lifecycle.rs:240-257 | The request wait is over exactly when no lease for the capability is live. |
| `LifecycleRegistry.UserLifecycleRegistry.ClearBrowserSessions` | src/auth/lifecycle.rs:260-269 | Only the pinned sessions go, and the counters stay exact. |
| `LifecycleRegistry.UserLifecycleRegistry.DropExclusive` | src/auth/lifecycle.rs:313-328 | The flag is cleared, the entry goes if it became idle, and the counters stay exact. |
| `LifecycleRegistry.UserLifecycleRegistry.DropShutdown` | src/auth/lifecycle.rs:330-345 | The capability is unblocked, the entry goes if it became idle, and the counters stay exact. |
| `Codes.ParseExactlyInvertsFormat` | src/pairing.rs:571-581 | Parsing yields a code if and only if the text is that valid code formatted. |
| `Codes.EncodeCode` | src/pairing.rs:564-569 | Every eight bytes give a valid eight-letter code. |
| `Codes.EncodesAlikeExactly` | src/pairing.rs:564-569 | Two byte strings give the same code if and only if the low five bits of every byte agree. |
| `Codes.EveryCodeIsReached` | src/pairing.rs:564-569 | Every valid code is the code of some bytes. |
| `StartLimits.RunIsLimiterRun` | src/pairing.rs:281-301 | After any operations the limiter inside the store is the limiter after the attempts that the starts among them make, and the recorded starts are the recorded attempts. |
| `StartLimits.RecordedUnlessTurnedAway` | src/pairing.rs:284-301 | A start is recorded if and only if it is answered neither as rate limited nor for lack of capacity. |
| `StartLimits.StartDequesAreWindows` | src/pairing.rs:522-538 | With a clock that never goes back, after any operations a start that has pruned finds in each deque exactly the recorded starts of the whole run that lie in the last window. |
| `StartLimits.StartRateBound` | src/pairing.rs:281-301 | Over every run of the store no source has more than 10 recorded starts, and all together no more than 300, in any window shortened by the largest amount the clock went back between starts; that is the full window for a clock that never goes back. |
| `StartLimits.FullWindowExactly` | src/pairing.rs:522-556 | The full ten-minute window bounds the recorded starts of a source in every run with a given skew if and only if the skew is zero. |
| `WorldLimits.WorldRateBound` | src/pairing.rs:281-301 | The same bounds over every run of the joint protocol without a restart, whatever approvals, claims and other threads interleave. |
| `RateLimiter.BackwardClockExceedsLimit` | src/pairing.rs:522-556 | One tick backwards is enough for eleven recorded starts in one ten-minute window. |
| `StartLimits.RateHintIsTight` | src/pairing.rs:284-288 | After a start answered as rate limited with hint r, and any operations that record no start, a start of the same source r+1 seconds later is not rate limited, and for r of at least 2 every one before r seconds is. |
| `RateLimiter.RunWindows` | src/pairing.rs:522-561 | Each deque is the tail of the recorded history and the history is spaced out, after every run. |
| `PairingRuns.StoreInvariant` | src/pairing.rs:281-343 | After every sequence of operations the reservations are the verifiers of the pending entries, verifiers and non-empty codes are distinct, codes are valid and empty exactly when completed, and store and deques are within their limits. |
| `PairingRuns.OpKeepsWf` | src/pairing.rs:380-485 | Each single operation keeps that invariant, whatever binding or activation returns. |
| `PairingRuns.EntryLifecycle` | src/pairing.rs:380-485 | Over every run until its fixed expiry an entry is there after every operation, and each operation leaves it alone or makes one move: an approval with its code from awaiting to approved, a denial with its code from awaiting to denied, an activating claim with its key from approved to completed. |
| `PairingRuns.CompletionHasOneApprovalAndOneActivation` | src/pairing.rs:467-484 | An entry that was awaiting and is completed has had exactly one approval and after it exactly one activating claim with its key, and no other change. |
| `PairingRuns.EntryStep` | src/pairing.rs:508-520 | One operation moves an unexpired entry as said; past its expiry an entry is gone after any operation that cleans up, and only a new start can use its identifier again. |
| `PairingRuns.ClaimsAgree` | src/pairing.rs:445-485 | Two successful claims of one entry return the same result whatever happens between, and the second activates nothing. |
| `PairingRuns.ApprovalSticks` | src/pairing.rs:408-415 | Over every sequence of operations before its expiry an approved entry keeps exactly its user, key, lease and expiry, or is completed. |
| `PairingRuns.DenialIsFinal` | src/pairing.rs:418-443 | Over every sequence of operations before its expiry a denied entry answers claims as denied and approvals as conflicts. |
| `PairingRuns.RefusalsChangeNothing` | src/pairing.rs:380-485 | A refused approval, denial or claim changes nothing beyond the removal of expired entries. |
| `PairingRuns.ApprovalNeedsTheCode` | src/pairing.rs:391-407 | An approval reaches its binding if and only if the entry is unexpired and awaiting and the text typed is its formatted code. |
| `PairingAnswers.ApproveAnswers` | src/pairing.rs:391-415 | An approval succeeds if and only if the unexpired awaiting entry is named by its formatted code and a user is bound; otherwise it is answered as unknown, conflict or failed binding, each exactly in its case. |
| `PairingAnswers.DenyAnswers` | src/pairing.rs:424-442 | A denial succeeds, or is answered as unknown or as a conflict, each exactly in its case. |
| `PairingAnswers.ClaimAnswersByHistory` | src/pairing.rs:460-484 | Over every run before the expiry of a started pairing, a claim with its key is answered as pending if and only if no approval and no denial of its code has happened, as denied if and only if a denial came first, and with a result or a failed activation if and only if an approval came first. |
| `PairingAnswers.ApprovedClaimResult` | src/pairing.rs:467-484 | Once an approval came first, the answer is the result of the first activation since, if there was one, and otherwise what this activation gives. |
| `PairingAnswers.RefusedClaims` | src/pairing.rs:460-465 | A claim is answered as unknown if and only if the pairing is unknown or expired, and as unauthorised if and only if it is there under another key, whatever its status. |
| `StartLimits.CapacityHintIsTight` | src/pairing.rs:289-299 | After a start answered for lack of capacity with hint r, and any operations that record no start, a start r+1 seconds later is not refused for capacity, and for r of at least 2 every one before r seconds is turned away again. |
| `Pairing.FirstUnusedIsUnused` | src/pairing.rs:312-319 | The pair chosen is unused and valid; exhaustion means that every generated pair is in use. |
| `PairingAnswers.StartAnswers` | src/pairing.rs:281-343 | Every start is answered for exactly one reason: a limiter, capacity, a key in use, an unreadable lookup, no unused pair; an accepted one leaves the live entries and one more, whose identifier, code and expiry are those of the answer and whose name, key and permission are those asked for. |
| `PairingStoreObject.PairingStore.Start` | src/pairing.rs:264-344 | The store object does what the start relation says: cleaning, limiters, capacity with a minimal hint, conflicts, and the first unused pair. |
| `PairingStoreObject.PairingStore.Review` | src/pairing.rs:350-378 | Answers for exactly the unexpired entry whose formatted code was given, and with a conflict when it is no longer awaiting. |
| `PairingStoreObject.PairingStore.Approve` | src/pairing.rs:380-416 | New store and answer are those of the approval function, of which the run properties are proved. |
| `PairingStoreObject.PairingStore.Deny` | src/pairing.rs:418-443 | New store and answer are those of the denial function. |
| `PairingStoreObject.PairingStore.Claim` | src/pairing.rs:445-485 | New store and answer are those of the claim function, name and code wiped on completion. |
| `PairingStoreObject.PairingStore.RemoveExpired` | src/pairing.rs:508-520 | The loop removes exactly the expired entries and the reservations of their verifiers. |
| `PairingStoreObject.PairingStore.PruneRateLimits` | src/pairing.rs:522-538 | Each deque loses its front up to the cutoff; empty ones leave the map. |
| `PairingStoreObject.LeastDelay` | src/pairing.rs:290-295 | The least whole-second delay to an expiry, attained by some entry. |
| `PairingStoreObject.FindUnused` | src/pairing.rs:312-319 | The loop finds the first unused pair. |
| `Activation.PairingDatabases.ActivateClaim` | src/backend/pairing.rs:305-380 | For every combination of faults, databases and answer are those of the call-by-call activation that the joint protocol interleaves. |
| `Activation.PairingDatabases.InsertName` | src/db/paired_client_names.rs:10-37 | Insert or ignore, successful only when the stored name is the one given. |
| `Activation.RetryConverges` | src/backend/pairing.rs:305-380 | After any number of attempts with any faults, an attempt in which every call works succeeds with the user and permission of the approval. |
| `Activation.NameLostExactly` | src/backend/pairing.rs:305-380 | From any databases, an activation leaves its capability without the stored name, where it was not so before, if and only if the calls up to the capability write work, that write takes effect but reports an error, the second look fails or the grant is already past its expiry, and the deletion takes effect. |
| `Activation.OrphanLeftExactly` | src/backend/pairing.rs:325-380 | From any databases, an activation leaves a stored name without a capability, where there was none before, if and only if the probe finds nothing and no name, and either the name write takes effect but reports an error, or it works, the capability is not written and the deletion of the name fails. |
| `Activation.ActivationSucceedsExactly` | src/backend/pairing.rs:305-380 | From any databases and faults, an activation succeeds if and only if its capability is found in force with this user and permission, or its write works, or has effect and is found by the second look; it writes the capability if and only if the calls before work and the write has effect. |
| `Activation.FailedActivationRestores` | src/backend/pairing.rs:325-380 | Unless the name write fails with effect or the deletion fails, a failed activation that wrote no capability leaves the databases as they were. |
| `Activation.ActivationFrame` | src/backend/pairing.rs:305-380 | No other capability or name is touched, and a capability that is there stays as it is. |
| `Activation.DurableClaimReads` | src/backend/pairing.rs:257-302 | A durable capability is missing if and only if there is no row, active if and only if the row has the key presented, is neither revoked nor expired and has its wrapped key, and otherwise unauthorised. |
| `Activation.CompensationCanRemoveALiveName` | src/backend/pairing.rs:366-374 | Such faults exist for every grant with a database key, in both ways. |
| `WorldInvariant.NextKeeps` | src/backend/pairing.rs:169-207 | Every event of pairings, leases, databases and restarts keeps the joint invariant. |
| `WorldInvariant.ActivateKeeps` | src/backend/pairing.rs:305-380 | Each database call of an activation, with any fault, keeps it while other threads interleave. |
| `WorldInvariant.SuccessHasRow` | src/backend/pairing.rs:305-380 | An activation that succeeds has its durable row, and answers with that row's user and permission. |
| `WorldInvariant.PruneNames` | src/db/paired_client_names.rs:101-140 | The clean-up of orphaned names removes neither the name of a durable capability nor that of an activation in progress. |
| `WorldInvariant.PrunesExactly` | src/db/paired_client_names.rs:101-140 | When a user database has been opened exactly the names of that user's durable capabilities are left, nobody else's names are touched, and no activation of the user is in progress. |
| `WorldInvariant.ScansExactly` | src/db/client_capabilities.rs:306-330 | Opening a user database begins exactly when it is neither open nor being opened, with the identifiers of all the user's durable capabilities. |
| `WorldTheorems.LifecycleRefinement` | src/backend/pairing.rs:702-712 | The lifecycle part of every run with pairings is a run of the lifecycle protocol, so that all its theorems hold. |
| `WorldTheorems.RevocationIsFinalForClaims` | src/backend/pairing.rs:181-206 | After an answered revocation no claim of that capability is ever answered as active, and no request is authorised. |
| `WorldTheorems.KeyIdentifiesOneCapability` | src/pairing.rs:301-335 | A key verifier belongs to at most one identifier across pending entries and durable records together. |
| `WorldTheorems.LeaseConservation` | src/pairing.rs:398-415 | For every user the live pairing leases are as many as the approved entries bound to that user, one more while an approval is binding it, and each approved entry has its own lease. |
| `WorldTheorems.ApprovedPairingExcludesGuard` | src/backend/pairing.rs:702-712 | While a pairing approved for a user is in the store nobody has, or can finish waiting for, the exclusive guard of that user, and the user database is open. |
| `WorldTheorems.NamelessExactly` | src/backend/pairing.rs:325-374 | After any run a durable capability lacks its stored name if and only if the run contains an effective deletion by its activation while the capability was there, which takes a write that had effect but was reported as failed; otherwise the stored name is the one it was approved under. |
| `WorldTheorems.AtomicRunsKeepNames` | src/backend/pairing.rs:325-374 | When failing calls have no effect, every durable capability has the client name it was approved under, however many calls fail, whatever interleaves, and across restarts. |
| `WorldTheorems.RepliesComeFromApprovals` | src/backend/pairing.rs:181-206 | Every claim answered as active names the user bound at an approval of that very key. |
| `WorldTheorems.RepliesAgree` | src/backend/pairing.rs:169-207 | Any two claims answered as active for one key, or for one identifier, agree on capability, user and permission. |
| `WorldTheorems.CommitIsPermanent` | src/db/client_capabilities.rs:148-171 | Over every continuation a committed capability keeps key, user, permission and expiry; it is revoked if and only if it was or some revocation has written it, and has its wrapped key if and only if it had it and no revocation, and no retirement at or after its expiry, has written it. |
| `WorldTheorems.ClaimsConverge` | src/backend/pairing.rs:169-207 | After a commit a claim with the right key gives the committed user and permission while the capability is active, with its entry approved, completed, expired or lost, if and only if the identifier is not in use by another key's pending pairing. |
| `WorldTheorems.StartCanShadow` | src/pairing.rs:312-319 | A start hands out a generated identifier that a durable capability already has, since it compares with pending entries only. |
| `WorldShadowing.ShadowingIsReachable` | src/pairing.rs:312-319 | For every user, identifier and two different keys, a run from the start after which the capability of the first key is in force and its identifier belongs to a pending pairing of the second. |
| `WorldUndisturbed.ApprovalSucceedsExactly` | src/backend/pairing.rs:701-713 | Undisturbed, an approval binds its user and takes one lease if and only if the entry is awaiting, the code typed is its own, the user is admitted and the user database is open; otherwise entries and leases are as before. |
| `WorldUndisturbed.UninterruptedActivation` | src/backend/pairing.rs:305-380 | For every combination of faults, the calls that the joint protocol interleaves amount, without interruption, to the handler's activation. |
| `WorldUndisturbed.FirstClaimSucceedsExactly` | src/pairing.rs:467-484 | Undisturbed, the first claim of an approved pairing is answered as active if and only if it has a database key, no other name is stored under its identifier and its expiry is not past; it then names the approved user and permission, with row and name stored and the entry completed. |
| `WorldUndisturbed.FirstClaimLosesNameExactly` | src/backend/pairing.rs:305-380 | Undisturbed, the first claim of an approved pairing in any reachable state leaves a capability without its stored name if and only if its calls fail in exactly that way. |
| `WorldUndisturbed.FinishAnswersExactly` | src/backend/pairing.rs:184-206 | The last check of a claim answers it as active if and only if the capability is in force under the key presented and, where the store had an answer, has the same user and permission. |
| `AccountModes.ClassifyNativeAccountModes` | src/account_limits.rs:38-71 | With distinct identifiers each account gets the mode that the accounts admitted before it decide, whatever the order of the input; no account has a balance or history slot that an account admitted earlier, or at the same time with a smaller identifier, lacks although it supports it. |
| `AccountModes.ActiveCount` | src/account_limits.rs:49-68 | The accounts that are not inactive are as many as the balance allowance or the supporting accounts, whichever is less. |
| `AccountModes.HistoryCount` | src/account_limits.rs:58-66 | The accounts that sync transactions are as many as that allowance or the active accounts that support it, whichever is less. |
| `AccountModes.NeverLowered` | src/account_limits.rs:38-71 | Removing accounts and raising allowances never lowers the mode of an account that remains. |
| `Catalog.Build` | src/asset_capabilities/unsynced.rs:192-242 | Accepts exactly a non-empty version 1 list of distinct identities, keeps every instance and lists them strictly by rank, then asset, then network; each refusal has its own reason, and one for a duplicate names the first repeat. |
| `Catalog.Search` | src/asset_capabilities/unsynced.rs:84-128 | At most 25 rows: exact matches of unit or asset first, then prefix matches of unit, name or asset, then rows that contain the query, each class by rank, asset and network; every match left out comes after all of the 25. |
| `Catalog.TwoKeysSuffice` | src/asset_capabilities/unsynced.rs:122-122 | On rows in catalogue order the two-key stable sort equals the four-key sort. |
| `Catalog.SearchFindsTheBest` | src/asset_capabilities/unsynced.rs:95-118 | The order by quality and rank is that order by class of match, where the classes are stated by equality, prefix and occurrence of the query. |
| `Catalog.ContainsExactly` | src/asset_capabilities/unsynced.rs:108-111 | Containment is occurrence at some place. |
| `Catalog.CoingeckoIdForAssetId` | src/asset_capabilities/unsynced.rs:75-82 | The identifier of the best-ranked listing of the asset; none exactly when the asset is not listed. |
| `ManualSearch.SearchManualAssetInstances` | src/asset_capabilities/mod.rs:903-941 | The best 25 of all candidates, synced and unsynced, by class of match, rank, asset and network, none out of order; as many as the count announces, up to 25. |
| `ManualSearch.SearchesAgreeExactly` | src/asset_capabilities/mod.rs:911-924 | For every catalogue, query and synced assets, the merged order of the unsynced matches is the order of the catalogue's own search if and only if no two matches of equal quality have different ranks that saturate to one, against the order of their identities. |
| `ManualSearch.SmallRanksAgree` | src/asset_capabilities/mod.rs:858-858 | With ranks up to the largest 32-bit number minus 2 there is no such pair. |
| `ManualSearch.MergedResultsArePrefixExactly` | src/asset_capabilities/mod.rs:918-925 | The unsynced rows among the merged best 25 are a prefix of what the catalogue's own search returns, if and only if no row with fewer than 25 matches ahead of it is inverted with a match of the catalogue. |
| `ManualSearch.ShownIsPosition` | src/asset_capabilities/mod.rs:918-925 | A matching row is among the merged results exactly when fewer than 25 matches have smaller keys. |
| `ManualSearch.BuildDisagreement` | src/asset_capabilities/mod.rs:858-858 | Building a catalogue from two assets with valid fields and ranks at the top of their range succeeds, and the two searches of it disagree whatever synced assets there are. |
| `ManualSearch.TopRanksAreInverted` | src/asset_capabilities/unsynced.rs:244-277 | The two assets pass the field rules of the conversion and are an inverted pair. |
| `Sorting.StableSortUnique` | src/asset_capabilities/unsynced.rs:122-122 | A sorted sequence in which equal keys keep their order is unique, so nothing depends on the algorithm of the library sort. |
| `Sorting.StrLeqIsLexicographic` | src/asset_capabilities/unsynced.rs:234-235 | Strings are compared by their first difference. |
| `Sorting.SortStable` | src/asset_capabilities/unsynced.rs:122-122 | The sort keeps the order of elements with equal keys. |
| `Amounts.EncodeThenDecode` | src/amounts/mod.rs:69-81 | Encoding succeeds exactly below 2^63 * 10^18, and decoding then gives the amount back. |
| `Amounts.DecodeThenEncode` | src/amounts/mod.rs:84-102 | Decoding accepts exactly a non-negative high part and a low part below the divisor, never overflows, and encoding gives the parts back; each refusal names the part that is wrong. |
| `Amounts.SplitOrder` | src/amounts/mod.rs:69-81 | The pair of columns compares, high part first, as the amounts do. |
| `Amounts.FormatIsTheCanonicalDecimal` | src/amounts/mod.rs:120-155 | A text is what is printed if and only if it is a canonical decimal equal to amount / 10^scale. |
| `Amounts.FormatInjective` | src/amounts/mod.rs:120-155 | At one scale different amounts print differently. |
| `Amounts.FixedForm` | src/amounts/mod.rs:158-177 | The fixed form denotes the same number with exactly scale fraction digits, and the other form is the fixed form without zeros at the end of the fraction and without a bare point. |

## Left out

- HTTP, cookies, headers, CSRF and origin checks, and the shape of responses.
- Cryptography: keys, verifiers and database keys are opaque values with equality; zeroization is kept only where it empties an entry's code and name.
- The development build in which user databases are not encrypted: a capability without a wrapped key is refused.
- SQL: each database call is one atomic operation on a map that works, fails without effect or, in activation, fails after taking effect. Deleting users and their rows is not modelled, so rows only appear through activation and never disappear.
- Mutex poisoning and the hooks that exist only in tests.
- Reading the database envelope, and unwrapping with a key whose verifier matches: failing there is the event that makes an authorisation give up. A record without a wrapped key is refused as in the source.
- Permissions other than `balances_read`: the source has one, the model compares a number.
- Initialising a user database is modelled as a scan of capability identifiers followed by the removal of other names; a second initialisation of the same user waits for the first.
- `is_live_approval_code` is `review` with its answer reduced to a boolean.
- `classify_supported_accounts` and the hard cap: the same oldest-first rule with a single counter, which would only add easy members.
- AccountModes.ClassifyNativeAccountModes: says nothing about the mode under an identifier that occurs twice, because identifiers are primary keys; the sixteen-bit width of the allowances is not modelled, because counters only grow up to them.
- JSON parsing and the conversion of single assets in the catalogue (its field rules appear only for the example of disagreement); trimming and lower-casing of the query happen before the modelled searches.
- ManualSearch.SearchManualAssetInstances: returns the candidates themselves, not the result records that copy their fields; the synced assets are a parameter.
- StartLimits.StartRateBound: with a clock that goes back, bounds a window shortened by that amount, because the full window is exceeded then.
- WorldLimits.WorldRateBound: is about runs without a restart, because a restart forgets the recorded starts.
- WorldTheorems.ClaimsConverge: is about a handler that nothing interrupts; what interleaved handlers may answer is `RepliesAgree` and `RevocationIsFinalForClaims`.
