# A model of the SaaS backend

This project models the parts of the backend that keep state over many requests, and the pure
transformers it relies on, and proves what they are for.  It has four clusters.

**Stripe webhooks** (`Billing*.dfy`).  `Billing` holds the subscription rows, the dedupe ledger and
the database statements.  `BillingProtocol` is a state machine over statements: any number of
webhook and cancellation requests are in flight, each one somewhere between its ledger insert, its
guarded `updateMany` and its create, and a schedule picks the next statement, so runs are exactly the
interleavings; the death of a request between two statements, pruning of the ledger and the passing
of time are steps too.  `BillingFirstWriters` treats interleavings that start without a row, and
`BillingLoss` says which schedules lose an event,
`BillingEffects` what the tables then say.  `BillingSerial` treats deliveries one at a time,
and `BillingService` is the service itself as a class whose methods are tied to the same functions.
The `Log` of the machine records history for stating theorems; no step reads it except to record.

**Accounts and sessions** (`Auth*.dfy`, `ChallengeRace.dfy`).  `Auth` is one machine for password
login with lockout, Google login, refresh rotation with reuse detection, logout, password reset and
change, two-factor setup, enable, disable and login challenges, session revocation, the token and
challenge cleanups, moderation, hard deletion and time.  A request is one step.  `AuthSafety` has
the invariants and the theorems on whole runs, `AuthLimits` the rates and the single uses,
`AuthEffects` who
is let in, for how long, and what each request changes, `AuthService` the services as a class.  `ChallengeRace` splits `verifyChallenge` at its database
calls and runs any number of requests against one challenge in any order.

**Organizations** (`Tenancy*.dfy`).  `Tenancy` has users, organizations, memberships, invitations
and subscriptions with the `ON DELETE CASCADE` rules, and Stripe as a party whose `cancel` may
reject.  `TenancySafety` has the ownership and invitation invariants, who may change what,
the cascade as a closure over foreign keys, and the billing theorems; `TenancyEffects` when each request works and what it does; `TenancyService` the services
and the cancellation loop.

**Transformers.**  `Sanitize`, `SanitizePaths` and `SanitizeHeap` (the in-place sanitizer on a heap
of mutable nodes against the pure one, and what both make of every place in a body), `Converter`, `ConverterMeaning` and `ConverterOutput` (JSON Schema to OpenAPI
3.0: the conversion, what schemas accept, what the output looks like), `Escape` (the HTML escape
pair), `Query` (pagination) and `Rollout` (feature flags).

Conventions.  A table is a map, a Prisma statement is one atomic step and a `$transaction` is one
step.  The clock is a number that never decreases, read once per request.  A hash is modelled by the
value it hashes, a fresh random identifier by a counter, a JWT by its claims.  `matches` in a
two-factor check is the time step of the secret that the code matches inside the tolerance window;
the contract taken from the library is that steps not after `afterTimeStep` are rejected (section 5.2
of RFC 6238).  In `ConverterMeaning`, `nullable: true` adds null to what a schema accepts (section
4.7.24 of the OpenAPI Specification 3.0.3); later clarifications give it that effect only next to `type`.

## What the code does not guarantee

Each of these is a theorem with the exact condition.

- A late `updated` event can bring a subscription back after `deleted`, although the comment at
  src/modules/billing/billing.service.js:468-472 names that case as the one prevented: the deletion
  does not move the stamp.  It happens exactly when the update's timestamp is not below the row's
  stamp (`LateUpdateAfterDeletion`).
- Two first writers can leave the older event's data (`FirstWritersMayLoseTheNewer`).  While nothing is
  pruned, the newest event loses the row exactly when, in the schedule, its guarded update meets no row
  and its later create meets one, or its process dies on the way (`FirstWritersLoseExactly`).
- The ledger row is inserted before the event is processed, so a handler that dies in between turns
  every redelivery into a no-op until the prune.  With the row in place that is the only way to lose
  an event (`CrashIsTheOnlyLoss`).
- Reuse detection needs a refresh lifetime of at most seven days: it holds for every such lifetime
  (`ReuseIsAlwaysDetected`) and fails for every longer one (`LongLivedTokensBlindDetection`).
- The two sanitizers agree exactly when no surviving string at depth 11 would be changed
  (`SanitizersAgree`).
- `unescapeHtml(escapeHtml(s))` is `s` exactly when `s` has none of four literal entities (`RoundTrip`).
- The converter keeps the meaning of well-formed schemas (`ConvertPreserves`).  For each kind of
  ill-formed node the exact condition is given: keywords beside a nullable union (`AnyOfMeaning`,
  `OneOfMeaning`), null accepted twice (`OneOfAloneMeaning`), null alone or next to `false`
  (`LoneNullMeaning`), a const beside an enum or a nullable union (`ConstBesideEnum`,
  `ConstBesideUnion`).  `LoneNullAcceptsAll` and `SiblingKeywordIsLost` are instances.
- Its output is free of const, dialect marker and null union members, and a second conversion changes
  nothing, exactly for tidy inputs (`TidyIsExact`, `ConvertTwice`); `SecondNullSurvives` is an instance
  that is not.
- Logins on OAuth-only accounts count toward lockout (`PasswordlessCounts`, `PasswordlessLocks`); the
  comment at src/modules/auth/auth.service.js:199-201 says they do not, line 202 counts them.

## Model

| member | source | states |
|---|---|---|
| BillingProtocol.EveryInterleavingIsSafe | src/modules/billing/billing.service.js:341-513 | in every interleaving of webhooks, cancellations, crashes and prunes: at most one row per Stripe id, no row lost, no stamp ever lowered, and every entry into a handler is in the ledger or was pruned from it |
| BillingProtocol.EveryInterleavingConverges | src/modules/billing/billing.service.js:468-513 | with a pre-existing row and distinct creation times, once every request is done the row is that of the newest event delivered and not dropped, or the initial row if newer, up to cancellations written over it; without cancellations exactly; without crashes nothing is dropped |
| BillingLoss.CrashIsTheOnlyLoss | src/modules/billing/billing.service.js:336-351 | with a pre-existing row and no prune, the newest delivered event, if newer than the row, has it iff the schedule contains no crash of its request between the ledger insert and its guarded update |
| BillingFirstWriters.FirstWritersConverge | src/modules/billing/billing.service.js:473-512 | in every interleaving that starts without a row, prunes and crashes included, once every request is done the newest event delivered and not dropped has the row, and no dropped event does |
| BillingLoss.FirstWritersLoseExactly | src/modules/billing/billing.service.js:473-512 | without a row and without prunes, the newest delivered event has the row iff the schedule does not lose it: no crash before its guarded update, and not a guarded update that meets no row followed by a create that meets one or a crash; the row is that of the newest event not lost |
| BillingLoss.DroppedIsLost | src/modules/billing/billing.service.js:490-512 | in every interleaving without prunes, from any state, the events dropped are exactly those the schedule loses |
| BillingProtocol.EntersOncePerLedgerLife | src/modules/billing/billing.service.js:336-351 | in every interleaving from rest an event id enters its handler exactly once per life of its ledger row |
| BillingProtocol.FirstWritersMayLoseTheNewer | src/modules/billing/billing.service.js:490-512 | without a row, an interleaving of two first events in which the newer one is swallowed and the older one's data stays |
| BillingProtocol.LateUpdateAfterDeletion | src/modules/billing/billing.service.js:410-421 | after a deletion, an update event revives the row iff its timestamp is not below the row's stamp |
| BillingProtocol.AloneIsHandle | src/modules/billing/billing.service.js:315-370 | the statements of one request scheduled back to back do what the serial handler does, for every event |
| BillingEffects.WrittenRowSays | src/modules/billing/billing.service.js:43-54 | after a write the subscription has a row and the row says what the event says: customer, owner, plan, the status by name, each of the four dates as 1000 times its own seconds with the item's period as fallback, and the stamp; no other row moved |
| BillingEffects.WrittenExactly | src/modules/billing/billing.service.js:397-513 | an event not seen before writes its row iff its metadata name one known owner and a known plan and no newer row stands; exactly when the database refuses instead; without a write only the ledger changes |
| BillingEffects.HandleRecords | src/modules/billing/billing.service.js:341-351 | every event not seen before is recorded with its time, and a known one changes nothing at all |
| BillingEffects.DeletionSays | src/modules/billing/billing.service.js:410-421 | a deletion event cancels the row as of now and changes no other column and no other row |
| BillingEffects.CancelAlone | src/modules/billing/billing.service.js:293-313 | a cancellation request cancels the row it found active or trialing once Stripe accepts, as of now, and otherwise changes no row |
| BillingEffects.PruneSays | src/modules/jobs/maintenance.worker.js:105-114 | the cleanup keeps exactly the ledger rows recorded within the retention, and every subscription |
| BillingSerial.UpsertMerges | src/modules/billing/billing.service.js:434-513 | one usable delivery merges the event into its subscription's row and leaves every other subscription's row alone |
| BillingSerial.LedgerIsInvisible | src/modules/billing/billing.service.js:336-351 | a serial run with duplicates and prunes anywhere leaves the row that merging the deliveries in order leaves, redelivery after a prune included |
| BillingSerial.MergeAllIsNewest | src/modules/billing/billing.service.js:468-479 | merging any sequence of events gives the newest one, or the initial row if that is newer than all |
| BillingSerial.SerialRunsAgree | src/modules/jobs/maintenance.worker.js:105-114 | any two serial runs delivering the same events in whatever order, with whatever duplicates and prunes, end with the same row: the newest event's, or the initial one |
| BillingService.WebhookStore.HandleWebhook | src/modules/billing/billing.service.js:341-370 | the method's effect on the tables and its outcome are the serial handler's |
| BillingService.WebhookStore.UpsertSubscription | src/modules/billing/billing.service.js:434-513 | plan lookup, guarded update, create or skip, tied to the same function the serial theorems are about |
| AuthEffects.LoginVerdict | src/modules/auth/auth.service.js:157-262 | a login succeeds iff the user exists, is not deleted, banned, suspended or locked, and the password is the stored one; it then opens a session or, under a second factor, a challenge, and a session clears the count of failures |
| AuthEffects.LoginTouches | src/modules/auth/auth.service.js:176-216 | of the users table a login touches nothing but that user's two lockout columns |
| AuthEffects.LockLasts | src/modules/auth/auth.service.js:174-216 | after the fifth failure the right password is refused for exactly fifteen minutes |
| AuthEffects.GoogleVerdict | src/modules/auth/auth.service.js:655-724 | a Google sign-in needs neither password nor an open lock, but the second factor stands |
| AuthEffects.RegisteredPassword | src/modules/auth/auth.service.js:99-155 | a new account is signed in, and signs in with the password it was created with and no other |
| AuthEffects.ResetLaw | src/modules/auth/auth.service.js:460-496 | a reset succeeds iff the token is the current unexpired one of a live user; then the new password is in force, every other one is refused and counted, nothing else about signing in changed, and the token is spent; a refused one keeps password and sessions |
| AuthEffects.ResetTokenLives | src/modules/auth/auth.service.js:429-450 | a reset token works for exactly one hour |
| AuthEffects.ChangeLaw | src/modules/auth/auth.service.js:498-526 | a change succeeds iff the current password is the one in force and the new one differs, which then is in force; otherwise nothing changes |
| AuthEffects.GrantsLive | src/modules/auth/auth.service.js:77-89 | what register, login, refresh or a challenge hands out belongs to its user; left alone, the refresh token can be exchanged and the access token passes authenticate iff fewer seconds have passed than its lifetime and the user is not barred |
| AuthEffects.RefreshVerdict | src/modules/auth/auth.service.js:264-349 | a refresh succeeds iff the JWT verifies, its row is neither revoked nor expired, and its user is live and not barred; an expired row is revoked on sight |
| AuthEffects.ActiveRefreshVerdict | src/modules/auth/auth.service.js:264-349 | in every reachable state that means an active token of a live user who is not barred, while the JWT verifies |
| AuthEffects.BarredIsOut | src/middleware/auth.middleware.js:29-64 | a deleted, banned or suspended user gets in by no request, and none of its access tokens passes |
| AuthEffects.VerifyVerdict | src/modules/auth/twofa.service.js:184-301 | a challenge is passed iff it is pending and the code is a fresh time step or a stored backup code; a wrong code then costs one attempt and changes nothing else; passing uses the challenge up and clears the failed logins |
| AuthEffects.ChallengesLive | src/modules/auth/twofa.service.js:172-182 | the challenge a login hands out is new, belongs to its user, and can be passed with a right code for exactly five minutes |
| AuthEffects.SecondFactorVerdicts | src/modules/auth/twofa.service.js:56-149 | setup, enable and disable succeed iff the factor is off, off with a stored secret and a valid code, on with the right password; otherwise nothing changes |
| AuthEffects.EnablingWorks | src/modules/auth/twofa.service.js:56-134 | setup then enable turns the factor on with the stored secret and the generated codes: password and Google sign-in are then challenged |
| AuthEffects.DisablingWorks | src/modules/auth/twofa.service.js:136-170 | disable clears secret, codes and pinned step: password and Google sign-in then suffice, and setup is free again |
| AuthEffects.LogoutEnds | src/modules/auth/auth.service.js:576-588 | logging out with a token ends that session of the caller, without one all of the caller's, and nobody else's |
| AuthEffects.RevocationEnds | src/modules/session/session.service.js:36-51 | revoking a session succeeds iff it is an active one of the caller, and ends that one only |
| AuthEffects.RevokedNowIsKept | src/modules/jobs/maintenance.worker.js:30-38 | the cleanup keeps the row of an unexpired token for exactly seven days from its revocation |
| AuthEffects.CleanupKeeps | src/modules/jobs/maintenance.worker.js:30-38 | the cleanup keeps a row, unchanged, iff it is unexpired and not revoked for more than seven days |
| AuthEffects.ChallengeCleanupKeeps | src/modules/jobs/maintenance.worker.js:43-49 | the cleanup keeps exactly the unexpired challenges |
| AuthSafety.RunSound | src/modules/auth/auth.service.js:157-349 | every serial run keeps: tokenVersion bounds every access token issued and never decreases, revoked tokens stay revoked, rows are never re-created, attempts stay at most five and are five iff the account is locked |
| AuthSafety.EveryRunIsSound | src/modules/auth/auth.service.js:77-89 | every state reachable from empty tables satisfies that invariant |
| AuthSafety.KillIsForever | src/modules/auth/auth.service.js:479-493 | after a password reset or change, two-factor enable or disable, revoke-all or detected reuse, no access token issued before ever passes authenticate again and no refresh token issued before is ever exchanged again |
| AuthSafety.KillSpendsAll | src/modules/session/session.service.js:59-68 | each of those requests leaves no access token at the current version and no unrevoked refresh token, and issues none |
| AuthSafety.ExchangedAtMostOnce | src/modules/auth/auth.service.js:333-339 | in every serial run each refresh token is exchanged at most once, and never once revoked or removed |
| AuthSafety.RefreshRotates | src/modules/auth/auth.service.js:333-339 | a successful refresh replaces one active token of the family by one fresh one, keeps their number, and leaves other families alone |
| AuthSafety.SessionsChangeByRight | src/modules/session/session.service.js:36-71 | whatever the request, an active refresh token of a user ends only by that user's own request, a token of the family presented for refresh, expiry or deletion, and one begins only by the first factor where there is no second, a completed challenge, or an active token traded in |
| AuthSafety.ReuseIsAlwaysDetected | src/modules/jobs/maintenance.worker.js:30-38 | with a refresh lifetime of at most seven days, in every serial run with cleanups at any time, presenting a revoked token that still verifies finds its row, is refused, revokes the whole family and bumps tokenVersion |
| AuthSafety.LongLivedTokensBlindDetection | src/modules/jobs/maintenance.worker.js:30-38 | for every longer lifetime there is a run from empty tables in which the cleanup makes reuse of a rotated token go undetected |
| AuthLimits.LockoutRateBound | src/modules/auth/auth.service.js:174-217 | in every serial run without a reset, the counted login failures of a user between two moments are at most 5 * (1 + elapsed div 15 minutes) |
| AuthLimits.PasswordlessCounts | src/modules/auth/auth.service.js:193-202 | on an account without a password a login counts toward lockout iff the account is live and not locked, whatever the password given |
| AuthLimits.FailuresLock | src/modules/auth/auth.service.js:198-217 | wrong logins in a row from an unlocked account all count, and exactly the fifth sets the lock, changing nothing else |
| AuthLimits.PasswordlessLocks | src/modules/auth/auth.service.js:193-216 | five logins, whatever the passwords, lock a fresh account created through Google |
| AuthLimits.TotpStepsIncrease | src/modules/auth/twofa.service.js:229-297 | until the next disable, the TOTP time steps accepted for a user strictly increase, in every serial run |
| AuthLimits.BackupCodesConserved | src/modules/auth/twofa.service.js:278-286 | in every serial run until the next disable, the stored backup codes are the remaining ones plus the accepted ones, as multisets |
| AuthLimits.TenBackupCodes | src/modules/auth/twofa.service.js:105-131 | after enable and until the next disable, remaining plus accepted backup codes are ten, each accepted code is one of the ten, and none is accepted twice |
| AuthLimits.ChallengeIsCapped | src/modules/auth/twofa.service.js:205-267 | in every serial run a challenge sees at most five wrong codes and yields at most one session |
| ChallengeRace.AtMostOneSession | src/modules/auth/twofa.service.js:269-275 | in every interleaving of requests, cleanups and waits a challenge yields at most one session, none while unclaimed, and recorded attempts equal the failures |
| ChallengeRace.OneSessionPerChallenge | src/modules/auth/twofa.service.js:255-275 | the same for every interleaving from the creation of the challenge on: its attempts are the failed requests, and an unclaimed one has yielded no session |
| ChallengeRace.AloneIsVerifyChallenge | src/modules/auth/twofa.service.js:184-275 | the statements of one request run back to back leave the row and give the verdict of the serial request |
| ChallengeRace.CleanupIsCleanup | src/modules/jobs/maintenance.worker.js:43-49 | the cleanup step between statements is that of the account machine |
| ChallengeRace.NothingEvaluatedAfterCap | src/modules/auth/twofa.service.js:205-214 | in every interleaving, a request that reads the challenge after five recorded failures, or after it is gone, never has its code evaluated |
| AuthService.AuthStore.LoginWithPassword | src/modules/auth/auth.service.js:157-262 | the new tables and the reply are those of the login step the run theorems are about |
| AuthService.AuthStore.RefreshTokens | src/modules/auth/auth.service.js:264-349 | the new tables and the reply are those of the refresh step: reuse, expiry, barred user and rotation branches |
| AuthService.AuthStore.ResetPasswordWith | src/modules/auth/auth.service.js:460-496 | password, version bump and revocation land together, or a stale token is cleared, or nothing changes |
| AuthService.AuthStore.ChangePasswordOf | src/modules/auth/auth.service.js:498-526 | password, version bump and revocation land together, or nothing changes |
| AuthService.AuthStore.EnableTwoFactor | src/modules/auth/twofa.service.js:83-134 | the loop generates exactly ten codes, which are stored and returned while every session is killed, or nothing changes |
| AuthService.AuthStore.DisableTwoFactor | src/modules/auth/twofa.service.js:136-170 | secret, codes and pinned step are cleared while every session is killed, or nothing changes |
| AuthService.AuthStore.FindBackupCode | src/modules/auth/twofa.service.js:244-253 | the search loop finds a code iff it is among the stored ones |
| AuthService.AuthStore.RemoveBackupCode | src/modules/auth/twofa.service.js:278-281 | the filter loop drops the consumed code and keeps the others in order |
| AuthService.AuthStore.VerifyLoginChallenge | src/modules/auth/twofa.service.js:184-301 | the new tables and the reply are those of the challenge step: expiry, cap, wrong code, claim, consumption, sign-in |
| AuthService.AuthStore.RevokeEverySession | src/modules/session/session.service.js:53-71 | tokens are revoked and the version is bumped together |
| AuthService.AuthStore.AuthenticateRequest | src/middleware/auth.middleware.js:15-64 | a token is accepted iff signed, unexpired, of a live user at the same version who is not barred |
| TenancyEffects.CreationSays | src/modules/org/org.service.js:27-56 | creating works iff no organization, deleted ones included, has the slug; the creator then owns a new open organization as its only member |
| TenancyEffects.TransferSays | src/modules/org/org.service.js:233-261 | a transfer works iff the caller owns the open organization and the target is another member, who is then the owner and OWNER, the caller ADMIN, everything else as before |
| TenancyEffects.TransferBack | src/modules/org/org.service.js:233-261 | the new owner can hand the organization back, which is then as before but for the role of the one who handed it back |
| TenancyEffects.RoleChangeSays | src/modules/org/org.service.js:210-228 | a role change works iff the caller manages the open organization, the target is a member other than the owner and the role is not OWNER; exactly the target then has that role |
| TenancyEffects.RemovalSays | src/modules/org/org.service.js:263-276 | a removal works iff the caller manages the open organization and the target is a member other than the owner, who alone is then none |
| TenancyEffects.OrganizationDeletionVerdict | src/modules/org/org.service.js:126-167 | deleting an organization works iff the caller owns the open organization and Stripe, where configured, rejects no billed subscription of it |
| TenancyEffects.OrganizationDeletionSays | src/modules/org/org.service.js:157-165 | it is then soft-deleted with exactly its billed rows cancelled, or no local row moved |
| TenancyEffects.RestoreSays | src/modules/org/org.service.js:169-183 | a restore works iff the caller owns the soft-deleted organization, and undoes the soft delete only |
| TenancyEffects.DeleteThenRestore | src/modules/org/org.service.js:126-183 | between delete and restore nobody manages the organization; after them organizations, memberships and invitations are as before |
| TenancyEffects.InvitationSays | src/modules/org/invitation.service.js:33-92 | inviting works iff the caller manages the open organization, the role is not OWNER and the address is neither in nor invited; one new pending invitation then says who, whom, where and as what |
| TenancyEffects.InviteThenAccept | src/modules/org/invitation.service.js:33-223 | an invited live user gets the invited role by accepting within seven days, and not later |
| TenancyEffects.AcceptanceSays | src/modules/org/invitation.service.js:151-223 | accepting works iff the invitation is pending, in time, sent to the caller's address, and the caller is no member, who then alone becomes one with the invited role; a member's acceptance only settles it, one too late only expires it |
| TenancyEffects.DeclineSays | src/modules/org/invitation.service.js:225-257 | declining works iff the invitation is pending, in time and sent to the caller's address |
| TenancyEffects.CancellationSays | src/modules/org/invitation.service.js:259-275 | cancelling works iff the caller manages the inviting organization and the invitation is pending |
| TenancyEffects.CleanupSays | src/modules/jobs/maintenance.worker.js:76-88 | the cleanup keeps an answered invitation for the retention counted from its answer, and a pending one for good |
| TenancyEffects.DeletionSucceedsExactly | src/modules/gdpr/gdpr.service.js:166-262 | an account is deleted iff the user is live, the password is its own, another live administrator is left if it is one, no owned organization, deleted or not, has a second member, and Stripe, where configured, rejects no billed subscription of it or of what it owns |
| TenancyEffects.UsersLeaveByRight | src/modules/gdpr/gdpr.service.js:180-181 | whatever the request, a user disappears only by deleting the own account with the own password |
| TenancyEffects.CallsInOrder | src/modules/gdpr/gdpr.service.js:240-250 | the cancellation loop makes its calls in order up to the first rejection, and what Stripe has cancelled is exactly what it accepted |
| TenancySafety.RunSound | src/modules/org/org.service.js:27-276 | every serial run keeps exactly one OWNER membership per organization, that of ownerId, no invitation with OWNER, at most one pending per organization and email; an invitation that left PENDING keeps its status |
| TenancySafety.EveryRunIsSound | src/modules/org/org.service.js:34-46 | every state reachable from empty tables satisfies those invariants |
| TenancySafety.MembershipChangesByRight | src/modules/org/org.service.js:210-276 | whatever the request, a membership changes only by creating the organization, by an OWNER or ADMIN acting on somebody who is not the OWNER, by the owner handing over, by the invitee accepting, or by deleting the own account |
| TenancySafety.OwnershipIsKept | src/modules/org/org.service.js:217-272 | until its owner transfers it or deletes the account, in every run an organization stays and its owner stays its one OWNER |
| TenancySafety.InvitationsEndByRight | src/modules/org/invitation.service.js:151-275 | whatever the request, a pending invitation ends only by its invitee's answer, a noticed expiry, a cancellation by an OWNER or ADMIN of its organization, or the cascade of its inviter or owner |
| TenancySafety.AcceptedOnce | src/modules/org/invitation.service.js:165-166 | an invitation that left PENDING is never accepted again in any later run |
| TenancySafety.CascadeIsClosure | prisma/schema.prisma:119-139 | deleting a user removes exactly the rows reached from it through chains of cascading foreign keys |
| TenancySafety.DeletionSparesOthers | src/modules/gdpr/gdpr.service.js:204-213 | a successful account deletion leaves every other user, their memberships, their organizations (soft-deleted included) and their subscriptions as they were |
| TenancySafety.QueryMatchesCascade | src/modules/gdpr/gdpr.service.js:232-239 | the cancellation query selects a row iff it is live and the cascade destroys it |
| TenancySafety.NoOrphanedBilling | src/modules/gdpr/gdpr.service.js:232-259 | a successful deletion has cancelled at Stripe every live row it removes; one that fails, anywhere in the loop, changes no local row |
| TenancySafety.OrganizationBillingEnds | src/modules/org/org.service.js:139-165 | deleting an organization ends with every live row cancelled on both sides and no other row touched, or with every local row as it was |
| TenancySafety.StripeTouchesOnlyStripe | src/modules/gdpr/gdpr.service.js:240-250 | the loop of cancellations changes nothing locally, and succeeds iff Stripe accepts them all, which are then cancelled |
| TenancyService.TenancyStore.FindLive | src/modules/gdpr/gdpr.service.js:233-239 | the rows found are the wanted ones with a live status |
| TenancyService.TenancyStore.CancelEach | src/modules/gdpr/gdpr.service.js:240-250 | the loop stops at the first rejection, with exactly the calls before it made |
| TenancyService.TenancyStore.DeleteAccountOf | src/modules/gdpr/gdpr.service.js:166-262 | the new tables and the reply are those of the deletion step: password, last admin, shared organizations, cancellations, cascade |
| TenancyService.TenancyStore.DeleteOrganizationOf | src/modules/org/org.service.js:126-167 | cancellations first, then local statuses, then the soft delete; a rejection leaves local rows alone |
| TenancyService.TenancyStore.Accept | src/modules/org/invitation.service.js:151-223 | status and membership change together; expired and already-member branches change the status only |
| SanitizePaths.EveryPath | src/middleware/sanitize.middleware.js:20-58 | for both sanitizers, at every path of a body: what is reached without a dangerous key of a container at depth 10 or less is there and nothing else; strings come out cleaned down to depth 10, in place down to 11; other primitives, array lengths and the order of the harmless keys stay |
| SanitizePaths.StringsAreCleaned | src/middleware/sanitize.middleware.js:23-54 | a string at depth 1 to 10 that no dangerous key leads to comes out cleaned, at the same path, from both |
| Sanitize.SanitizersAgree | src/middleware/sanitize.middleware.js:20-58 | the in-place result of a container equals the pure one iff no surviving string at depth 11 would be changed |
| Sanitize.InPlaceIsClean | src/middleware/sanitize.middleware.js:49-53 | no forbidden or dollar-prefixed key is left in any container at depth 10 or less |
| SanitizeHeap.JsNode.SanitizeInPlace | src/middleware/sanitize.middleware.js:40-58 | on an unshared tree of mutable nodes, the heap afterwards holds the in-place result, and only nodes of that tree were written |
| SanitizeHeap.JsNode.SanitizeElements | src/middleware/sanitize.middleware.js:42-48 | the array loop leaves every element sanitized in its slot |
| SanitizeHeap.JsNode.SanitizeFields | src/middleware/sanitize.middleware.js:49-57 | the loop over a snapshot of the keys deletes the forbidden ones and sanitizes the others in place and in order |
| SanitizeHeap.JsNode.SanitizeSlot | src/middleware/sanitize.middleware.js:54-55 | a string slot is replaced, a container slot is sanitized, every other slot keeps its tree |
| SanitizeHeap.RepresentsOne | src/middleware/sanitize.middleware.js:40-58 | a node holds one tree only, so the heap results determine the value |
| SanitizeHeap.SanitizeBody | src/middleware/sanitize.middleware.js:67-70 | after the middleware the body holds the pure sanitizer's result iff no surviving string at depth 11 would be changed, and it is clean |
| SanitizeHeap.SanitizeCopy | src/middleware/sanitize.middleware.js:20-34 | the loops of the pure sanitizer compute the function the agreement is stated about |
| ConverterMeaning.ConvertPreserves | src/modules/docs/openapi.converter.js:52-87 | for every well-formed schema and every value, the output accepts the value iff the input does |
| ConverterMeaning.AnyOfMeaning | src/modules/docs/openapi.converter.js:36-46 | a nullable anyOf with anything beside it keeps its meaning at a value iff, where the value is null or a member accepts it, a member and the keywords beside the union accept it or the node is nullable and the value null |
| ConverterMeaning.OneOfMeaning | src/modules/docs/openapi.converter.js:36-46 | the same for a nullable oneOf, with exactly one accepting member |
| ConverterMeaning.OneOfAloneMeaning | src/modules/docs/openapi.converter.js:36-46 | a nullable oneOf with nothing beside it keeps its meaning iff no other member accepts null |
| ConverterMeaning.LoneNullMeaning | src/modules/docs/openapi.converter.js:31-42 | a union of null alone, or of null and `false`, comes to accept everything and keeps its meaning at null only, and only if the node accepts null |
| ConverterMeaning.ConstBesideEnum | src/modules/docs/openapi.converter.js:58-60 | a const beside an enum keeps its meaning iff the const value, where the other keywords let it through, is in the enum |
| ConverterMeaning.ConstBesideUnion | src/modules/docs/openapi.converter.js:58-64 | a const beside a nullable union keeps its meaning iff the const is null and, under oneOf, no other member accepts null |
| ConverterMeaning.LoneNullAcceptsAll | src/modules/docs/openapi.converter.js:31-34 | a union of null alone accepts null only, its conversion accepts everything |
| ConverterMeaning.SiblingKeywordIsLost | src/modules/docs/openapi.converter.js:36-42 | a keyword beside a nullable union is dropped, so a string becomes acceptable |
| ConverterOutput.TidyIsExact | src/modules/docs/openapi.converter.js:52-87 | the output has no const, no dialect marker and no null union member at any visited node iff the input is tidy: where a union of null and several others is collapsed, and in every other union, no kept member ends as a null schema |
| ConverterOutput.FixedIffClean | src/modules/docs/openapi.converter.js:52-87 | the schemas that conversion leaves alone are exactly the clean ones |
| ConverterOutput.ConvertTwice | src/modules/docs/openapi.converter.js:52-87 | a second conversion changes nothing iff the input is tidy |
| ConverterOutput.ConvertIsClean | src/modules/docs/openapi.converter.js:52-87 | at most one null member per union suffices for both |
| ConverterOutput.SecondNullSurvives | src/modules/docs/openapi.converter.js:26-29 | of two null members one survives, and a second conversion differs from the first |
| ConverterOutput.AnnotationsCarried | src/modules/docs/openapi.converter.js:36-43 | description and example of the output: of null and one other the node's own, else the other's, through nested unions; none from a longer or a lone union; otherwise the node's own |
| Converter.ConvertNode | src/modules/docs/openapi.converter.js:52-60 | the assignments and deletions on the local copy compute the conversion the theorems are about |
| Converter.ConvertStripped | src/modules/docs/openapi.converter.js:62-87 | the same for the node without its const, keyword by keyword |
| Converter.CollapseUnion | src/modules/docs/openapi.converter.js:21-49 | the three union cases of the collapse |
| Escape.RoundTrip | src/modules/shared/email.service.js:12-30 | unescaping the escaped text gives the text back iff it contains none of the four literal entities other than the ampersand's |
| Escape.RoundTripIsFour | src/modules/shared/email.service.js:24-30 | for every text, the round trip is what the last four replacements of unescapeHtml make of the text itself |
| Escape.EscapeIsCharwise | src/modules/shared/email.service.js:12-18 | the five passes equal one pass over the characters |
| Escape.EscapedIsHarmless | src/modules/shared/email.service.js:10-18 | escaped text has none of the four raw characters and every ampersand in it starts one of the five entities |
| Query.PagesTile | src/utils/query.js:1-13 | for every list and limit of at least 1, pages 1 to totalPages concatenate to the list, a page is empty iff it is later, and hasNext holds iff page is before totalPages |
| Query.CeilDivIsLeast | src/utils/query.js:10-10 | totalPages is the least number of pages that reaches the end |
| Rollout.EvaluationSays | src/modules/featureflag/featureflag.service.js:143-208 | an inactive or missing flag is off, an override decides alone and turns the flag off when switched off, otherwise the flag's value decides: a switch, a share of the hash buckets, or a list of plans where no list means every plan |
| Rollout.RaisingNeverDisables | src/modules/featureflag/featureflag.service.js:192-200 | for a fixed flag and organization, raising the percentage never disables it, ends included |
| Rollout.ExactShare | src/modules/featureflag/featureflag.service.js:180-200 | at integer p in 1..99, exactly p * (n div 100) + min(p, n mod 100) of the hash words 0..n-1 are enabled |

## Left out

- Express routing, controllers, Zod schemas, rate limiting, Redis, BullMQ, logging, audit records and Swagger: wiring around libraries.
- Internals of Stripe, Google, bcrypt, JWT, AES-GCM and otplib: only the contracts named under the conventions; collisions of random tokens and of hashes are excluded by construction.
- `checkout.session.completed`: it fetches its subscription from Stripe, so its data is not part of the event.
- The `where` of `cancelSubscription` and `cancelOrgSubscription`: a cancellation request may name any row, which covers the one the query picks.
- Deletion of users and organizations under running webhooks: the billing machine has no cascade; `Tenancy` has cascades and writes to subscription rows, one request at a time.
- Concurrent rotation, lockout, backup-code removal and invitation acceptance: the code reads and then writes without a guard, so their theorems are about serial runs.
- Lookup by e-mail and by hashed token: a request names the user, token or challenge it resolves to, including ones that do not exist; linking of Google identities is left out with it.
- E-mail verification and change, API keys, profile fields, notifications, projects, feature flag overrides and audit logs: they touch none of the invariants; their rows do cascade, and the claims about other people's data do not extend to projects or to invitations sent by the deleted user.
- The `inviteeId` column, name and slug updates of an organization.
- Legacy bcrypt backup codes and legacy unencrypted secrets.
- `sanitizeString`: an arbitrary function on strings, so nothing is claimed about what its patterns remove or about doing it twice.
- Shared or cyclic objects in the in-place sanitizer: bodies come from JSON and are trees.
- `stripTransforms` and the Zod side of the converter; keywords the converter copies without looking inside are one opaque constraint per node, and tuple-form `items` is not part of this model.
- ConverterMeaning.ConvertPreserves: one direction for whole schemas; the exact conditions are given node by node, for nodes whose members are well-formed.
- ConverterMeaning.ConstBesideUnion: for a plain null member and a union with nothing else beside it but the const.
- BillingLoss.FirstWritersLoseExactly: for schedules without prunes; with prunes an event can enter again, and `FirstWritersConverge` speaks of its last entry.
- A request that throws after the ledger insert for another reason than a P2002 is over like one that crashed, but only crashes are counted as losses: events are assumed to pass the table constraints.
- Fractional pages and limits, and `limit` 0: the schemas of the routes admit positive integers only.
