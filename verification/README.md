# Verification of the authentication service

A Dafny model of the service's protocols over its two stores: expiring Redis
keys and Postgres rows. `dafny verify dfyconfig.toml` checks everything.

| module | what it models |
|---|---|
| `Interleaving`, `InterleavingCalls` | refresh, login, logout, revocation and cron as a small-step machine: every store access is a step, calls interleave freely, any write may be lost or reported as failed after taking effect |
| `Sessions`, `SessionRuns`, `SessionResets`, `SessionAgreement`, `SessionAuthority`, `SessionReplies`, `SessionAdmin` | the same service calls as atomic steps whose store accesses each have an outcome, and theorems about whole runs of them |
| `SessionService` | those calls statement by statement over mutable stores, proved equal to the functions of `Sessions` |
| `Lockout`, `OneTimeCode`, `Totp` | the throttling machines and their arithmetic bounds |
| `Mfa`, `MfaFactors`, `MfaRuns`, `MfaLog`, `MfaConservation`, `MfaGate`, `MfaService` | enrolment, the login gate, challenges and the consumption of one-time credentials |
| `Audit`, `AuditReplay`, `AuditOrder`, `AuditActor`, `AuditStatements`, `AuditService` | interleaved transactions on pooled connections, row locks, the audit triggers and the transaction-local actor |
| `Text`, `Phc`, `PhcRoundTrip`, `PhcVerdict`, `PepperSet`, `HashUpgrade` | password strings, pepper rotation, rehash on login, the pepper configuration |
| `Username`, `Identity` | sign-up, single sign-on linking, derived usernames |
| `Maintenance` | the cleanup jobs and their loop |
| `Base`, `Counting` | shared vocabulary and two facts about multiples |

Assumptions. One monotone clock, in whole seconds, serves the application,
Redis and Postgres. Random ids and tokens are fresh; `HashOpaqueToken` is
injective on issued tokens, so a token is identified with its hash. A JWT
signature is membership in the set of signed claims. Argon2, base64, TOTP
generation, Postgres `lower` and the UUID cast are uninterpreted functions with
the stated assumptions. The time-to-live constants are those of
`config/config.go:87-107`. Outside `Interleaving` and `Audit` a service call is
one atomic step. A `Write` is applied, lost, or applied but reported as an
error; a transaction commits, fails at any statement, or fails at the commit
with or without having committed.

Where a promise turned out false, the code is modelled as it is and the exact
condition is proved:

- The lockout bound N + ⌊T/D⌋ holds if and only if that number fits the INTEGER
  counter: a full counter makes the increment fail, and then nothing locks
  (`Lockout.LockoutBoundIff`).
- `revoke_old_sessions` breaks the agreement of cache and rows exactly when an
  aged session still has a live key, and regular refreshing leads there
  (`SessionAgreement.RevokeOldKeepsAgreementIff`, `RefreshedSessionOutlivesItsRow`).
- A revoked session is not always closed at once. A token of it can verify again
  if and only if a caller holds an unexpired one and either the session key is
  still live or a call past its row check can still write it
  (`Interleaving.ReopensIff`); a complete logout during a refresh leads there
  (`LogoutCanBeUndone`).
- `audit_logs` records no order but `created_at`, the start of the transaction.
  Folding a row's entries in that order gives its columns exactly when in each
  column the entries created last record the current value, and it is the order
  of the changes exactly when starts increase along the row's entries
  (`AuditOrder.LogReplaysByStartIff`); two overlapping transactions break both
  (`StartOrderMisleads`). `AuditReplay.LogReplaysToState` folds in the order of
  the commits, which the model records and the table does not.
- Password strings round-trip if and only if the active pepper id has no `$`,
  comma or white space; the ids that can be configured include some with `$` or
  inner white space (`PepperSet.ActiveIff`, `AwkwardIdsLoad`). With `$` no stored
  password verifies any more. With white space the part before it decides: the
  original password verifies exactly if that part names a pepper giving the same
  key, or names none, all are tried and one gives it
  (`PepperSet.ConfiguredVerifiesIff`). The rehash on login can therefore lock an
  account out, and exactly when is `HashUpgrade.UpgradeVerifiesIff`.
- A derived username violates the `users` CHECK constraint exactly when it is
  the unnumbered candidate and truncation to 24 characters cut right after a
  dot or underscore; single sign-on registration then fails.
- The comment on `requireRole` (`internal/handlers/admin.go:15-42`) says an
  unrecognised role is refused; the map lookup ranks it like `user`
  (`SessionAuthority.UnknownRoleRanksAsUser`). The code is modelled. No such
  string reaches the gate today: `users.role` is an enum, and temporary tokens
  carry no user id, which `internal/auth/jwt.go:291-311` demands.

## Model

| member | source | states |
|---|---|---|
| Interleaving.StepKeepsInv | internal/services/refresh_token_service.go:40-136 | every step of every interleaving keeps: tokens handed out were signed before their row was revoked, revocation never goes back, a call past its row check still finds the row |
| Interleaving.RevocationIsBounded | internal/db/postgres/sessions.sql.go:166-174 | for every interleaving and all store failures: a revoked row stays revoked, every token ever returned for it was signed no later than the revocation, and none verifies from one access lifetime after it |
| Interleaving.ClosedForever | internal/services/refresh_token_service.go:131-136 | once the row is revoked, the session key is gone or expired and no call in flight can write it again, no token of the session verifies in any later state |
| Interleaving.InFlightRefreshReopens | internal/auth/jwt.go:102-136 | any call in flight that can still write the key has a schedule that makes an older unexpired token verify again without touching the rows |
| Interleaving.ReopensIff | internal/services/refresh_token_service.go:79-128 | a token of a revoked session verifies now or in some future if and only if a caller holds an unexpired one and the session is not closed in that sense |
| Interleaving.LogoutCanBeUndone | internal/services/logout_service.go:21-42 | such a state is reached from every initial state, for every user and fresh session id, by a login, a refresh past its row check and a complete logout |
| InterleavingCalls.BulkRevokeStep | internal/db/postgres/sessions.sql.go:118-151 | when the bulk update takes effect every row of the user but the kept one is revoked, at that instant or since before; no other row and no key changes |
| InterleavingCalls.FailedListingStillRevokes | internal/services/admin_service.go:196-219 | a failed listing leaves the keys but not the rows |
| InterleavingCalls.UnacknowledgedRevocationEnds | internal/services/admin_service.go:226-229 | an update reported as failed ends the call without a deletion, even if it took effect |
| InterleavingCalls.BulkRuns | internal/services/admin_service.go:188-239 | the whole effect on both stores of a bulk call without failures, whatever else is in flight, for every order of the deletions |
| InterleavingCalls.BulkClosesIff | internal/services/admin_service.go:231-235 | such a call closes a session of the user for good if and only if no call in flight may still write its key and it was not an already revoked session with a live key left over |
| InterleavingCalls.BulkEndsOpenSessions | internal/services/admin_service.go:244-286 | no token of an open session of the user verifies again under any later schedule, unless a refresh was in flight |
| InterleavingCalls.BulkSparesTheKept | internal/services/change_password_service.go:98-110 | the caller's own session keeps its row and its keys |
| InterleavingCalls.CronStep | db/migrations/004_revoke_triggers.up.sql:49-68 | a cleanup job revokes exactly the rows it selects that were open |
| InterleavingCalls.FailedLoginUndone | internal/services/login_service.go:180-224 | a login whose row insert failed takes its keys back and hands out nothing |
| InterleavingCalls.SoloRefresh | internal/services/refresh_token_service.go:40-128 | an undisturbed refresh from any stores: on a match the new secret is in both stores and a token of the row's user is handed out, on a mismatch row and keys end, with nothing to compare with nothing changes |
| InterleavingCalls.SoloIsRun | internal/services/refresh_token_service.go:40-128 | undisturbed moves of a call among any others are a run of the interleaving machine |
| SessionService.Stores.StoreTokens | internal/auth/jwt.go:102-162 | key, signature, key: the exact state after a failure at each of the three |
| SessionService.Stores.IssueLoginSession | internal/services/login_service.go:180-224 | issuing a session, with the Redis keys deleted again when the row insert fails |
| SessionService.Stores.RefreshToken | internal/services/refresh_token_service.go:40-128 | refresh with an outcome for each store access equals the call function about which the run theorems are proved, in state and reply |
| SessionService.Stores.RevokeCompromisedSession | internal/services/refresh_token_service.go:131-136 | both revocation writes, each of which may fail alone |
| SessionService.Stores.Logout | internal/services/logout_service.go:21-42 | keys deleted and row revoked; success is reported only if the revocation was acknowledged |
| SessionService.Stores.DeleteSessions | internal/services/change_password_service.go:100-110 | the deletion loop removes exactly the listed sessions except the kept one and those whose deletion failed |
| SessionService.Stores.ListActiveSessionIDs | internal/db/postgres/sessions.sql.go:88-116 | exactly the unrevoked sessions of the user, in some order |
| SessionService.Stores.LoadAdminTarget | internal/services/admin_service.go:498-519 | the refusals every administrative call shares, in their order, a failed lookup among them |
| SessionService.Stores.SetUserStatusAction | internal/services/admin_service.go:188-239 | ban, unban, disable, enable at every failure point |
| SessionService.Stores.ForceLogoutUser | internal/services/admin_service.go:244-286 | forced logout at every failure point |
| SessionService.Stores.ChangeUserRole | internal/services/admin_service.go:293-330 | role change; granting admin is refused |
| SessionService.Stores.DeleteUserAction | internal/services/admin_service.go:337-379 | soft deletion with revocation at every failure point |
| SessionService.Stores.ResetPasswordWith | internal/services/password_reset_service.go:140-203 | every refusal in order; then three statements and the commit on working copies: at every failure point token used, hash changed and rows revoked happen together or not at all; then the key deletions |
| SessionService.Stores.ChangeOwnPassword | internal/services/change_password_service.go:29-114 | every refusal in order, wrong and unchanged password included; then the change and the revocation of the other sessions at every failure point |
| SessionRuns.CallEffect | internal/auth/jwt.go:140-162 | any call, under any failures, either adds nothing to the stores or puts one fresh secret into one session that was new or whose row was unrevoked with a live key |
| SessionRuns.ExchangedAtMostOnce | internal/services/refresh_token_service.go:51-128 | in every run with any store failures no refresh token is exchanged successfully twice |
| SessionRuns.DeadForever | internal/auth/jwt.go:140-162 | a session without live refresh key, without row or with a revoked row never becomes refreshable again |
| SessionRuns.ReuseKillsSession | internal/services/refresh_token_service.go:51-84 | after a wrong token was compared and one of the two revocation writes took effect, no refresh of that session ever succeeds again |
| SessionRuns.ReplayIsDetected | internal/services/refresh_token_service.go:51-84 | presenting an exchanged token again to a session with a live key is always such a mismatch |
| SessionReplies.RefreshAnswers | internal/services/refresh_token_service.go:111-128 | a successful refresh answers with the secret that both stores now hold, not with the consumed one, and with an accepted access token for the row's user and stored role |
| SessionReplies.LoginAnswers | internal/services/login_service.go:180-224 | the same for every login, on a session nobody held before |
| SessionReplies.RefreshSucceedsIff | internal/services/refresh_token_service.go:51-109 | with every access answered a refresh succeeds exactly if key, row and account match |
| SessionReplies.RefusedRefresh | internal/services/refresh_token_service.go:51-109 | a refused refresh ends exactly its own session if something differed, and otherwise changes nothing |
| SessionReplies.AnsweredSecretWorks | internal/auth/jwt.go:140-162 | over runs with any failures: the secret answered by a login or refresh is exchanged successfully at any time within its lifetime, as long as no call concerns that session |
| SessionReplies.LoginLeaves | internal/services/login_service.go:180-224 | what a login leaves in both stores, whichever of its writes failed |
| SessionReplies.RefreshLeaves | internal/services/refresh_token_service.go:111-128 | what a matching refresh leaves, whichever of its writes failed |
| SessionReplies.KillParts | internal/services/refresh_token_service.go:131-136 | each of the two revocation writes does its part alone |
| SessionReplies.LogoutEnds | internal/services/logout_service.go:21-42 | a logout ends its session in both stores and touches no other |
| SessionReplies.ChangeAnswers | internal/services/change_password_service.go:49-82 | a password may be changed exactly by a usable account that gives its current password and a different new one |
| SessionReplies.ChangedPasswordReplacesOld | internal/db/postgres/change_password.go:16-29 | with the change the old password stops and the new one starts working, and without it nothing changes |
| SessionAdmin.AdminAnswers | internal/services/admin_service.go:498-519 | exactly when each refusal of an administrator's call is given |
| SessionAdmin.BulkLeaves | internal/services/admin_service.go:196-235 | what a bulk revocation leaves in both stores under any failures of listing, transaction and single deletions |
| SessionAdmin.StatusCallEffect | internal/services/admin_service.go:158-239 | ban and disable set their status and end all sessions of the account, unban and enable set it active and end none; nobody else is touched |
| SessionAdmin.DeleteCallEffect | internal/services/admin_service.go:337-379 | deletion marks the account and ends all its sessions |
| SessionAdmin.RoleCallEffect | internal/db/postgres/admin.sql.go:292-296 | a role change touches the role of a live account and no session |
| SessionAdmin.ExpiryJobEffect | db/migrations/004_revoke_triggers.up.sql:49-56 | the expiry job revokes exactly the rows past their date |
| SessionAdmin.ResetGoesAheadIff | internal/services/password_reset_service.go:154-173 | in every run a reset goes ahead exactly if its token was issued by an earlier request for a user who may log in, less than its lifetime ago, and no reset in between took effect with it |
| SessionResets.RedeemedAtMostOnce | internal/services/password_reset_service.go:140-185 | once a reset with a token took effect every later attempt with it is refused, in every run |
| SessionAgreement.CallKeepsAgreement | internal/auth/session.go:46-83 | every call whose writes and session listing succeed keeps cache and rows in agreement |
| SessionAgreement.CacheAgreesWithRows | internal/services/admin_service.go:188-239 | in every reachable state a live key implies an unrevoked row that outlives it with the same refresh hash, and a banned, disabled or deleted user has no live key and no open row |
| SessionAgreement.RevokeOldKeepsAgreementIff | db/migrations/004_revoke_triggers.up.sql:60-68 | the 30-day job keeps the agreement if and only if no aged session has a live key |
| SessionAgreement.RefreshedSessionOutlivesItsRow | db/migrations/004_revoke_triggers.up.sql:60-68 | such a state is reachable by refreshing, for any user who may log in |
| SessionAgreement.ResetEndsAllSessions | internal/services/password_reset_service.go:185-199 | a successful reset leaves no live session and no open row of the account and touches no other session |
| SessionAgreement.ChangeKeepsOnlyTheCaller | internal/services/change_password_service.go:93-110 | a successful change ends all other sessions of the account and leaves the caller's and everybody else's as they were |
| SessionAuthority.EveryTokenWasSigned | internal/auth/jwt.go:102-136 | every token in existence was signed at some moment of the run with the role its user then had |
| SessionAuthority.AuthorityIsRecent | internal/handlers/admin.go:15-42 | whoever passes the role gate at t had a sufficient stored role at some moment in (t − access lifetime, t] |
| SessionAuthority.UnknownRoleRanksAsUser | internal/handlers/admin.go:15-42 | an unknown role string passes exactly the gates a plain user passes; known roles are ordered user, moderator, admin |
| SessionAuthority.AdminsNeverChange | internal/services/admin_service.go:293-330 | over all runs and failures the set of admins and each one's role, status and deletion mark never change |
| Lockout.AuthIdentity.Attempt | internal/services/login_service.go:83-128 | one login attempt on the identity row, the refusals of deleted and unusable accounts included, equals the throttling function, in state and outcome |
| Lockout.LockIsNeverExtended | internal/services/login_service.go:93-97 | however many attempts fall into a lock, the row stays as it was, no password is verified, and the lock ends when it would have |
| Lockout.GuessesAreSpaced | internal/db/postgres/auth_identities.sql.go:138-185 | from any row state, each verified wrong password beyond the free ones comes a lock duration after the one before |
| Lockout.GuessBound | internal/services/login_service.go:105-116 | from any row state at most N + ⌊T/D⌋ wrong passwords are verified in T seconds without a success |
| Lockout.LockoutBoundIff | internal/db/postgres/auth_identities.sql.go:138-185 | for a fresh row the bound holds if and only if it fits the INTEGER column, and then some run reaches it |
| Lockout.RowIsFoldOfHistory | internal/db/postgres/auth_identities.sql.go:138-191 | counter and lock instant are a fold over the history of wrong guesses since the last success |
| Lockout.AnswerIff | internal/services/login_service.go:83-128 | after every history, exactly when each of the five answers is given, from a ledger of the attempts alone: accepted means right password, usable, not deleted, not locked |
| Lockout.AttemptEffect | internal/services/login_service.go:105-128 | only a success clears counter and lock, a counted wrong password raises the one and may renew the other, and every other answer leaves the row alone |
| OneTimeCode.CodeStore.SendCode | internal/services/mfa_email_service.go:210-232 | sending overwrites the code unless one younger than the cooldown is stored |
| OneTimeCode.CodeStore.VerifyCode | internal/services/verify_email_code_service.go:42-83 | expiry, attempt limit, comparison, counting with a renewed key, deletion on success |
| OneTimeCode.CodesAreSpaced | internal/services/start_email_verification_service.go:43-72 | codes that supersede one another are at least the cooldown (or the shorter lifetime) apart, each with at most five wrong guesses |
| OneTimeCode.GuessBound | internal/services/mfa_email_service.go:210-262 | without a success at most 5·(⌊T/gap⌋ + 1) guesses are compared in T seconds, the gap being the shorter of cooldown and code lifetime |
| OneTimeCode.ConfiguredBound | internal/services/start_email_verification_service.go:43-72 | for the configured ten-minute lifetime at most 5·(⌊T/60⌋ + 1) |
| OneTimeCode.BoundIsReached | internal/services/mfa_email_service.go:210-262 | some history reaches that bound after every number of gaps |
| OneTimeCode.SlotIsLedger | internal/auth/mfa_otp_code.go:26-48 | after every history Redis holds exactly what a ledger kept from the events alone says: last code sent, wrong guesses since, last write |
| OneTimeCode.AcceptedIff | internal/auth/mfa_otp_code.go:26-32 | a code is accepted exactly if it is the last one sent and unused, has fewer than five wrong guesses, a live key, and is no older than its lifetime, although wrong guesses renew the key |
| OneTimeCode.RefusedIff | internal/services/verify_email_code_service.go:42-83 | after every history, exactly when each refusal is given |
| OneTimeCode.SendRefusedIff | internal/services/start_email_verification_service.go:43-54 | a new code is refused exactly while the last one is stored and less than a minute old |
| Totp.ValidateTOTPCode | internal/auth/mfa_totp.go:50-70 | the skew loop returns the accepted step or fails exactly when there is none |
| Totp.Accept | internal/auth/mfa_totp.go:50-70 | the accepted step is the least one in the window above the last used whose code matches; none exactly if none matches |
| Totp.AcceptedIff | internal/auth/mfa_totp.go:39-70 | a code is accepted at an instant exactly if it belongs to an unused half minute that began at most a minute ago or begins within half a minute |
| Totp.AcceptedStepsIncrease | internal/services/mfa_service.go:106-120 | whatever is submitted, accepted steps strictly increase and the stored step is the last of them |
| Totp.AcceptedAtMost | internal/services/mfa_service.go:215-222 | at most step(t1) − step(t0) + 3 codes are accepted between t0 and t1 |
| Totp.EveryStepAccepted | internal/auth/mfa_totp.go:39-70 | that number is reached by a device submitting each step's code, for every generator that yields codes for those steps |
| MfaFactors.CompleteKeepsInv | internal/db/postgres/mfa.go:16-67 | confirming a factor, failing at any statement, keeps the factor invariant |
| MfaFactors.VerifyKeepsInv | internal/services/mfa_service.go:172-309 | consuming credentials keeps the factor invariant |
| MfaFactors.RowsOfInserted | internal/db/postgres/mfa.go:30-37 | a batch of accepted inserts adds exactly its size to the factor's rows and nothing to others' |
| MfaFactors.FactorsAlwaysOk | internal/db/postgres/mfa.sql.go:216-258 | in every reachable state verified = enabled, an active factor owns exactly the configured number of recovery rows with distinct hashes, a pending one owns none and has no last step |
| MfaConservation.SuccessConsumesOne | internal/services/mfa_service.go:209-309 | a successful second step takes away exactly its challenge and exactly one of a TOTP step, the emailed code and a recovery row: the three stores differ in that entry alone (and at most one wrong guess counted), it was usable before and is spent after, and every other credential of every account is exactly as usable as before, steps up to the accepted one of the same secret aside; a named method limits it to that method or a recovery row |
| MfaConservation.ConsumptionTakesOnly | internal/services/mfa_service.go:209-300 | the same exact difference of the stores whenever a credential is consumed, also when no session follows |
| MfaConservation.FailureConsumesNothing | internal/services/mfa_service.go:281-289 | a call that consumes nothing leaves challenges, factors, recovery rows and every credential as they were and counts at most one wrong guess |
| MfaRuns.CallEvolves | internal/db/postgres/mfa.sql.go:175-282 | every call only wears credentials out: steps grow, used rows stay used, whatever is new has a fresh name |
| MfaRuns.SpentForever | internal/db/postgres/mfa.sql.go:129-133 | a credential that can no longer be recognised never can be again |
| MfaLog.VerifySpends | internal/services/mfa_service.go:209-300 | a recognised credential was unspent before the call and is spent after it, even if the account is then found unusable |
| MfaLog.ConsumedOnceAndGated | internal/services/mfa_service.go:172-309 | in every run no credential and no challenge is consumed twice, and every session through a challenge follows a login that verified the password and a later consumption against that challenge |
| MfaLog.PasswordSessionsHadNoFactor | internal/services/login_service.go:136-172 | in every run each session issued on the password alone, at every position of the log, was put there by a login of that user with the right password, made when the account was usable and had no enabled factor and both lookups answered |
| MfaGate.VerifiedIff | internal/services/mfa_service.go:186-300 | with every read answered the second step succeeds exactly for a TOTP code, the emailed code or a recovery code that opens a live challenge of a usable account, and refuses the account exactly when only that is missing |
| MfaGate.ChallengeSessionsAreEarned | internal/services/mfa_service.go:172-309 | in every run each session through a challenge, at every position of the log, was put there by a second step of an account usable at that moment, for a code that opened the live challenge, which a login of that user with the right password had issued less than five minutes before |
| MfaGate.PasswordAnswerIff | internal/services/login_service.go:120-172 | exactly when each answer of the password step is given |
| MfaGate.OfferedMethods | internal/services/mfa_service.go:383-401 | the methods offered are the active factors, TOTP before email |
| MfaGate.EnrollEffect | internal/db/postgres/mfa.sql.go:216-258 | enrolment starts exactly if no such factor is active, keeps an abandoned one's id and forgets its secret and steps |
| MfaGate.ConfirmIff | internal/services/mfa_service.go:81-127 | an enrolment is confirmed exactly for a pending factor, a code of its secret, new recovery hashes and a transaction that took effect |
| MfaGate.ConfirmEmailIff | internal/services/mfa_email_service.go:81-119 | the same for the email factor |
| MfaGate.ChallengeEndsIff | internal/services/mfa_service.go:291-308 | a challenge is over exactly once its code was accepted for a usable account, whether or not the session could then be issued |
| MfaGate.DisableEffect | internal/services/mfa_service.go:133-159 | turning a factor off needs the password and takes its row and recovery rows and nothing else |
| MfaGate.StaleEffect | db/migrations/004_revoke_triggers.up.sql:38-45 | the cleanup removes a factor exactly if it was never confirmed and is over two hours old |
| MfaGate.SendEffect | internal/services/mfa_email_service.go:161-232 | a login code is mailed exactly for a live challenge of an account with the email factor, outside the cooldown |
| MfaService.MfaStores.ListEnabledMethods | internal/services/mfa_service.go:383-401 | enabled methods in priority order; any failed lookup fails the listing |
| MfaService.MfaStores.MethodEnabled | internal/services/mfa_service.go:403-410 | the loop decides membership |
| MfaService.MfaStores.PasswordStep | internal/services/login_service.go:99-172 | the gate after the password check, with failing lookups, challenge and session issue, equals the function about which the run theorems are proved |
| MfaService.MfaStores.Authenticate | internal/services/mfa_service.go:206-279 | the three attempts in order, with the exact change to factor, code and recovery row and the internal errors of failed reads |
| MfaService.MfaStores.VerifyMFALogin | internal/services/mfa_service.go:172-309 | the whole second step, every failing read and a failing session issue included, in state and reply |
| MfaService.MfaStores.CompleteEnrollment | internal/db/postgres/mfa.go:16-67 | the enrolment transaction with its insert loop, failing at any statement, is all or nothing |
| MfaService.MfaStores.InsertAll | internal/db/postgres/mfa.go:30-37 | the insert loop, including a hash collision and a failing insert |
| MfaService.GenerateRecoveryCodes | internal/services/mfa_service.go:326-339 | n drawn codes with their hashes, or nothing as soon as one draw fails |
| AuditReplay.WriteKeepsTxn | db/migrations/007_fix_actor_id_empty_string.up.sql:24-66 | one update with its trigger keeps a transaction's entries leading from the committed to the working version |
| AuditReplay.CommitKeepsTable | internal/db/postgres/with_tx.go:12-30 | committing appends a chain of entries that leads from the old to the new committed values |
| AuditReplay.LogReplaysToState | db/migrations/007_fix_actor_id_empty_string.up.sql:168-207 | after every interleaving of transactions, failures and rollbacks, the committed entries of a row folded in commit order from its inserted values give its current status and role, or failed attempts and lock, and each entry's old values are what the entries before it left |
| AuditOrder.LogReplaysByStartIff | internal/db/postgres/admin.sql.go:141-147 | in every reachable state: every order by `created_at` folds to the current columns if and only if in each column the entries created last record the current value; and that order is the commit order if and only if starts increase along the row's entries |
| AuditOrder.StartOrderReplaysIff | db/migrations/007_fix_actor_id_empty_string.up.sql:45-61 | the first of these for every chain of entries, ties in any order |
| AuditOrder.StartOrderMisleads | db/migrations/007_fix_actor_id_empty_string.up.sql:45-61 | a run of two overlapping transactions after which the order by `created_at` folds to banned while the row says active |
| AuditReplay.AdjacentEntriesMeet | db/migrations/002_log_triggers.up.sql:228-236 | two changes of a column with none between them meet: new value of the first = old value of the second |
| AuditActor.ActorNeverLeaks | internal/db/postgres/admin.go:19-26 | every committed entry comes from a committed transaction and carries the id given to that transaction's own `WithActor`, or NULL if none was given, whatever its connection was used for before |
| AuditActor.CastFailsIff | db/migrations/007_fix_actor_id_empty_string.up.sql:1-22 | with the current trigger bodies the cast fails only for an own id that is no UUID; with the older ones also on every reused connection |
| AuditActor.ReusedConnection | db/migrations/002_log_triggers.up.sql:33-33 | after an administrator's transaction, any audited change without actor on the same connection fails with the older trigger bodies and never with the current ones |
| AuditActor.RolledBackLeavesNothing | internal/db/postgres/with_tx.go:12-30 | a transaction that ended without committing never has an entry in the log |
| AuditStatements.AccountStatements | internal/db/postgres/admin.sql.go:292-332 | status and role change only on an account not deleted, an admin's role never, deletion is a mark |
| AuditStatements.IdentityStatements | internal/db/postgres/auth_identities.sql.go:138-209 | counter, lock, reset and hash, each exactly, with the overflow |
| AuditStatements.AccountDiff | db/migrations/007_fix_actor_id_empty_string.up.sql:168-183 | an entry records status and role exactly if they changed, with old and new value |
| AuditStatements.IdentityDiff | db/migrations/007_fix_actor_id_empty_string.up.sql:24-40 | the same for counter and lock, and that the hash changed without its values |
| AuditStatements.RaisedDooms | db/migrations/003_prevent_triggers.up.sql:18-32 | a statement that would take an admin's role, or count past the column, dooms its transaction |
| AuditStatements.FailedNeverCommits | internal/db/postgres/with_tx.go:12-30 | nothing of a transaction in which something failed is ever committed, under every later schedule |
| AuditService.Database.CollectChanges | db/migrations/007_fix_actor_id_empty_string.up.sql:168-183 | the accumulated object records exactly the changed columns with old and new value |
| AuditService.Database.Execute | db/migrations/007_fix_actor_id_empty_string.up.sql:24-66 | an update with its trigger on an open transaction equals the step of the interleaving model |
| AuditService.Database.WithTx | internal/db/postgres/with_tx.go:12-30 | begin, set the actor, run up to the first failing action, commit or roll back; success is reported exactly if nothing failed and the commit was acknowledged, the transaction is then committed, and a transaction not committed leaves table and log as they were |
| AuditService.BrokenOff | internal/db/postgres/with_tx.go:21-23 | stopping at the first error leaves the same state as running the remaining statements in the failed transaction |
| AuditService.TransactionReaches | internal/db/postgres/admin.go:19-26 | every such transaction is a run of the interleaving model, so its theorems apply |
| Phc.ParseParams | internal/auth/password.go:79-95 | the verification loop over the items equals the fold about which the round trip is proved |
| Phc.TryAll | internal/auth/password.go:118-126 | iterating the peppers in any order answers whether one of them fits |
| Phc.VerifyPasswordPHC | internal/auth/password.go:69-129 | verification with its five error and fallback cases |
| Phc.ShouldRehash | internal/auth/password.go:149-179 | the rehash test, whose loop does not trim, equals its specification |
| PhcVerdict.HashText | internal/auth/password.go:34-65 | when a password is hashed, and the text part by part, with Argon2 applied to password and active pepper |
| PhcVerdict.PrintedVerdict | internal/auth/password.go:69-129 | the verdict on every printed string with any parameters: which error, or else which guesses Argon2 accepts under which pepper |
| PhcVerdict.ForeignString | internal/auth/password.go:74-77 | a string without six parts or with another algorithm verifies nothing and is due |
| PhcVerdict.HashVerdict | internal/auth/password.go:109-128 | a hash accepts a guess if and only if Argon2 derives the same key from the guess with the selected pepper as from the password with the active one |
| PhcVerdict.OnlyItsOwnPassword | internal/auth/password.go:109-116 | if Argon2 has no collisions a hash accepts its own password and no other, under every later peppers that keep the id |
| PhcVerdict.LaterItems | internal/auth/password.go:84-95 | a later item overrides an earlier one and an overflowing number changes nothing |
| PhcVerdict.ItemAfterBlank | internal/auth/password.go:158-171 | an item after a blank is read by verification and not by the rehash test |
| PhcRoundTrip.RoundTripIff | internal/auth/password.go:58-128 | parsing a printed string gives back parameters, id, salt and key if and only if the id has no `$`, comma or white space |
| PhcRoundTrip.ParsedIsPlain | internal/auth/password.go:84-94 | no input makes the parser return an id with such a character |
| PhcRoundTrip.DollarIdNeverVerifies | internal/auth/password.go:74-77 | with `$` in the active id every verification of every hash made reports a format error |
| PhcRoundTrip.SeparableVerdict | internal/auth/password.go:109-128 | the verdict on a hash made under any id without `$`, comma and outer white space, for every guess and every later peppers: the part before the first white space names the pepper, and if it names none all are tried |
| PhcRoundTrip.HashVerifies | internal/auth/password.go:109-116 | for an id without such characters: under any later peppers that keep the id a stored hash accepts exactly the passwords with the same Argon2 key, the original among them |
| PhcRoundTrip.RehashIff | internal/auth/password.go:149-179 | a printed string is due exactly when a parameter or the active id differs |
| PhcRoundTrip.NeverSettles | internal/auth/password.go:175-177 | under an active id with such a character every new hash is due at once |
| HashUpgrade.StoredHash.Upgrade | internal/services/login_service.go:154-170 | the end of a login replaces the stored string exactly if it is due, a new one could be made and the update took effect |
| HashUpgrade.UpgradeVerifiesIff | internal/services/login_service.go:154-170 | after a login that verified, under any configured peppers, the same password verifies again if and only if the string was left alone or the active id has no `$` and its scanned part names no pepper or one that gives the same key |
| HashUpgrade.UpgradeSettles | internal/services/login_service.go:154-170 | for an active id without `$`, comma and white space a replaced string verifies and no later login replaces it again |
| HashUpgrade.UpgradeNeverSettles | internal/services/login_service.go:154-170 | for any other active id every such login replaces the string once more |
| HashUpgrade.BlankIdInUse | internal/auth/password.go:109-126 | with a single pepper whose id has white space in it, hashes verify only by trying all peppers and are always due |
| PhcRoundTrip.RehashSettles | internal/services/login_service.go:154-170 | after a rehash the same password verifies and the hash is due again exactly when the active id changes |
| PepperSet.NewStaticPepperManager | internal/auth/hash.go:52-81 | the configuration loop with all its error cases equals its specification |
| PepperSet.LoadedIds | internal/auth/hash.go:57-76 | configured ids contain no comma, no colon and no outer white space, configured peppers have at least 16 bytes |
| PepperSet.LoadedPeppers | internal/auth/hash.go:56-76 | entries load exactly if each is blank or gives a pepper, into exactly the ids they name, the last entry for an id deciding |
| PepperSet.ConfigurationIff | internal/auth/hash.go:52-81 | exactly which configurations are accepted and what they contain |
| PepperSet.ActiveIff | internal/auth/hash.go:52-81 | given some well-formed pepper, an id can be the active one if and only if it is nonempty with no comma, colon or outer white space |
| PepperSet.AwkwardIdsLoad | internal/auth/hash.go:52-81 | two configurations that load, one with `$` and one with a blank in the active id |
| PepperSet.BlankIdVerifiesByTryingAll | internal/auth/password.go:118-126 | if the scanned part names no pepper, the original password verifies as long as its pepper is configured under any id and all are tried |
| PepperSet.ConfiguredVerifiesIff | internal/auth/password.go:69-129 | for every configured active id and every later peppers: the exact verdict on every guess, and the original password verifies if and only if there is no `$` and the scanned part names a pepper giving the same key or, naming none, trying all finds one |
| PepperSet.ConfiguredRoundTripIff | internal/auth/hash.go:77-80 | for a configured active id the round trip holds if and only if it has no `$` and no white space |
| Text.SplitCons | internal/auth/password.go:74-84 | splitting at a separator gives back what was put before it |
| Text.SplitSize | internal/auth/password.go:74-77 | the number of parts is the number of separators plus one |
| Text.ScanPrinted | internal/auth/password.go:84-94 | scanning a printed unsigned number gives it back |
| Username.GenerateUniqueUsername | internal/services/sso_service.go:105-133 | the loop returns the first untaken of twenty candidates, or nothing exactly if there is none or a lookup failed before it |
| Username.CandidateShape | internal/services/sso_service.go:106-123 | every candidate has 2 to 26 allowed characters and an alphanumeric first one; it meets the column's constraint if and only if it is numbered or was not cut after a dot or underscore |
| Username.PickIff | internal/services/sso_service.go:119-132 | twenty candidates are looked up in order and the first free one is taken |
| Username.OrdinaryCandidates | internal/services/sso_service.go:106-123 | for an ordinary local part the candidates are itself and itself with 1, 2, … appended |
| Username.LongCandidates | internal/services/sso_service.go:112-114 | a longer one is cut to its first 24 characters |
| Username.SanitizeParts | internal/services/sso_service.go:98-110 | characters outside the alphabet are dropped, all others kept in order |
| Username.TrimDotsParts | internal/services/sso_service.go:111-111 | dots and underscores at the ends go and nothing between |
| Username.FallbackNames | internal/services/sso_service.go:106-109 | without a local part the name is made from "user" |
| Username.LongLocalPartIsRejected | db/migrations/001_init.up.sql:36-37 | a whole family of emails whose first candidate the column rejects |
| Username.RejectedExample | db/migrations/001_init.up.sql:36-37 | one concrete such email |
| Identity.IdentitiesAlwaysOk | internal/db/postgres/sso.go:21-44 | in every reachable state each account has exactly one identity, whose provider is its origin; usernames and emails are unique and usernames well formed |
| Identity.BoundForever | db/migrations/001_init.up.sql:50-66 | an identity stays bound to the same account in every continuation of a run |
| Identity.SameSubjectSameAccount | internal/services/sso_service.go:54-64 | two logins with the same provider and subject are to the same account, whatever email they carry |
| Identity.SsoCreatesIff | internal/services/sso_service.go:44-96 | single sign-on creates an account exactly when the email is vouched for, identity and email are unknown, the first free candidate is not the unnumbered one cut at a dot, and the transaction took effect |
| Identity.SsoNeverLinks | internal/services/sso_service.go:70-78 | no existing account is changed or given a new identity |
| Identity.KnownIdentityAnswer | internal/services/sso_service.go:54-64 | a known identity logs in to its own account exactly if that is usable, and changes nothing |
| Identity.SsoRefusals | internal/services/sso_service.go:45-78 | exactly when an unverified email and an email conflict are answered |
| Identity.CreatedAccount | internal/db/postgres/sso.sql.go:35-45 | what a new account carries: canonical email and username, display name, origin of its identity |
| Identity.JoinCreatesIff | internal/services/complete_email_join_service.go:35-77 | email sign-up creates an account exactly for valid input, a free well-formed name and a free email, if the transaction took effect |
| Identity.IdentityStore.CreateAccount | internal/db/postgres/user.go:21-77 | two inserts and the commit, failing at any statement, are all or nothing |
| Identity.IdentityStore.SSOLogin | internal/services/sso_service.go:44-96 | the whole single sign-on call, in state and reply |
| Identity.IdentityStore.CompleteEmailJoin | internal/services/complete_email_join_service.go:27-77 | the account creation of email sign-up, in state and reply |
| Maintenance.Tables.RunMaintenance | internal/services/maintenance_service.go:41-58 | every job is run whatever failed before it, and the result lists exactly the failed ones in order |
| Maintenance.OldResetsRemoved | db/migrations/004_revoke_triggers.up.sql:21-33 | the window query keeps min(5, count) rows per user, none older than a removed one, however ties are broken |
| Maintenance.ResetsKept | db/migrations/004_revoke_triggers.up.sql:1-33 | after a run each user keeps exactly min(5, number of used or unexpired) reset rows, and likewise if only the second job took effect |
| Maintenance.SessionRevokedIff | db/migrations/004_revoke_triggers.up.sql:49-68 | exactly which sessions a run revokes under arbitrary job failures; unexpired ones under 30 days old are untouched |
| Maintenance.ResetSurvives | db/migrations/004_revoke_triggers.up.sql:1-33 | a run without failures keeps only used or unexpired reset rows, and all of those of a user with at most five |
| Maintenance.LogAndFactorSurvive | db/migrations/004_revoke_triggers.up.sql:11-45 | login logs stay ninety days, factors if confirmed or at most two hours old, each only if its own job took effect |
| Maintenance.SecondRunChangesNothing | internal/services/maintenance_service.go:26-58 | a second run at the same instant changes nothing, even with another tie-breaking and failures |

## Left out

- HTTP handlers other than the role gate, routing, middleware, logging, listing and pagination: plumbing with shallow properties.
- The rate limiter: its counting is in a library.
- Email delivery: a failed delivery is a reply after the code has been stored, and changes nothing else.
- Argon2, AES-GCM, Ed25519, SHA-256 and JWKS verification: uninterpreted or explicit assumptions.
- WebAuthn ceremonies: a passkey login (`internal/services/passkey_service.go:264-291`) appears only as the account re-check and session issue shared by all logins (`Sessions.LoginRefusal`, `Sessions.Issue`).
- Timing equalisation (`VerifyDummyPassword`, constant-time comparison): comparison is equality.
- `hasAudience` and the header parsing of JWTs: an accepted token is one that was signed, is unexpired and has a live session key.
- The grouping loop of `GenerateMFARecoveryCode` and the `failed_attempts` column of factors, which no code reads.
- Recovery-code ownership: the lookup is by hash alone, so single use and conservation are stated, not whose code it is.
- Sub-second time: instants are whole seconds, and the truncation of JWT dates is not modelled.
- Interleaving.RevocationIsBounded: calls are fine-grained only for session traffic; at-most-once exchange of refresh and reset tokens is stated for atomic calls.
- Lockout.LockoutBoundIff: assumes that store calls of `Login` succeed, except the increment that overflows.
- OneTimeCode.GuessBound: assumes that the Redis calls succeed; a lost write-back of the counter would allow more guesses.
- MfaConservation.SuccessConsumesOne: assumes that the consuming writes succeed; the code only logs their failure and lets the login through, so a failed write leaves the credential usable.
- MfaService.MfaStores.PasswordStep: the rehash between gate and session issue is not part of this state; it is modelled by `HashUpgrade.StoredHash.Upgrade`.
- MfaLog.ConsumedOnceAndGated: calls are atomic, so two submissions of the same code racing each other are not covered.
- SessionAgreement.CacheAgreesWithRows: covers runs whose writes and session listings succeed and which do not run the 30-day job, whose effect is stated separately.
- AuditReplay.LogReplaysToState: the email column is not modelled, no query changes it; the password hash is recorded without its value and the deletion mark not at all, so neither can be replayed.
- Mfa.ConfirmEmail: takes the outcome of the enrolment-code check as an input; that check is the machine of `OneTimeCode`.
- The audit rows the services insert themselves with reason, address and user agent, and the triggers on other tables.
- AuditService.Database.WithTx: an update that meets a row lock is taken to fail at its deadline; waiting and being woken is covered by the interleaved steps of `Audit`.
- PhcRoundTrip.RoundTripIff: strings are sequences of characters, so ids that are not valid UTF-8 are not covered.
- Identity.IdentitiesAlwaysOk: accounts are never deleted from the table, as no query does so.
- Maintenance.OldResetsRemoved: the planner's order is a parameter, any order that lists each user's rows newest first.
