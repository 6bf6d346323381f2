# Verified model of the REST API's delivery, session, listing and throttling logic

A Dafny model of the parts of the service in which several pieces have to agree: the Redis Streams
consumer, the session, token and revocation protocol over PostgreSQL and Redis, the list-query
pipeline, the profile-picture swap and the throttler. `dafny verify dfyconfig.toml` checks all of it.

## How it is organised

- **Delivery** (`Delivery`, `Retries`, `Loss`, `Repeat`, `Semaphore`, `Consumer`). The consumer group is a
  transition system: the pending list with its delivery counter, the `SET NX` claims, the dead-letter
  stream and any number of `handle` runs, each with a program counter. Every Redis call is one step that
  may be applied, applied with its reply lost, or not applied. `Consumer` is the same `handle` as an
  imperative object whose every call is one step of that system.
- **Revocation** (`Revocation`, `Watermark`, `Lockout`). Markers with expiry in Redis, stateless access
  tokens whose times are floored to seconds, the middleware that accepts or refuses them, instance clocks
  within `eps` of true time, marker writes that land up to `lambda` after their clock reading and checks
  that look up the store up to `delta` after they verified the token's expiry. `Lockout` runs this system
  and the transaction system side by side, on one clock and over the same tokens.
- **Transactions** (`Database`, `Alone`, `Locking`, `Sessions`, `Users`, `Endings`, `OneShot`, `Serial`,
  `Wipes`, `Pictures`, `Witnesses`). Every service operation is a transaction that reads and locks rows,
  takes the statement snapshot of its bulk update, and commits or rolls back; the steps of all
  transactions interleave, and so do marker writes and asynchronous object deletes. A login's insert takes
  the key-share lock that the foreign key of `sessions` asks for. `Records`, `Services` and `Accounts` are
  the same operations as code, and `Refinement` shows that the code's effect is a run of the transaction
  system.
- **Listing** (`SqlWords`, `Conditions`, `QueryBuilder`, `Statements`, `Like`, `Paging`, `Casing`,
  `DateBounds`, `DateTexts`, `Search`, `ClientValues`, `Listing`, `Endpoints`, `Answers`, `Results`). The
  query builder as an object, a parser for the text it emits, the searches that sanitise themselves while
  they are applied, an executor for the two statements of a listing, and concrete user, audit and joined
  rows for it to run on. `DateTexts` and `ClientValues` say what a client's text means without the code
  that reads it.
- **Throttling** (`Throttle`).

Where a promised property does not hold of the code for all inputs, the model keeps the code and proves
the exact condition:

- The consumer never loses a message **iff** no delivery overlaps an earlier run, releases do not fail and
  no process dies mid-run (`Loss.NeverLosesExactly`).
- A handler succeeds at most once **iff** `SET NX` never errors, claims do not expire, and no panic strikes
  outside decoding, the handler and the release after a failure (`Repeat.NeverRepeatsExactly`): anywhere
  else the deferred recovery deletes a claim that the run does not own, or no longer needs.
- User-wide revocation is permanent **iff** `lambda + 2 eps <= 5s` and `2 eps + delta <= 5s`, where exact
  clocks and a token lifetime below a second add `1s - ttl` to the first bound
  (`Watermark.PermanentExactly`), and an ended session stays dead **iff** `2 eps + delta <= 5s`
  (`Witnesses.DeadExactly`).
- A run is serial in commit order **iff** no commit went by a stale read: an early lookup that no longer
  holds, a bulk update's snapshot that misses a matching row, or a user record that ChangePassword writes
  back over a change (`Serial.SerializableExactly`).
- There is never more than one open invitation for an address **iff** no registration for it commits on a
  snapshot that misses one (`OneShot.LatestInviteWinsExactly`); `Witnesses.OverlappingRegistersBothOpen` is
  a run in which one does.
- No user row ever names an object that is gone or about to go **iff** no password change writes back a
  picture that is (`Pictures.NeverDanglesExactly`); `Witnesses.StaleWriteReachable` is a run in which one
  does.
- In such runs no stored object is left behind **iff** no delete of one fails and no password change writes
  over a picture it had not read (`Pictures.NeverLeaksExactly`).
- A bulk revocation leaves unrevoked, of the user's sessions that exist and are unrevoked at its commit,
  **exactly** those inserted since its snapshot (`Wipes.WipeExactly`); a password reset and a deletion,
  which hold the user's row, leave none (`Wipes.WipesEverySession`).
- The page offset is the saturated product **iff** the 64-bit product does not wrap into `0..MaxInt32`
  (`Paging.OffsetExactly`), and a page past the end is empty **iff** it does not wrap into the table
  (`Paging.LaterPageEmptyExactly`); page 184467440737095518 with limit 100 has offset 84
  (`Paging.WrappedOffset`).
- A date bound that parses is applied **iff** it does not fall on Go's zero time, which the query builder
  takes for no bound (`DateBounds.BoundsUsedExactly`, `Answers.InsideExactly`): among bare dates the start
  0001-01-01 and the end 0000-12-31, and among timestamps those whose wall clock is ahead of midnight of
  0001-01-01 by their own offset (`DateBounds.BareDatesDropped`, `DateBounds.ZeroInstantExactly`).
- The echoed audit filter can be sent again unchanged **iff** no date bound in use was written with the
  offset 24:60, which Go's parser accepts and prints as 25:00, which it then rejects
  (`Search.AuditSearchReplaysExactly`).

The comment on `toDLQ` rules out lost messages; the code also acknowledges a duplicate while the run that
holds its claim may still fail, so the promise needs the hypotheses above, and the model follows the code.
The throttler's documentation says `RetryAfter` is the remaining time of the slot; the code uses the
whole-second `TTL` answer, and the model follows the code.

## Model

| member | source | states |
|---|---|---|
| `Delivery.NoLoss` | internal/infrastructure/redis/stream_consumer.go:117-301 | In every run with the dead-letter stream on, without overlap, failed release or crash, each delivered message is pending, was handled, or is dead-lettered, whatever else fails |
| `Delivery.LosslessStep` | internal/infrastructure/redis/stream_consumer.go:117-301 | The invariant behind it is kept by every step of every concurrent run: a claim is held by a live run or by a handled message, and runs of one message do not overlap |
| `Delivery.AtMostOnce` | internal/infrastructure/redis/stream_consumer.go:127-185 | The handler returns success at most once per message for every interleaving of overlapping deliveries, while claims answer and do not expire and no panic strikes outside decoding, the handler and the release after a failure |
| `Delivery.OnceStep` | internal/infrastructure/redis/stream_consumer.go:163-185 | Every step keeps that two runs past the claim never belong to one envelope, since only the claim's holder releases it |
| `Loss.OverlapLoses` | internal/infrastructure/redis/stream_consumer.go:163-173 | A concrete run in which a reclaim overlaps a running delivery and the message is lost |
| `Loss.LostReleaseLoses` | internal/infrastructure/redis/stream_consumer.go:181-185 | A concrete run in which one failed release loses the message |
| `Loss.CrashLoses` | internal/infrastructure/redis/stream_consumer.go:163-185 | A concrete run in which a crash after the claim loses the message |
| `Loss.NeverLosesExactly` | internal/infrastructure/redis/stream_consumer.go:117-301 | No message is ever lost if and only if none of the three hazards can occur, for every retry limit |
| `Repeat.ClaimErrorRepeats` | internal/infrastructure/redis/stream_consumer.go:163-173 | A concrete run in which an erring claim check lets the handler succeed twice |
| `Repeat.ExpiryRepeats` | internal/infrastructure/redis/stream_consumer.go:163-173 | A concrete run in which an expired claim lets the handler succeed twice |
| `Repeat.LatePanicRepeats` | internal/infrastructure/redis/stream_consumer.go:127-144 | For every other point of the code, a concrete run in which a panic there frees a claim and the handler succeeds twice |
| `Repeat.NeverRepeatsExactly` | internal/infrastructure/redis/stream_consumer.go:127-185 | At most one success per message if and only if claims answer, do not expire, and panics keep to those three points |
| `Retries.BoundedRetries` | internal/infrastructure/redis/stream_consumer.go:181-207 | A handler that always fails runs at most MaxRetries times, and between runs the message is unread, waiting with attempts left, or gone with exactly one dead-letter entry |
| `Retries.RetriesEnd` | internal/infrastructure/redis/stream_consumer.go:246-258 | From any waiting state the remaining attempts lead to that one dead-letter entry, with MaxRetries minus deliveries as the measure |
| `Semaphore.Conservation` | internal/infrastructure/redis/stream_consumer.go:61-115 | Tokens equal running handlers plus drained slots, at most Concurrency handlers run across both loops, and none runs after a return through the drain |
| `Semaphore.DrainEnds` | internal/infrastructure/redis/stream_consumer.go:102-115 | A drain always ends: from any reachable draining state every run makes at most running + Concurrency - sends + 1 further steps besides cancellations, and one that can make no more has returned with no handler left |
| `Semaphore.TopReturnLeavesHandlers` | internal/infrastructure/redis/stream_consumer.go:61-115 | The return at the head of the loop may leave any number of handlers running |
| `Consumer.StreamConsumer.Handle` | internal/infrastructure/redis/stream_consumer.go:117-207 | One delivery is a run of the protocol whose effect on handler runs, successes, claims, dead-letter stream and pending list is fixed by what the environment answers and by where the code panics, in the handler or outside it; without a panic the entry leaves the pending list exactly when the message was handled, dropped as a duplicate, or dead-lettered, and the acknowledgement was applied |
| `Consumer.DoneMeans` | internal/infrastructure/redis/stream_consumer.go:146-207 | The outcome of a delivery without a panic, case by case: undecodable, already claimed, handled, failed with attempts left, failed for the last time; who ran, what is claimed, dead-lettered and still pending |
| `Consumer.StreamConsumer.Process` | internal/infrastructure/redis/stream_consumer.go:146-207 | The body of a delivery, up to the end of its run or to a panic at any point, and what had happened by then |
| `Consumer.StreamConsumer.Recover` | internal/infrastructure/redis/stream_consumer.go:127-144 | After a panic anywhere, the deferred recovery frees the claim under the id read so far, also that of an envelope whose decoding then failed, dead-letters the message, acknowledges it only once the dead-letter write was acknowledged, and ends the run |
| `Consumer.StreamConsumer.ToDLQ` | internal/infrastructure/redis/stream_consumer.go:277-301 | The dead-letter write adds one entry unless the stream is off or the call was not applied, and reports failure unless the call was acknowledged |
| `Consumer.StreamConsumer.DeliveryCount` | internal/infrastructure/redis/stream_consumer.go:246-258 | The counter of a pending message, or 1 when it cannot be read |
| `Consumer.HandlesWithoutLoss` | internal/infrastructure/redis/stream_consumer.go:117-301 | A consumer object whose releases take effect has lost no message after any number of deliveries |
| `Consumer.HandlesAtMostOnce` | internal/infrastructure/redis/stream_consumer.go:117-207 | A consumer object whose claims answer and do not expire, and which panics only in decoding, in the handler or in the release after a failure, has handled no message twice |
| `Revocation.RevocationStore.RevokeAllForUser` | internal/infrastructure/redis/revocation.go:135-153 | An acknowledged write revokes every token of the user issued up to five seconds after the clock reading; no verdict for another user changes, a failed write is reported, and a write whose reply is lost still stands |
| `Revocation.RevocationStore.RevokeSession` | internal/infrastructure/redis/revocation.go:156-174 | After an acknowledged write every token of the session is revoked until the marker expires; a failed write is reported |
| `Revocation.RevocationStore.IsRevoked` | internal/infrastructure/redis/revocation.go:114-132 | A live session marker revokes; otherwise a live user marker revokes the tokens issued up to five seconds after it, and a corrupt or non-positive one is an error; without markers the token is kept, and a failed lookup is an error |
| `Revocation.Middleware.Check` | internal/transport/http/middlewares.go:43-81 | A missing or forged token is refused, a revoked one is refused, a kept one is accepted exactly until it expires, and when the check breaks an unexpired one is accepted exactly if the deployment fails open |
| `Revocation.SignAccessToken` | internal/auth/access_token.go:39-60 | Issue and expiry times are whole seconds, at most a second below the clock reading and the reading plus the lifetime |
| `Watermark.SkewSuffices` | internal/infrastructure/redis/revocation.go:48-72 | Over every run with landing delay, clock error and lookup delay covered by five seconds, the middleware, failing open or closed, never again accepts by an answered lookup a token of the user issued at or before the reading of a landed revocation, also after the marker expired or was overwritten |
| `Watermark.SlowWriteSurvives` | internal/infrastructure/redis/revocation.go:135-153 | A concrete run in which a slow write with an older clock reading overwrites the marker of a revocation and the middleware accepts a revoked token |
| `Watermark.SlowLookupSurvives` | internal/transport/http/middlewares.go:61-81 | A concrete run in which the middleware accepts a token because the marker expired between the expiry check and the lookup |
| `Watermark.PermanentExactly` | internal/infrastructure/redis/revocation.go:48-72 | What the middleware refuses stays refused if and only if five seconds cover both sums of delays, with the slack that flooring leaves to lifetimes below a second, for every lifetime |
| `Watermark.LaterTokensKept` | internal/infrastructure/redis/revocation.go:69-110 | A token issued at least 6s + 2 eps after the user's last revocation landed is not rejected by it |
| `Watermark.LaterTokensAccepted` | internal/transport/http/middlewares.go:43-81 | Such a token is accepted by the middleware up to its lifetime, less a second and the clock error, after it was signed, and with a broken check exactly if the deployment fails open |
| `Watermark.FailOpenExposure` | internal/transport/http/middlewares.go:61-81 | Even if every check fails open, the middleware accepts a token only until its lifetime plus 2 eps after it was issued |
| `Lockout.WipedIsLockedOut` | internal/auth/service.go:584-610 | Under every interleaving of both stores: once a bulk revocation has committed and a marker read from the clock after it has landed, no refresh of any session in its snapshot commits and the middleware accepts no access token of one by an answered lookup, in every later state, when five seconds cover the delays |
| `Lockout.RecordLocksOut` | internal/infrastructure/redis/revocation.go:135-153 | In any state the joint invariant allows, a committed bulk revocation and a later landed marker of the user lock out every session the revocation left revoked |
| `Locking.LockStep` | internal/infrastructure/postgres/auth_repository.go:89-163 | Every step keeps that no two transactions hold one row, that a held row is as it was read, and that a key-share lock excludes every lock that conflicts with it |
| `Locking.WritesHeldOrNew` | internal/auth/service.go:109-657 | A commit writes only rows it has locked or inserts |
| `Sessions.SessionWritten` | internal/infrastructure/postgres/auth_repository.go:52-86 | The only changes any operation makes to a session row: insertion, rotation of an unrevoked, unexpired session's hash, and revocation of an unrevoked session, by its own ending before it expires or by a bulk revocation of its owner's |
| `Sessions.RevocationSticks` | internal/infrastructure/postgres/auth_repository.go:52-86 | Over every run a session keeps owner and expiry, and once revoked its row never changes again |
| `Sessions.RefreshAtMostOnce` | internal/auth/service.go:297-340 | Over every interleaving each refresh token yields at most one new pair |
| `Sessions.RefreshNeedsLiveUser` | internal/auth/service.go:300-340 | A refresh commits only while its session is unrevoked under the presented hash and its user is not deleted |
| `Wipes.WipeExactly` | internal/infrastructure/postgres/auth_repository.go:76-86 | Under any interleaving, of the user's sessions that exist when a bulk revocation commits, exactly those inserted since its snapshot and not revoked by another are unrevoked after it |
| `Wipes.WipesEverySession` | internal/auth/service.go:451-513 | Over every run a password reset or a deletion leaves no session of the user unrevoked, also none that was opened while it ran |
| `Wipes.WipedForGood` | internal/auth/service.go:584-610 | Every session of the user that existed at the snapshot is revoked in every state after the commit, whatever refreshes run |
| `Users.UserWritten` | internal/infrastructure/postgres/user_repository.go:111-158 | The only changes any operation makes to a user row, column by column, with the name and the address of a new user taken from its registration token |
| `Users.DeletionSticks` | internal/infrastructure/postgres/user_repository.go:111-158 | A deleted user stays deleted over every run, though updates rewrite the row |
| `Users.NoRefreshAfterDeletion` | internal/infrastructure/postgres/user_repository.go:175-201 | No refresh of a user's session commits after the deletion of that user |
| `Users.OneUserPerAddress` | migrations/00002_create_users_table.sql:22-24 | In every state of every run an address belongs to at most one user that is not deleted, although password changes write the address back |
| `Users.DeletedFrees` | internal/auth/service.go:174-222 | A valid invitation to an address whose users are all deleted can be completed |
| `Endings.RevokedSessionIsDead` | internal/auth/service.go:348-385 | Once an ended session's marker has landed, in every later state no refresh of it commits and the middleware accepts no access token of it by an answered lookup, failing open or closed |
| `Endings.EndedForGood` | internal/auth/service.go:348-370 | Over every run a Logout or RevokeSession that commits no later than the expiry leaves the session revoked in every later state, and its marker, whenever it lands, ends it |
| `Endings.EndedOnRequest` | internal/auth/service.go:348-385 | Such a session is dead in every state after its marker landed, whatever runs before, between and after |
| `Endings.EndedIsDead` | internal/infrastructure/redis/revocation.go:156-174 | In any state the protocol's invariant allows, an ended session is dead when the skew covers clock error and lookup delay |
| `Witnesses.LateLookupPasses` | internal/transport/http/middlewares.go:61-81 | Beyond that bound a reachable state lets an ended session's token pass |
| `Witnesses.DeadExactly` | internal/auth/service.go:614-657 | Ended sessions are dead in every run if and only if 2 eps + delta is at most five seconds |
| `OneShot.ConsumedAtMostOnce` | internal/auth/service.go:174-222 | Over every run a registration or recovery token is consumed by at most one committed operation, and it is marked used if and only if one committed |
| `OneShot.NeverBoth` | internal/infrastructure/postgres/auth_repository.go:278-308 | A registration token is never both used and revoked |
| `OneShot.LatestInviteWins` | internal/auth/service.go:119-151 | When registrations for an address do not overlap, at most one of its tokens is open in any state |
| `OneShot.OneOpenExactly` | internal/auth/service.go:119-151 | A registration's commit leaves one open token if and only if its snapshot holds every token open at the commit |
| `OneShot.LatestInviteWinsExactly` | internal/infrastructure/postgres/auth_repository.go:295-308 | Over every run at most one token is ever open if and only if every registration commits with all open tokens in its snapshot |
| `OneShot.InviteWritten` | internal/infrastructure/postgres/auth_repository.go:255-308 | The only changes any operation makes to a registration token |
| `OneShot.RecoveryWritten` | internal/infrastructure/postgres/auth_repository.go:189-229 | The only changes any operation makes to a recovery token: created for its user with its hash and expiry, or marked used |
| `Witnesses.OverlappingRegistersBothOpen` | internal/auth/service.go:119-151 | A concrete run of two overlapping registrations that leaves two open tokens and is not serial |
| `Serial.LogReplays` | internal/infrastructure/postgres/postgres.go:84-140 | Over every run rows and audit trail are those the committed transactions left, in commit order, each writing from locked rows that were current, so a rolled-back transaction leaves neither a change nor an audit row |
| `Serial.SerialExactly` | internal/auth/service.go:109-657 | A commit does what its operation does alone on the rows it finds if and only if its early reads still hold, its bulk snapshot misses no matching row, and the user record it writes back is current |
| `Serial.LockedOpsSerial` | internal/auth/service.go:174-657 | Over every run every commit but those of a registration, a login, a bulk revocation on its own and a password change does what its operation does alone |
| `Serial.SerializableExactly` | internal/infrastructure/postgres/postgres.go:84-140 | A run is serial in commit order if and only if none of its commits went by a stale read |
| `Serial.AuditRule` | internal/auth/service.go:109-657 | A commit that changes a row is audited exactly unless it is a refresh, and an audited commit changes a row unless it is a bulk revocation that found nothing |
| `Serial.AuditConserved` | internal/auth/service.go:109-657 | Over every run: audit rows = row-changing commits - refreshes + empty bulk revocations |
| `Pictures.NoDanglingPicture` | internal/user/service.go:210-330 | Over every run in which no picture change commits between a password change's read and its commit, each picture a user row names is, in every state, stored and not scheduled for deletion |
| `Pictures.NeverDanglesExactly` | internal/user/service.go:210-330 | Over every run no row ever names an object gone or about to go if and only if no password change writes back a picture gone or about to go |
| `Pictures.NeverLeaksExactly` | internal/user/service.go:210-330 | Over every run in which no row dangles, every stored object is always on a row, on its way to one or about to be deleted if and only if no delete of a stored object fails and no password change writes over a picture it had not read |
| `Pictures.StaleWriteDangles` | internal/auth/service.go:525-544 | A password change that writes back a picture scheduled for deletion leaves the row naming a missing object once the delete runs |
| `Witnesses.StaleWriteReachable` | internal/auth/service.go:525-544 | Such a state is reachable |
| `Records.SessionRecord.Revoke` | internal/auth/session.go:89-91 | Sets the revocation time and nothing else |
| `Records.SessionRecord.Rotate` | internal/auth/session.go:95-113 | Replaces the token hash and nothing else, and nothing at all when no token could be generated or the request has no context |
| `Records.RegistrationRecord.Use` | internal/auth/registration_token.go:67-74 | Marks a token used that is neither used nor revoked and has not expired, and refuses and leaves alone any other |
| `Records.RecoveryRecord.Use` | internal/auth/password_recovery_token.go:61-63 | Sets the time of use and nothing else |
| `Records.DB.Finish` | internal/infrastructure/postgres/postgres.go:84-140 | The transaction keeps all writes when the closure and the commit succeeded, and otherwise restores rows and audit trail |
| `Records.DB.GetSessionByRefreshTokenHash` | internal/infrastructure/postgres/auth_repository.go:144-163 | A record of a session row with that hash, or none if and only if no row has it |
| `Records.DB.StoreSession` | internal/infrastructure/postgres/auth_repository.go:26-49 | Inserts the session, refusing a taken id or an owner that has no row |
| `Records.DB.UpdateSession` | internal/infrastructure/postgres/auth_repository.go:52-73 | Writes hash and revocation mark of the record into its row, if there is one, and keeps owner and expiry |
| `Records.DB.RevokeUserSessions` | internal/infrastructure/postgres/auth_repository.go:76-86 | Revokes exactly the user's unrevoked sessions |
| `Records.DB.RevokeRegistrationTokens` | internal/infrastructure/postgres/auth_repository.go:295-308 | Revokes exactly the address's unused, unrevoked tokens |
| `Records.DB.UpdateRegistrationToken` | internal/infrastructure/postgres/auth_repository.go:278-291 | Writes only the time of use, if there is a row |
| `Records.DB.UpdatePasswordRecoveryToken` | internal/infrastructure/postgres/auth_repository.go:213-229 | Writes only the time of use, if there is a row |
| `Records.DB.StoreUser` | internal/infrastructure/postgres/user_repository.go:28-57 | Inserts the user, refusing exactly a taken id or the address of a user that is not deleted |
| `Records.DB.UpdateUser` | internal/infrastructure/postgres/user_repository.go:111-143 | Writes every column of the record but keeps the row's deletion mark |
| `Records.DB.GetUserByID` | internal/infrastructure/postgres/user_repository.go:175-201 | A record of the user, or none if and only if there is no such user or it is deleted |
| `Services.RefreshAccessToken` | internal/auth/service.go:290-346 | Does the protocol's refresh exactly when no statement and no token generation fails and its session and user allow it, and only then returns an access token for that session and owner with the new refresh token; else leaves the database as it was |
| `Services.Logout` | internal/auth/service.go:348-385 | Revokes a session that is neither expired nor revoked, with one audit row, and leaves any other and the audit trail alone; writes the marker after the commit, without reporting a failed marker |
| `Services.RevokeSession` | internal/auth/service.go:614-657 | The same, only if its owner may be acted for, and reports success only with the marker written |
| `Services.Login` | internal/auth/service.go:232-287 | Opens a session for the live user with that address whose password verifies and returns its token pair, and fails only for want of one or when a statement or token generation fails |
| `Services.BulkSessions` | internal/infrastructure/postgres/auth_repository.go:76-86 | The bulk update of a transaction that runs alone revokes exactly the unrevoked sessions of its user |
| `Services.RevokeUserSessions` | internal/auth/service.go:584-610 | Does the protocol's bulk revocation, audits it, then writes the user's marker and reports its failure |
| `Services.ResetPassword` | internal/auth/service.go:451-513 | Consumes the token, sets the password and revokes the sessions together or not at all, then marks the token's owner |
| `Services.ChangePassword` | internal/auth/service.go:516-571 | Writes the user as read with the new password and revokes the sessions, only after the old password verified |
| `Services.DeleteUser` | internal/user/service.go:154-208 | Deletes and revokes together or, for an unknown user, changes nothing, and writes the marker in both cases |
| `Accounts.Register` | internal/auth/service.go:109-166 | Supersedes the address's open tokens and stores the new one with address and name together, only for an unused address |
| `Accounts.CompleteRegistration` | internal/auth/service.go:174-222 | Consumes a valid token and creates the user with its address and name together, or leaves the token unmarked, also when the password or the user is refused |
| `Accounts.RecoverPassword` | internal/auth/service.go:388-440 | Stores a recovery token for the live user with that address when the throttler admitted it, and fails only for want of either |
| `Accounts.UpdateUser` | internal/user/service.go:121-152 | Changes the profile columns of a live user and nothing else |
| `Accounts.ChangeProfilePicture` | internal/user/service.go:210-264 | Stores the object first; afterwards exactly the replaced object, or on failure the new one, is left to be deleted |
| `Accounts.DeleteProfilePicture` | internal/user/service.go:266-306 | Clears the picture and leaves exactly its object to be deleted |
| `Refinement.AloneIsRun` | internal/auth/service.go:109-657 | What a service method does when it runs alone is the outcome of a run of the transaction system, for every operation and state |
| `QueryBuilding.QueryBuilder.WhereIn` | internal/infrastructure/postgres/query_builder.go:53-82 | Adds the condition with its values as arguments, in order, and nothing for nil, non-slices and empty slices |
| `QueryBuilding.QueryBuilder.WhereNull` | internal/infrastructure/postgres/query_builder.go:85-87 | Adds the condition and no argument |
| `QueryBuilding.QueryBuilder.WhereNotNull` | internal/infrastructure/postgres/query_builder.go:90-92 | Adds the condition and no argument |
| `QueryBuilding.QueryBuilder.WhereLike` | internal/infrastructure/postgres/query_builder.go:96-107 | Adds the condition with its argument, and nothing for nil |
| `QueryBuilding.QueryBuilder.WhereILike` | internal/infrastructure/postgres/query_builder.go:111-122 | Adds the condition with its argument, and nothing for nil |
| `QueryBuilding.QueryBuilder.WhereBetween` | internal/infrastructure/postgres/query_builder.go:129-143 | Adds one condition per bound that is not the zero time |
| `QueryBuilding.QueryBuilder.OrderBy` | internal/infrastructure/postgres/query_builder.go:147-157 | Sets the order unless the column is empty |
| `QueryBuilding.QueryBuilder.Paginate` | internal/infrastructure/postgres/query_builder.go:165-180 | Sets limit and the saturated 64-bit offset |
| `QueryBuilding.QueryBuilder.SQL` | internal/infrastructure/postgres/query_builder.go:189-223 | The row statement's text, clause by clause, with the arguments in order |
| `QueryBuilding.QueryBuilder.CountSQL` | internal/infrastructure/postgres/query_builder.go:230-247 | The count statement's text with the same joins, conditions and arguments |
| `QueryBuilding.PageOffset` | internal/infrastructure/postgres/query_builder.go:165-180 | For every input the offset lies in 0..MaxInt32 |
| `Conditions.PlaceholdersInOrder` | internal/infrastructure/postgres/query_builder.go:182-186 | The placeholders of all conditions, read left to right, are 1..n, each once |
| `Conditions.TextIs` | internal/infrastructure/postgres/query_builder.go:53-143 | The SQL text of each kind of condition |
| `Conditions.ParseCondsBack` | internal/infrastructure/postgres/query_builder.go:53-143 | Parsing the words of a WHERE clause recovers its conditions in order |
| `Statements.SqlReadsBack` | internal/infrastructure/postgres/query_builder.go:189-223 | Parsing the row statement's text recovers head, conditions, order, limit and offset |
| `Statements.CountReadsBack` | internal/infrastructure/postgres/query_builder.go:230-247 | Parsing the count statement's text recovers the same conditions and no other clause |
| `Statements.BindsToAsked` | internal/infrastructure/postgres/query_builder.go:182-186 | Bound to the arguments, the numbered conditions are exactly those asked for |
| `LikePatterns.EscapedSearchIsExact` | internal/audit/model.go:78-86 | A text matches `%` + escaped term + `%` if and only if the term occurs in it |
| `LikePatterns.PatternsMean` | internal/audit/model.go:78-86 | What an underscore, an escaped character and any other mean in a pattern |
| `LikePatterns.EscapedSearchIgnoresCase` | internal/audit/model.go:78-86 | The same up to any case folding that leaves the pattern characters alone |
| `Paging.Pagination.ApplyPagination` | internal/ports/repository/pagination.go:35-47 | Clamps page and limit in place and asks for the clamped page |
| `Paging.ClampLimit` | internal/ports/repository/pagination.go:35-47 | A limit of 1 to 100 is kept, a larger one becomes 100 and a smaller one 20 |
| `Paging.RoundedUp` | internal/ports/repository/pagination.go:51-63 | The page count covers all rows, and its last page is not empty |
| `Paging.OffsetExactly` | internal/infrastructure/postgres/query_builder.go:165-180 | The offset is the product, saturated at 2147483647, if and only if the 64-bit product does not wrap below that |
| `Paging.WrappedOffset` | internal/infrastructure/postgres/query_builder.go:165-180 | A page far beyond any table with offset 84 |
| `Paging.PagesCoverResult` | internal/ports/repository/pagination.go:51-63 | Pages 1..TotalPages, put together, are the result |
| `Paging.LaterPageEmptyExactly` | internal/infrastructure/postgres/query_builder.go:165-180 | A later page is empty if and only if its product does not wrap into the table |
| `Paging.JoinKeepsEntries` | internal/infrastructure/postgres/audit_repository.go:32-54 | The LEFT JOIN on the unique user id gives each entry exactly one row, with the user that made it if there is one |
| `DateBounds.ParsedIsValid` | internal/ports/repository/daterange.go:76-83 | Whatever parses is a real date and time |
| `DateTexts.TimestampExactly` | internal/ports/repository/daterange.go:76-83 | Exactly which texts are accepted as a timestamp and what each digit of them means: date, hour of one digit or two, minute, second, fraction after a point or comma cut to nanoseconds, Z or signed offset |
| `DateTexts.DateExactly` | internal/ports/repository/daterange.go:76-83 | Exactly which texts are accepted as a bare date, and their year, month and day |
| `DateTexts.TextOrderIsInstantOrder` | internal/ports/repository/daterange.go:76-83 | Of any two accepted texts yyyy-mm-ddThh:mm:ssZ the earlier in text order is the earlier instant |
| `DateTexts.SecondsCount` | internal/ports/repository/daterange.go:76-83 | The next second of the calendar, across minutes, days, months and leap years, is 10^9 nanoseconds later, and an offset moves the instant by its minutes |
| `DateTexts.EpochIsZero` | internal/ports/repository/daterange.go:76-83 | Instants count from the first of 1970 in UTC |
| `DateBounds.CanonicalReadsBack` | internal/ports/repository/daterange.go:76-94 | Printing a bound and parsing it gives the same instant in the same form, or nothing exactly for the offset 24:60 |
| `DateBounds.OverlongEchoLost` | internal/ports/repository/daterange.go:88-94 | Every date and time, with any fraction, written with +24:60 is accepted and its echo is not |
| `DateBounds.NextDateIsNextDay` | internal/ports/repository/daterange.go:56-68 | The next calendar date, across months and leap years, is one day later |
| `DateBounds.WholeDay` | internal/ports/repository/daterange.go:56-68 | A bare end date reaches to the start of the next calendar date |
| `DateBounds.ZeroInstantExactly` | internal/infrastructure/postgres/query_builder.go:129-143 | An instant, any number of days on, is Go's zero time if and only if the wall clock then is ahead of midnight of 0001-01-01 by exactly its offset |
| `DateBounds.BoundsUsedExactly` | internal/ports/repository/daterange.go:31-71 | For every range each side of the interval is the instant asked for, and a side with a bound that parses is left open if and only if that instant is the zero time |
| `DateBounds.BareDatesDropped` | internal/ports/repository/daterange.go:31-71 | Of the bare dates a lower side loses exactly 0001-01-01 and an upper side exactly 0000-12-31 |
| `DateBounds.EndDateDropped` | internal/ports/repository/daterange.go:56-68 | The end date 0000-12-31 is accepted and leaves both sides open |
| `DateBounds.DateRange.Bounds` | internal/ports/repository/daterange.go:31-71 | The interval asked for, and the fields rewritten to their canonical form |
| `DateBounds.FieldsMean` | internal/ports/repository/daterange.go:31-71 | A date that parses is a window of 24 hours from its instant whatever the other fields say; otherwise each of the others stands alone, a bare end date with its whole day |
| `DateBounds.EchoMeans` | internal/ports/repository/daterange.go:31-94 | Fields that do not count are cleared, and those that count are echoed as texts of the same meaning |
| `DateBounds.RangeReplaysExactly` | internal/ports/repository/daterange.go:31-94 | The echoed filter is stable and asks for the same interval if and only if no bound in use has the offset 24:60 |
| `Search.Sorting.ApplySort` | internal/ports/repository/sorting.go:39-55 | Applies an allowed sort with the direction asked for and clears any other |
| `Search.SortReplaysExactly` | internal/ports/repository/sorting.go:39-55 | The echoed sort is stable if and only if it was allowed or the allow-list has no empty name |
| `Search.RecognisedOnce` | internal/user/search.go:40-62 | Recognised, canonicalised values are recognised unchanged |
| `Search.RecognisedEach` | internal/user/search.go:40-62 | Each value is kept in canonical form and place, or dropped, on its own |
| `ClientValues.TrimMeans` | internal/audit/model.go:49-79 | Trimming takes white space off both ends, all of it and nothing else |
| `ClientValues.GenderMeans` | internal/user/gender.go:18-31 | A value is recognised exactly when, white space around it aside, it spells M, F or O in any casing |
| `ClientValues.RoleMeans` | internal/rbac/role.go:27-31 | The same for admin, user and system |
| `ClientValues.EntityMeans` | internal/audit/entity.go:16-24 | The same for registration_token, session and user |
| `ClientValues.RecognisedMeans` | internal/user/search.go:40-62 | The kept values are exactly the words that some sent value names |
| `ClientValues.DirectionMeans` | internal/ports/repository/sorting.go:39-55 | The direction is descending exactly when the client spells desc, in any casing |
| `Search.UserSearch.ApplyFilter` | internal/user/search.go:40-62 | Keeps the recognised genders and roles and filters on exactly those |
| `Search.UserSearch.ApplyQuery` | internal/ports/repository/query.go:31-43 | Filter, sort and page, applied to the query and to the search itself |
| `Search.UserSearchReplays` | internal/user/search.go:30-62 | The echoed user search is unchanged by being applied again and asks for the same query |
| `Search.AuditSearch.ApplyFilter` | internal/audit/model.go:49-79 | Keeps recognised entities, canonical bounds and the trimmed actor, and filters on exactly those |
| `Search.AuditSearchReplaysExactly` | internal/audit/model.go:49-91 | The echoed audit search is stable and asks for the same query if and only if no bound in use has the offset 24:60 |
| `Listing.RowsAnswer` | internal/infrastructure/postgres/query_builder.go:189-223 | Executing the row statement's text with its arguments returns the asked window of the sorted rows that satisfy every condition |
| `Listing.CountAnswer` | internal/infrastructure/postgres/query_builder.go:230-247 | Executing the count statement's text returns the number of those rows |
| `Endpoints.ListUsers` | internal/infrastructure/postgres/user_repository.go:60-98 | The two statements built for a user search |
| `Endpoints.ListAudit` | internal/infrastructure/postgres/audit_repository.go:25-57 | The two statements built for an audit search |
| `Endpoints.UserListingComplete` | internal/infrastructure/postgres/user_repository.go:60-98 | For every search and any engine whose ORDER BY only rearranges, the executed count is the number of rows asked for and the pages up to it hold exactly those rows, in order |
| `Endpoints.AuditListingComplete` | internal/infrastructure/postgres/audit_repository.go:25-57 | The same for the audit listing |
| `Answers.UserSatisfies` | internal/user/search.go:40-62 | A user row satisfies the conditions asked for if and only if it is not deleted and its gender and role are named by one of the values sent, where any that exists was named |
| `Answers.EntrySatisfies` | internal/audit/model.go:49-79 | A joined row satisfies the conditions asked for if and only if its entity is named by one of the values sent, where any that exists was named, it lies in the interval as applied, and it was made by the actor whose id is, or whose name contains up to case, the trimmed term |
| `Answers.InsideExactly` | internal/infrastructure/postgres/query_builder.go:129-143 | For every range the instants let through are those of the half-open interval asked for if and only if no bound in use falls on the zero time |
| `Answers.PlainlyWanted` | internal/audit/model.go:49-79 | For such a range a wanted entry is one of a named entity, made by the actor, in the plain half-open interval |
| `Answers.EndDateIgnored` | internal/infrastructure/postgres/query_builder.go:129-143 | The end date 0000-12-31 adds no condition and lets every instant through |
| `Answers.UserPagesAnswer` | internal/infrastructure/postgres/user_repository.go:60-98 | For every table and search the executed count is the number of wanted users and the executed pages together are those users, each once, non-increasing in the column asked for when the client spells desc in any casing and non-decreasing otherwise |
| `Answers.AuditPagesAnswer` | internal/infrastructure/postgres/audit_repository.go:25-57 | For all tables and every search the executed count over the join is the number of wanted entries and the executed pages together are those entries, each once, latest first when the client spells desc in any casing and earliest first otherwise |
| `Results.UserPageSent` | internal/infrastructure/postgres/user_repository.go:60-98 | Of every search one page is sent, of at most the limit asked for within 1..100, with exactly the ten selected columns of each user |
| `Results.AuditPageSent` | internal/infrastructure/postgres/audit_repository.go:25-57 | The same with the nine columns of each entry and the name of the user that made it |
| `Results.OrderBySorts` | internal/infrastructure/postgres/query_builder.go:147-157 | An ORDER BY as the listings need it exists: sorting by insertion, NULLs last |
| `Throttle.Throttler.TryAcquire` | internal/infrastructure/redis/throttler.go:26-68 | Allowed if and only if the slot was free and the store answered; refused only while held; errors exactly on bad arguments and failed calls |
| `Throttle.Throttler.Release` | internal/infrastructure/redis/throttler.go:70-89 | Frees the slot of a non-empty key |
| `Throttle.AllowedApart` | internal/infrastructure/redis/throttler.go:26-68 | Any two allowed acquisitions of an unreleased key are at least ttl apart, for every interleaving of callers |
| `Throttle.RateBounded` | internal/infrastructure/redis/throttler.go:26-68 | A window of length w holds at most w / ttl + 1 allowed acquisitions |
| `Throttle.SlotReopens` | internal/infrastructure/redis/throttler.go:26-68 | Any answered acquisition more than ttl after the one that last took the slot is allowed, whatever was refused or released in between |
| `Throttle.WaitWithinTtl` | internal/infrastructure/redis/throttler.go:59-67 | The wait reported to a refused caller is at most the ttl of the acquisition that holds the slot plus half a second |
| `Throttle.ReleaseReopens` | internal/infrastructure/redis/throttler.go:70-89 | After a release that reached the store the next acquisition is allowed at any time |
| `Throttle.RetryHintIsClose` | internal/infrastructure/redis/throttler.go:59-67 | The wait reported to a refused caller is within half a second of the slot's remaining time, and -2 nanoseconds if the slot has expired meanwhile |

## Left out

- Hashing, signing and random generation: digests of distinct secrets are taken as distinct, generated secrets, ids and object names as fresh, and a verified token as one that was signed.
- Permission checks: taken as a given answer in the service methods.
- Routing, cookies, JSON binding, error-to-status mapping, mail, logging, configuration and the command line.
- The consumer's envelope decoding and the reclaim cursor: decoding is a fixed partial map, with the id that was read before it failed, and any pending message may be reclaimed at any time.
- Lost commit acknowledgements and database deadlocks: a transaction's reported outcome is its outcome, and an aborted transaction is a rolled-back one.
- Several clock readings inside one transaction: a commit uses one reading for its expiry checks and time stamps.
- The foreign-key locks that recovery tokens and audit rows take on users: without them the transaction system has more interleavings, not fewer.
- User columns other than address, profile, password, picture and deletion mark, and session metadata such as IP address: no property depends on them.
- `Join` and `RightJoin` of the query builder: unused, and like `LeftJoin`.
- `SetMeta` and the JSON form of the metadata: a copy of the fields that the searches leave.
- Case mapping of letters outside ASCII, except the four whose case mapping is an ASCII letter: no other letter can make a filter value recognised.
- Invalid UTF-8: texts are sequences of characters.
- Interleaving of the service methods as code: as code they run alone; their interleavings are those of the transaction system, which takes rows as values.
- Serial.SerialExactly: does not count the comparison of the old password among the early reads, because hashing and verifying passwords are left out.
- Rows that change between the pages of a listing, and listings of more than MaxInt32 rows: pages are taken of fixed tables, and rows that tie in the sort column keep one order from page to page.
- Sub-microsecond digits of a date bound, which the database driver drops, and columns that no listing selects.
- A second panic inside the deferred recovery, which ends the process.
