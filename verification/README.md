# Kirmya: sessions, resets, applications, roles and scores

A Dafny model of the stateful core of the Kirmya platform, with proofs of what it promises. `dafny
verify dfyconfig.toml` checks the whole project.

**Sessions** (`SessionStore`, `SessionProtocol`, `SessionForest`, `SessionInvariant`,
`SessionTheorems`, `SessionLimits`, `SessionReplay`, `SessionCalls`). Login, refresh with rotation
and reuse detection, logout, status change and password reset are threads over one store of accounts
and sessions, with a monotone clock. Each repository call is one atomic step, and anything may
happen between two steps: the events of a run are arbitrary, and so is every failure. `RunKeepsInv`
carries an invariant about a growing forest of sessions through every run, and the theorems are
consequences; `SessionCalls` says what each call answers, and exactly when, if nothing interferes. The scheme
is the refresh-token rotation of section 4.14.2 of RFC 9700. `AuthRepository` and `AuthService` hold
the imperative code: rows updated in place by loops, and calls that are sequences of reads, checks
and writes. Each call is proved to be its own thread of the protocol run to completion, so the
theorems are about that code.

**Password reset** (`ResetProtocol`, `ResetTheorems`, `ResetLimits`, `ResetCalls`,
`PasswordResetService`), built the same way; the service changes passwords and ends sessions through
the same account repository. Counting and creating, and retiring and creating, are
separate calls, so the bounds depend on how many calls are in flight; the bounds are proved, and
proved to be attained.

**Job applications.** `JobLocks` models concurrent `CreateApplication` transactions: row locks with
the conflicts of section 13.3.2 of the PostgreSQL documentation, the two unique indexes, uncommitted
rows and the counter. The mode of the first lock is a parameter. `JobDeadlock` proves when waiting can
form a ring and that everybody finishes otherwise, `JobRows` uniqueness, conservation and the truth
of the answers, `JobKeys` and `JobKeyErrors` what an idempotency key promises. `ApplicationStages` is the stage machine
and the history log, `ApplicationStore` the in-memory store.

**One browser tab** (`BrowserRefresh`, `BrowserInvariant`, `BrowserTheorems`, `BrowserProgress`,
`AuthClient`). The single-flight refresh, the 401 interceptor and the bootstrap loop as an
event-driven machine, with cost bounds over any order of events. The class keeps its history, so the
bounds hold of the object.

**Administrative roles** (`AdminRbac`, `AdminHoldings`, `AdminRoles`). The permission tables, by role
and by permission, and the rule that turns assignments into permissions; role lists appended to and compacted in place, against a set.

**Assessment scoring** (`Scoring`, `ScoringCalls`). The scoring loop and its three floored percentages,
and what they come to in terms of the questions and the answers handed in.

## Where the code and what is said of it differ

- "An assignment can only ever remove access" (`backend/internal/admin/domain/rbac.go:253`) holds of
  a first assignment only. `AssignmentNarrows` gives the exact condition.
- Administrators acting one after the other always leave somebody able to manage roles
  (`NobodyIsLockedOut`). The right is checked before the call, though, so two concurrent changes can
  leave nobody; `StaleChecksLockOutIff` says exactly when.
- Revocations stamp rows that were already revoked, so the grace window runs from the latest stamp.
- A login that is past its last standing read can store a session after a suspension, and while
  second reads may fail so can one that is past its password. `SessionLimits` proves that these, and
  only these, outrun a suspension, and says the same of refreshes that outlast their expiry.
- A throttle count that fails throttles nobody: each adds one to the bound (`BoundsAreAttained`).
- On the SQL path an idempotency key is looked up before the job row is locked. A later unique index
  on candidate and key keeps it to one application (`OneApplicationPerKey`), but a retry that
  overlaps its first attempt never gets that attempt's answer (`OverlappingRetryIsRefused`), and a key
  used for two postings can end in a unique violation the code does not recognise and returns bare
  (`KeyTakenIff`, `BareErrorIffTwoPostings`). The in-memory path looks up and files under one mutex
  and has neither effect (`RepeatedCreateReturnsTheSame`).
- A refresh retried after a 409 whose retry fails keeps the old access token, unlike every other
  failed refresh (`FailedRefreshClearsIff`, `RefusedRetryKeepsToken`).
- An overall score can lie below both sections when a question has an unknown type; `LowerBoundIff`
  gives the exact condition.

## Model

| member | source | states |
|---|---|---|
| SessionTheorems.RevocationIsABarrier | backend/internal/auth/repository/auth_repo.go:446-515 | In every run of any threads, from any reachable state in which all of a user's sessions are revoked: no live session and no token for that user until one of their logins stores a session; refreshes that had read a session as live are included |
| SessionTheorems.RevocationsRaiseTheBarrier | backend/internal/auth/repository/auth_repo.go:446-515 | From the step at which containment, suspension or a password reset takes effect, and through the rest of any run: no live session and no token for that account until a login of theirs stores one |
| SessionTheorems.RevokedTokenNeverIssues | backend/internal/auth/repository/auth_repo.go:288-355 | From any reachable state, a token whose session is revoked yields nothing in the rest of any run, whatever its holder had already read |
| SessionTheorems.TokenSucceedsOnce | backend/internal/auth/repository/auth_repo.go:288-355 | Over any run a refresh token is exchanged at most once |
| SessionTheorems.LiveSessionsAreBounded | backend/internal/auth/repository/auth_repo.go:288-355 | In every reachable state sessions form linear chains rooted at logins, at most one session of a chain is live, and a user has at most as many live sessions as successful logins |
| SessionTheorems.DeadChainStaysDead | backend/internal/auth/repository/auth_repo.go:288-355 | A chain without a live session never regains one, in any run |
| SessionTheorems.ExpiryIsAbsolute | backend/internal/auth/service/auth_service.go:694-727 | In every reachable state each session belongs to a chain whose login is on record, carries that login's Remember Me flag, and expires exactly one policy lifetime after that login, however many rotations later |
| SessionTheorems.ExpiredChainIsNeverExtended | backend/internal/auth/service/auth_service.go:694-741 | Once an expiry has passed and no refresh judged before it is still to rotate a live session, no run adds a successor with that expiry |
| SessionTheorems.SuspensionSticks | backend/internal/auth/service/auth_service.go:528-580 | While an account's status is anything but active, its sessions being revoked, no login past its second standing read and second reads succeeding, no thread is handed tokens for it and none of its sessions comes to life |
| SessionLimits.OnlyLateLoginsOutrun | backend/internal/auth/service/auth_service.go:536-580 | In every reachable state with the account not active and all its sessions revoked: some run in which it stays so and second reads succeed brings a session to life if and only if a login of the account is already past its second read |
| SessionLimits.OnlyPendingLoginsOutrun | backend/internal/auth/service/auth_service.go:516-542 | If second reads may fail, such a run exists if and only if a login of the account is past its first read with the right password |
| SessionLimits.OnlyPendingRotationsExtend | backend/internal/auth/service/auth_service.go:694-741 | In every reachable state after an expiry has passed: some run adds a successor with that expiry if and only if a refresh judged before it is still to rotate a session that is live |
| SessionReplay.ReplayIsContained | backend/internal/auth/service/auth_service.go:654-692 | Replaying a revoked token issues nothing: within 10 seconds of its latest stamp the store is unchanged, after that every session of the account and no other is ended, and a failed containment is reported as such |
| SessionReplay.RefreshRotates | backend/internal/auth/service/auth_service.go:694-749 | A live, unexpired session of an active account is revoked and replaced by one successor with its user, policy and expiry; nothing else changes |
| SessionReplay.PresentedTwice | backend/internal/auth/service/auth_service.go:654-692 | The same token presented twice: inside the grace the second caller is told to retry and the first one's session survives, afterwards that session is ended too; nothing more is issued either way |
| SessionReplay.StandingComesFirst | backend/internal/auth/service/auth_service.go:630-652 | An account that is not active is answered as such before the session is judged, however recently it was revoked |
| SessionCalls.LoginSucceedsIff | backend/internal/auth/service/auth_service.go:486-592 | An undisturbed login hands out tokens if and only if the account exists and its status is active, the password is its own and nothing it needs fails; it then adds one session, for seven days or with Remember Me for thirty, and otherwise changes nothing |
| SessionCalls.LoginRefusals | backend/internal/auth/service/auth_service.go:486-542 | Who gets which refusal, both ways: an existing account that is not active is told its status whatever the password, an unknown account and a wrong password get one and the same answer, and everything else is a fault |
| SessionCalls.RefreshSucceedsIff | backend/internal/auth/service/auth_service.go:616-749 | An undisturbed refresh hands out tokens if and only if the session is live and in time, its account is active and nothing fails; the only refusal that changes anything is containment |
| SessionCalls.RefreshRefusals | backend/internal/auth/service/auth_service.go:616-749 | Which refusal answers which refresh, in order: failing lookup, unknown token, failing or missing account, account not active; then, both ways, a session revoked within the last ten seconds is a race, one revoked before is reuse, one past its expiry is expired |
| SessionCalls.RotationDecides | backend/internal/auth/repository/auth_repo.go:288-355 | Whatever happened since the verdict, the rotation goes through if and only if the session is still live, the loser of a race is told so, and nothing changes unless tokens are handed out |
| SessionStore.RotationAnswers | backend/internal/auth/repository/auth_repo.go:288-355 | On any table, both ways: not found, already rotated, taken or rotated; only the last writes, stamping the old row and adding the successor |
| SessionCalls.LogoutEndsOneSession | backend/internal/auth/service/auth_service.go:758-779 | Logout stamps the presented session and no other; an unknown token changes nothing and is reported as success; a failing call is a fault and changes nothing |
| SessionCalls.StatusChangeEndsSessions | backend/internal/admin/service/admin_service.go:197-239 | A known status is written; any status but active stamps every session of the account and no other, unless the revocation fails; what the call answers depends on the audit entry alone; an unknown status or a failing write changes nothing |
| SessionCalls.OnlyTheNewPasswordWorks | backend/internal/auth/repository/auth_repo.go:474-515 | After the reset's write a login that nothing disturbs succeeds with the new password and no other, every earlier session of the account is stamped, and other accounts are untouched |
| SessionForest.OneRowPerDepth | backend/internal/auth/repository/auth_repo.go:288-295 | A chain has at most one session at each number of rotations from its login |
| SessionForest.ShallowerIsRevoked | backend/internal/auth/repository/auth_repo.go:304-312 | Only the deepest session of a chain can be unrevoked |
| SessionForest.OneLivePerChain | backend/internal/auth/repository/auth_repo.go:304-312 | Two live sessions of one chain are the same session |
| SessionForest.RootFixesThePolicy | backend/internal/auth/service/auth_service.go:721-727 | A session has its root login's user, Remember Me flag and expiry |
| SessionForest.RootIsStable | backend/internal/auth/repository/auth_repo.go:295-332 | Later changes of the table never move a session to another chain |
| SessionInvariant.StepShape | backend/internal/auth/repository/auth_repo.go:244-515 | One step of any call only stamps revocations, or stores a login's session, or stores the successor of a session that was still live; there is no fourth way to change the table |
| SessionInvariant.RunKeepsInv | backend/internal/auth/repository/auth_repo.go:244-515 | The inductive invariant survives every run; rows are never removed, rewritten or unrevoked, and the record of what was issued only grows |
| AuthRepository.AuthRepository.GetSessionByRefreshToken | backend/internal/auth/repository/auth_repo.go:397-404 | Returns a copy of the row stored under the token, or nothing |
| AuthRepository.AuthRepository.GetUserByID | backend/internal/auth/repository/auth_repo.go:160-169 | Returns a copy of the account, or nothing |
| AuthRepository.AuthRepository.UpdateStatus | backend/internal/admin/repository/admin_repo.go:470-482 | Writes the status of an existing account and changes nothing else |
| AuthRepository.AuthRepository.CreateSession | backend/internal/auth/repository/auth_repo.go:244-264 | Stores the row unless the call fails or the token is taken; other rows are untouched |
| AuthRepository.AuthRepository.RevokeSession | backend/internal/auth/repository/auth_repo.go:422-440 | The loop stamps every row with the id, revoked or not, and no other |
| AuthRepository.AuthRepository.RevokeAllUserSessions | backend/internal/auth/repository/auth_repo.go:446-464 | The loop stamps every row of the user, revoked or not, and no other |
| AuthRepository.AuthRepository.RotateSession | backend/internal/auth/repository/auth_repo.go:339-355 | The scan revokes the old row only if it is live and files its successor, or changes nothing and says why |
| AuthRepository.AuthRepository.Supersede | backend/internal/auth/repository/auth_repo.go:349-352 | Stamping the old row in place and filing the new one is exactly the two-entry update of the table |
| AuthRepository.AuthRepository.UpdatePasswordAndRevokeSessions | backend/internal/auth/repository/auth_repo.go:474-515 | New password and end of every session together, or neither |
| AuthService.AuthService.Login | backend/internal/auth/service/auth_service.go:486-592 | Run alone, the call is its thread of the protocol run to completion: same answer, same store |
| AuthService.AuthService.StoreLogin | backend/internal/auth/service/auth_service.go:544-580 | Storing a login's session is the protocol's last login step |
| AuthService.AuthService.Refresh | backend/internal/auth/service/auth_service.go:616-749 | Run alone, the call is its thread of the protocol run to completion |
| AuthService.AuthService.Decide | backend/internal/auth/service/auth_service.go:654-749 | The verdict on the session and what follows from it are the protocol's remaining refresh steps |
| AuthService.AuthService.Contain | backend/internal/auth/service/auth_service.go:665-692 | Reuse containment is the protocol's revoke-all step, and its failure is reported |
| AuthService.AuthService.StoreRotation | backend/internal/auth/service/auth_service.go:710-749 | Rotation is the protocol's rotation step, including the lost race |
| AuthService.AuthService.Logout | backend/internal/auth/service/auth_service.go:758-779 | Run alone, the call is its thread of the protocol run to completion; an unknown token is success |
| AuthService.AdminService.UpdateUserStatus | backend/internal/admin/service/admin_service.go:197-239 | Refused without a reason; otherwise the call is its thread of the protocol: status, sessions, audit entry, with a failed revocation swallowed and a failed audit entry returned |
| AuthService.AdminService.EndSessions | backend/internal/admin/service/admin_service.go:213-233 | Ending the sessions is the protocol's second status step, whether or not it succeeds |
| ResetTheorems.ChangesMatchConsumedLinks | backend/internal/auth/service/auth_service.go:1018-1064 | Over every run, each password change was made by the very call that earlier moved its link from unused to used, and no two changes and no two redemptions share a link |
| ResetTheorems.PasswordIsTheLastChange | backend/internal/auth/service/auth_service.go:1033-1053 | Over every run of resets a user's password is the one set by their last completed redemption, or the original |
| ResetTheorems.RetiredLinkIsNeverRedeemed | backend/internal/auth/repository/auth_repo.go:671-722 | A link that is used, by redemption or by retirement, is never redeemed afterwards, even by a call that had read it as unused |
| ResetTheorems.AtMostKUnusedLinks | backend/internal/auth/service/auth_service.go:922-944 | With at most k ForgotPassword calls of an account in flight it never has more than k unused links |
| ResetTheorems.SerialIssueLeavesOne | backend/internal/auth/service/auth_service.go:922-944 | When calls are serial, each issue leaves exactly the new link unused |
| ResetTheorems.AtMostKPlusTwoPerWindow | backend/internal/auth/service/auth_service.go:892-944 | With at most k calls in flight and f failing counts, no one-hour window, wherever it lies, holds more than k + 2 + f links of the account |
| ResetTheorems.RunKeepsInv | backend/internal/auth/repository/auth_repo.go:616-722 | Links persist, stay used once used, and the log of redemptions stays well formed over every run |
| ResetLimits.BoundsAreAttained | backend/internal/auth/service/auth_service.go:892-944 | For every k at least 1 and every f some run attains k + 2 + f links in a window; for f = 0 the same run has k of them unused |
| ResetLimits.FailedCountsLiftTheThrottle | backend/internal/auth/service/auth_service.go:895-908 | If counts may fail there is no bound: for every n, serial calls put n links into one instant |
| ResetCalls.ForgotIssuesIff | backend/internal/auth/service/auth_service.go:877-979 | Which request issues, is throttled or sends nothing, both ways: it issues if and only if the account is active, has fewer than three links of the last hour or the count fails, and nothing else fails; the link is good for an hour and the account's only unused one; the account's unused links are spent and otherwise unchanged, and no other link is touched |
| ResetCalls.ResetSucceedsIff | backend/internal/auth/service/auth_service.go:986-1064 | An undisturbed redemption changes the password and ends every session of the account, and no other, if and only if it is acceptable, the link unused and in time, the account active or its lookup failing, and nothing else fails; a failed password write costs the link all the same |
| ResetCalls.ResetRefusals | backend/internal/auth/service/auth_service.go:986-1064 | Which refusal answers which redemption, in order: unacceptable password, unknown link, used link, expired link, account not active, fault |
| ResetCalls.OnlyItsOwnCallsSpendALink | backend/internal/auth/repository/auth_repo.go:699-722 | Over any run an unused link ends up used if and only if a ForgotPassword call of its own account retired it or a ResetPassword call redeemed that very link |
| ResetCalls.LoserIsTold | backend/internal/auth/repository/auth_repo.go:671-697 | Once a link is used, after any run, a redemption that had found it unused is told at its last check that it is used, and changes nothing |
| PasswordResetService.ResetRepository.CountRecentPasswordResets | backend/internal/auth/repository/auth_repo.go:728-747 | The loop returns the size of the set of the user's links created at or after the cutoff |
| PasswordResetService.ResetRepository.InvalidateUserPasswordResets | backend/internal/auth/repository/auth_repo.go:705-722 | The loop stamps every unused link of the user and leaves used ones and other users' exactly as they were, row by row |
| PasswordResetService.ResetRepository.CreatePasswordReset | backend/internal/auth/repository/auth_repo.go:616-635 | Stores the link unless the call fails or the token is taken |
| PasswordResetService.ResetRepository.GetPasswordResetByTokenHash | backend/internal/auth/repository/auth_repo.go:637-664 | Returns a copy of the link, or nothing |
| PasswordResetService.ResetRepository.MarkPasswordResetUsed | backend/internal/auth/repository/auth_repo.go:671-697 | Succeeds exactly when the link was still unused, and only then changes it |
| PasswordResetService.PasswordResetService.ForgotPassword | backend/internal/auth/service/auth_service.go:877-979 | Run alone, the call is its thread of the reset protocol run to completion |
| PasswordResetService.PasswordResetService.Admit | backend/internal/auth/service/auth_service.go:892-944 | Cutoff, throttle and issue are the protocol's steps after the eligibility check |
| PasswordResetService.PasswordResetService.Throttle | backend/internal/auth/service/auth_service.go:895-944 | Count first, and only an admitted call retires and issues |
| PasswordResetService.PasswordResetService.OverLimit | backend/internal/auth/service/auth_service.go:892-908 | The throttle's verdict is the protocol's count step; a failed count throttles nobody |
| PasswordResetService.PasswordResetService.Issue | backend/internal/auth/service/auth_service.go:910-944 | Retire, stamp and store are the protocol's last three steps |
| PasswordResetService.PasswordResetService.ResetPassword | backend/internal/auth/service/auth_service.go:986-1064 | Run alone, the call is its thread of the reset protocol run to completion |
| PasswordResetService.PasswordResetService.Validate | backend/internal/auth/service/auth_service.go:1000-1064 | A link found is refused if used, expired or of an ineligible account, in this order, before anything is consumed |
| PasswordResetService.PasswordResetService.Redeem | backend/internal/auth/service/auth_service.go:1023-1064 | Consume, then change: the protocol's last two steps |
| PasswordResetService.PasswordResetService.Consume | backend/internal/auth/service/auth_service.go:1023-1031 | The call goes on exactly when it was the one to consume the link |
| PasswordResetService.PasswordResetService.Change | backend/internal/auth/service/auth_service.go:1033-1053 | The password changes and every session of the account is revoked, or the call fails and nothing does |
| JobDeadlock.DeadlockIffShared | backend/internal/applications/repository/applications_repository.go:62-81 | Some run of CreateApplication transactions, waiting for row locks and for uncommitted rows under either unique index, reaches a ring of waiting if and only if the first lock is FOR SHARE |
| JobDeadlock.SharedLockDeadlocks | backend/internal/applications/repository/applications_repository.go:66-74 | Two applicants to one posting under the shared lock: the run that ends with each waiting for the other |
| JobDeadlock.NoWaitCycle | backend/internal/applications/repository/applications_repository.go:62-81 | So no ring of waiting exists |
| JobDeadlock.WorkIsBounded | backend/internal/applications/repository/applications_repository.go:40-201 | Whatever the schedule, transactions move at most six times each |
| JobDeadlock.EveryoneFinishes | backend/internal/applications/repository/applications_repository.go:40-201 | Unless the first lock is shared: in every reachable state some unfinished transaction can move, and all can be brought to their end within the remaining steps |
| JobRows.ApplicationsAreUniqueAndCounted | backend/internal/applications/repository/applications_repository.go:139-198 | In every interleaving and under every first lock: at most one application per job and candidate, and each job's counter has grown by exactly its number of applications |
| JobRows.RunKeepsInv | backend/internal/applications/repository/applications_repository.go:139-198 | The invariant behind it, which also covers rows and counters not yet committed, survives every run |
| JobRows.AnswersAreTrue | backend/internal/applications/repository/applications_repository.go:40-201 | In every interleaving a transaction is answered created if and only if its application is stored, and then the check of the locked posting said yes; refused if and only if that check said no; already applied, existing, not found and the bare key error only of what they say; nothing is written before the check said yes, and no missing posting is checked |
| JobKeys.OneApplicationPerKey | backend/scripts/migrations/0093_complete_hiring_privacy_lifecycle.up.sql:24-26 | In every interleaving one candidate's key names at most one stored application |
| JobKeys.RetryAddsNothing | backend/internal/applications/repository/applications_repository.go:49-57 | Once a transaction with a key has committed, a retry that starts any time later, for whatever posting, waits for no lock, answers with the existing application and adds nothing |
| JobKeys.OverlappingRetryIsRefused | backend/internal/applications/repository/applications_repository.go:49-57 | A retry that has looked its key up before the first attempt commits is never given that answer: in the rest of any run it is refused or fails |
| JobKeys.KeyTakenIff | backend/internal/applications/repository/applications_repository.go:166-181 | Under the lock the code takes, an insert ends in the unrecognised unique violation if and only if another application under the key, for another job, was committed between the transaction's lookup and its insert |
| JobKeyErrors.BareErrorIffTwoPostings | backend/internal/applications/repository/applications_repository.go:170-181 | A candidate's key can be answered with that error if and only if it is sent for two postings |
| ApplicationStages.ProgressIsBounded | backend/internal/applications/models/applications.go:27-84 | Along any permitted path, moves plus starting rank are at most final rank plus twice the back-moves |
| ApplicationStages.AtMostSixPlusTwicePerBackMove | backend/internal/applications/models/applications.go:27-84 | From Applied, n effective moves with b back-moves satisfy n <= 6 + 2b |
| ApplicationStages.BoundIsAttained | backend/internal/applications/models/applications.go:27-84 | For every b some permitted path from Applied has b back-moves and 6 + 2b moves |
| ApplicationStages.TransitionTable | backend/internal/applications/models/applications.go:27-84 | Every effective move by destination and actor, with its refusal: nobody returns to Draft, candidates alone submit and withdraw, recruiters alone view, shortlist, interview, offer and reject |
| ApplicationStages.EntryPoints | backend/internal/applications/models/applications.go:27-84 | Accepted is entered from Offer only, Offer from Shortlisted or Interview only, Archived is left for Withdrawn only, and closed stages lead to closed stages only |
| ApplicationStages.AcceptanceHasAHistory | backend/internal/applications/models/applications.go:27-84 | On every path from Applied an acceptance comes after an offer, and that after a shortlisting or interview |
| ApplicationStages.ClosedStaysClosed | backend/internal/applications/models/applications.go:27-84 | Accepted, Rejected, Withdrawn and Archived together are never left |
| ApplicationStages.EnteredByItsOwner | backend/internal/applications/models/applications.go:27-84 | On every path from Applied, each stage up to an offer or a rejection was entered by a recruiter's move and a withdrawal by the candidate's |
| ApplicationStages.AloneTheyReach | backend/internal/applications/models/applications.go:27-84 | By candidates' moves alone nothing from Applied gets anywhere but Withdrawn and Archived; by recruiters' moves alone it never gets to Withdrawn |
| ApplicationHistory.WhereOperationsLand | backend/internal/applications/repository/applications_repository.go:433-510 | A withdrawal lands in Withdrawn with its row, or changes nothing if the application was rejected or accepted; archiving always lands in Archived with its row |
| ApplicationHistory.HistoryIsCoherent | backend/internal/applications/repository/applications_repository.go:433-510 | Under any withdrawals and archivings the history stays one chain that starts at None to Applied, ends at the current stage and takes only steps permitted to the candidate, though archiving never asks; and it only grows |
| ApplicationHistory.SubmittedApplicationsStayCoherent | backend/internal/applications/repository/applications_repository.go:183-191 | Every submitted application has such a history after any operations, and is closed after the first |
| ApplicationHistory.ApplicationRecord.WithdrawApplication | backend/internal/applications/repository/applications_repository.go:433-466 | Appends the history row and moves the stage to Withdrawn unless the application was rejected or accepted, else changes nothing |
| ApplicationHistory.ApplicationRecord.ArchiveApplication | backend/internal/applications/repository/applications_repository.go:482-510 | Appends the history row and moves the stage to Archived, always |
| ApplicationStore.StoreStaysConsistent | backend/internal/applications/repository/applications_repository.go:203-254 | Over any requests the in-memory maps agree: every application has an owner, no two share job and candidate, every key leads to an application of its candidate; and nothing is forgotten |
| ApplicationStore.CreateFilesOnce | backend/internal/applications/repository/applications_repository.go:203-254 | A create is answered with its key's application, or refused if the candidate has one for the job, or filed: at stage Applied, with its owner and key, and nothing else touched |
| ApplicationStore.RepeatedCreateReturnsTheSame | backend/internal/applications/repository/applications_repository.go:207-214 | A create repeated with its key, after any requests in between and for whatever posting, returns the same application and adds nothing |
| ApplicationStore.SecondApplicationIsRefused | backend/internal/applications/repository/applications_repository.go:216-221 | A second application to a job is refused for ever, under any key that is not an earlier one |
| ApplicationStore.ApplicationsNeverReopen | backend/internal/applications/repository/applications_repository.go:416-480 | Over any requests an application is either still Applied or withdrawn or archived, and never reopens |
| ApplicationStore.ClosingLands | backend/internal/applications/repository/applications_repository.go:416-480 | Withdrawing ends in Withdrawn unless rejected or accepted, archiving in Archived; unknown applications are reported; nothing else changes |
| ApplicationStore.LastWordDecides | backend/internal/applications/repository/applications_repository.go:416-480 | Over any requests the candidate's last word on an application is its stage, Withdrawn or Archived; without one it stays as it was |
| ApplicationStore.ApplicationsRepository.CreateApplication | backend/internal/applications/repository/applications_repository.go:203-254 | Key lookup, duplicate scan and filing are the specified request and keep the maps consistent |
| ApplicationStore.ApplicationsRepository.File | backend/internal/applications/repository/applications_repository.go:223-253 | Files the application in all three maps and touches nothing else |
| ApplicationStore.ApplicationsRepository.WithdrawApplication | backend/internal/applications/repository/applications_repository.go:419-431 | Moves the stage in place if the stage machine allows it, else says why not |
| ApplicationStore.ApplicationsRepository.ArchiveApplication | backend/internal/applications/repository/applications_repository.go:471-480 | Moves the stage in place, or reports an unknown application |
| BrowserTheorems.OneFlightTwoPosts | frontend/src/services/authService.ts:104-153 | In any order of events at most one refresh flight is open, and a flight makes one or two POSTs |
| BrowserTheorems.RequestCost | frontend/src/services/authService.ts:191-234 | A request is sent at most twice, joins at most one flight, and is sent again exactly when that flight restored the session; requests to the authentication endpoints are sent once and join none |
| BrowserTheorems.WaitersAgree | frontend/src/services/authService.ts:142-153 | All requests and bootstraps that awaited one flight were told the same, at whatever time |
| BrowserTheorems.BootstrapCost | frontend/src/context/AuthContext.tsx:171-198 | A bootstrap makes at most two attempts and accounts for at most four flights and eight refresh POSTs, its identity requests' included |
| BrowserTheorems.BootstrapVerdict | frontend/src/context/AuthContext.tsx:171-198 | In every reachable state a bootstrap has ended signed in if and only if its last refresh restored the session and the identity request it then made succeeded; signed out if and only if that refresh or request was rejected, or the second attempt failed otherwise; and a second attempt follows only a first that failed otherwise |
| BrowserProgress.BootstrapMoves | frontend/src/context/AuthContext.tsx:171-198 | In every reachable state a bootstrap moves on exactly when what it awaits has arrived, and each move takes it strictly further towards leaving loading |
| BrowserProgress.BootstrapEnds | frontend/src/context/AuthContext.tsx:171-198 | From every reachable state some continuation of events brings any bootstrap out of loading |
| BrowserProgress.FailedRefreshClearsIff | frontend/src/services/authService.ts:124-139 | In every reachable state a reply that ends a flight without a token clears the access token if and only if the flight made a single POST |
| BrowserProgress.RefusedRetryKeepsToken | frontend/src/services/authService.ts:125-136 | For every access token some run ends with the session refused and that token still held |
| BrowserTheorems.TotalCost | frontend/src/services/authService.ts:104-153 | The tab never opens more flights than requests plus two per bootstrap |
| BrowserInvariant.RunKeepsInv | frontend/src/services/authService.ts:69-234 | The tab's invariant survives every run of events |
| AuthClient.AuthClient.RefreshAccessToken | frontend/src/services/authService.ts:146-153 | The flight returned is the only one open; it is a new one, costing one POST, exactly if none was open, and the tab's invariant is kept |
| AuthClient.AuthClient.OnReply | frontend/src/services/authService.ts:115-140 | Only a first 409 costs a second POST, any other reply settles the flight: a grant restores, a denial rejects, the rest fails; a granted token is kept and only a first reply without one takes the old token away |
| AuthClient.AuthClient.OnFinally | frontend/src/services/authService.ts:148-150 | Afterwards no flight is open and the outcome stands; a flight not settled is left alone |
| AuthClient.AuthClient.OnResponse | frontend/src/services/authService.ts:205-222 | A first 401 of a path that may refresh leaves the request waiting for the one open flight, opened only if there was none; any other response answers the caller, 401 and 403 as an authentication failure, and opens nothing |
| AuthClient.AuthClient.OnWake | frontend/src/services/authService.ts:221-233 | The request learns what its flight came to: sent a second and last time after a restored session, an authentication failure after a rejected one, another failure otherwise |
| AuthClient.AuthClient.StartBootstrap | frontend/src/context/AuthContext.tsx:171-176 | A page load joins the open flight or opens the only one |
| AuthClient.AuthClient.ResumeBootstrap | frontend/src/context/AuthContext.tsx:174-197 | Moves exactly when what it awaits has arrived, and names the next phase for each outcome: a restored session sends the identity request, its success signs in, a rejected refresh or request signs out, any other failure pauses the first attempt and ends the second, and the pause leads to the one open flight |
| AuthClient.AuthClient.StaysWithinBounds | frontend/src/services/authService.ts:69-234 | After any history the object obeys the bounds: two sends a request, two POSTs a flight, one open flight, and flights at most requests plus two per bootstrap |
| AuthClient.AuthProvider.Bootstrap | frontend/src/context/AuthContext.tsx:171-198 | The retry loop ends as the tab's bootstrap driven by the same replies does, with as many refreshes and identity requests; it ends signed in exactly when an attempt succeeds and retries only after an inconclusive one |
| AdminRbac.EffectivePermissions | backend/internal/admin/domain/rbac.go:263-286 | The nested loops build the specified duplicate-free list, in order |
| AdminRbac.HasPermission | backend/internal/admin/domain/rbac.go:288-296 | True exactly for members |
| AdminRbac.Except | backend/internal/admin/domain/rbac.go:131-144 | The loops keep exactly the entries not excluded |
| AdminRbac.ReadOnly | backend/internal/admin/domain/rbac.go:146-159 | The loop keeps exactly the codes that end in .read |
| AdminRbacTheorems.EffectiveIsTheUnion | backend/internal/admin/domain/rbac.go:245-286 | No assignment means every permission; otherwise a permission is effective exactly if some assigned role carries it |
| AdminRbacTheorems.EffectiveHasNoDuplicates | backend/internal/admin/domain/rbac.go:278-284 | The effective list has no duplicates |
| AdminRbacTheorems.OnlyTheSetMatters | backend/internal/admin/domain/rbac.go:263-286 | Order and repetition of assignments change nothing |
| AdminRbacTheorems.NothingExceedsNoRole | backend/internal/admin/domain/rbac.go:250-255 | No arrangement of roles grants more than assigning none |
| AdminRbacTheorems.AssignmentNarrows | backend/internal/admin/domain/rbac.go:250-255 | Adding a role never widens exactly when there was none before or it brings nothing new; a further role otherwise widens |
| AdminRbacTheorems.WhoManagesRoles | backend/internal/admin/domain/rbac.go:161-220 | roles.manage is held exactly by accounts without an assignment and by super admins |
| AdminRbacTheorems.WhoImpersonates | backend/internal/admin/domain/rbac.go:194-206 | users.impersonate is held exactly by accounts without an assignment and by super admins |
| AdminHoldings.WhoHolds | backend/internal/admin/domain/rbac.go:161-220 | Every role against every permission, against a table read by permission: who may suspend, moderate, resolve, verify, retry, manage and read |
| AdminHoldings.WhoMay | backend/internal/admin/domain/rbac.go:245-286 | An account may do exactly what one of its roles holds in that table; without an assignment, everything |
| AdminHoldings.WhoMayDoEverything | backend/internal/admin/domain/rbac.go:161-286 | All permissions are held exactly by accounts without an assignment and by super admins |
| AdminHoldings.UnknownRoleCarriesNothing | backend/internal/admin/domain/rbac.go:223-234 | An unknown role carries nothing, and next to other roles it changes nothing |
| AdminHoldings.ReadsAreReads | backend/internal/admin/domain/rbac.go:146-159 | The codes that end in .read are those of the twenty permissions that only read |
| AdminHoldings.DerivedListsAreOrdered | backend/internal/admin/domain/rbac.go:131-166 | The three derived lists keep the order of the list of all permissions, each entry once |
| AdminRoles.StoresAgree | backend/internal/admin/repository/admin_repo.go:931-1007 | Over any assigns and revokes the list store, duplicates included, and the set store assign the same roles |
| AdminRoles.SamePermissions | backend/internal/admin/repository/admin_repo.go:931-1007 | So both give every account the same effective permissions |
| AdminRoles.AssignThenRevokeRestores | backend/internal/admin/repository/admin_repo.go:977-997 | Assigning a role not held and having it revoked restores the store exactly |
| AdminRoles.AnswersInOrder | backend/internal/admin/service/admin_service.go:452-518 | Which answer which call gets: missing code, then unknown code if it is to be assigned, then a change of one's own roles, then the first repository call that fails; the change lands exactly if the answer is success or a failed audit entry |
| AdminRoles.WhatAChangeDoes | backend/internal/admin/repository/admin_repo.go:931-997 | A change adds the role at the end or takes every occurrence out and leaves the others as often as they were; nobody else's list changes, and an empty list has no entry |
| AdminRoles.OnlyKnownRoles | backend/internal/admin/service/admin_service.go:458-466 | Over any changes no account is given a role that does not exist |
| AdminRoles.NobodyIsLockedOut | backend/internal/admin/service/admin_service.go:452-518 | If every change is made by an administrator who may manage roles at that moment, some administrator still may after any run |
| AdminRoles.StaleChecksLockOutIff | backend/internal/admin/service/admin_service.go:452-518 | Of any two changes checked against one state, both applied, nobody is left able to manage roles if and only if the two actors change each other, each change takes the right from its target, and no third administrator has it |
| AdminRepository.AdminRepository.GetUserRoles | backend/internal/admin/repository/admin_repo.go:276-281 | Returns a copy of the list, empty without an entry |
| AdminRepository.AdminRepository.AssignUserRole | backend/internal/admin/repository/admin_repo.go:931-934 | Appends the role, in place while the buffer has room and otherwise in a larger one; no other account's list changes |
| AdminRepository.AdminRepository.Compact | backend/internal/admin/repository/admin_repo.go:984-990 | Writing the kept roles over the buffer being read yields exactly the list without the role |
| AdminRepository.AdminRepository.RevokeUserRole | backend/internal/admin/repository/admin_repo.go:982-997 | Removes every occurrence, and the entry with the last one; no other account's list changes |
| AdminRepository.AdminService.AssignRole | backend/internal/admin/service/admin_service.go:452-485 | The refusals in their order, then lookup, write and audit entry: the append lands exactly if the first two succeed, and a failed audit entry is reported all the same |
| AdminRepository.AdminService.RevokeRole | backend/internal/admin/service/admin_service.go:492-518 | The refusals in their order, then lookup, write and audit entry: the removal lands exactly if the first two succeed, and a failed audit entry is reported all the same |
| AdminRepository.AdminService.CheckPermission | backend/internal/admin/service/admin_service.go:70-96 | True exactly if the permission is effective under the stored roles |
| Scoring.IndexAnswers | backend/internal/assessment/service/assessment_service.go:81-85 | The lookup map holds exactly the last answer to each question |
| Scoring.SubmitAssessment | backend/internal/assessment/service/assessment_service.go:87-149 | The six running sums and three truncated divisions are the specified section scores |
| ScoringCalls.SubmissionScores | backend/internal/assessment/service/assessment_service.go:81-149 | On any questions, answers and evaluator: a multiple-choice question brings its points exactly if the last answer to it selects the correct option, a practical one the evaluator's share of them, 75 percent if it fails; each score is the truncated percentage of the points earned, 0 of a section worth nothing, and decides passing |
| ScoringCalls.NoRightOptionScoresNothing | backend/internal/assessment/service/assessment_service.go:101-107 | A paper without a right option scores 0 in multiple choice, whatever was answered |
| ScoringCalls.QuotientTruncates | backend/internal/assessment/service/assessment_service.go:119-145 | Division truncates toward zero, for negative points too |
| ScoringTheorems.FlooredPercentage | backend/internal/assessment/service/assessment_service.go:132-145 | A percentage p is reported exactly when p% of the points are earned and (p + 1)% are not |
| ScoringTheorems.ScoresArePercentages | backend/internal/assessment/service/assessment_service.go:132-145 | All three percentages lie in 0..100, whatever the question types |
| ScoringTheorems.ScoreLiesBetweenSections | backend/internal/assessment/service/assessment_service.go:87-145 | The overall score never exceeds the better section, and is at least the worse one when unknown question types are worth nothing, also if a section is worth nothing |
| ScoringTheorems.LowerBoundIff | backend/internal/assessment/service/assessment_service.go:87-145 | For answerable questions, the overall score is at least the worse section's for all answers and all fair evaluators if and only if unknown types, or multiple choice, or practical, are worth nothing |
| ScoringTheorems.FlooringNeverCostsAPass | backend/internal/assessment/service/assessment_service.go:132-148 | Passing is decided as the exact fraction would decide it |
| ScoringTheorems.HundredMeansEveryPoint | backend/internal/assessment/service/assessment_service.go:132-135 | 100 is reported exactly if every question earned all its points |
| ScoringTheorems.StrayAnswersAreIgnored | backend/internal/assessment/service/assessment_service.go:81-99 | Answers to questions not asked change no grade |

## Left out

Conditions and idealizations of what is proved:

- SuspensionSticks: needs that no login is past its second standing read and that second reads succeed; SessionLimits proves exactly when these conditions are needed.
- ExpiredChainIsNeverExtended: needs that no refresh judged before the expiry is still waiting to rotate a live session, since the expiry is not looked at again after the verdict; OnlyPendingRotationsExtend proves the converse.
- ExpiryIsAbsolute: the policy lifetimes are the defaults of 7 and 30 days, as LoginSucceedsIff states them; a configured policy would change the body of `Lifetime` and those two numbers.
- NobodyIsLockedOut: takes as a premise that each change is made by someone who may manage roles at that moment; the route that demands it is not part of this model.
- ScoreLiesBetweenSections: for non-negative points and evaluator scores in 0..100, as the evaluator documents them.
- LowerBoundIff: for questions with distinct ids and an answer key on every multiple-choice question; without these not all can be answered right at once.
- EveryoneFinishes: which waiter a released lock goes to is left to the schedule; PostgreSQL's own queueing is not modelled.
- KeyTakenIff: the index on job and candidate is taken to be consulted before the one on candidate and key, in the order in which the migrations create them.
- AuthRepository.RevokeSession: the stamp is the time of the atomic step, while the source reads the clock just before it.
- AuthRepository.CreateSession: a token already taken is refused, as the table's UNIQUE constraint does; the in-memory map would overwrite the row.
- AuthRepository.UpdatePasswordAndRevokeSessions: accounts are values in a map, so the in-place update of an account object and the loop that finds it are not modelled; session rows are objects and are.
- ResetRepository.MarkPasswordResetUsed: a link's id and its token hash are one key, so the scan for the id is a lookup.
- ApplicationsRepository.WithdrawApplication: like the in-memory path, it does not ask who owns the application; the SQL path does, as part of finding the row.
- AdminService.AssignRole: of the audit entry only its failure is modelled, not its content.
- SubmitAssessment: integers do not overflow; 64-bit wrap-around would need point totals near 10^17.

Not modelled:

- Hashing, token generation and password comparison: the hash is injective, the drawn token is part of the event, and comparing passwords is equality.
- Session ids come from an increasing supply, which only renames them.
- Access tokens, cookies, JSON, HTTP handlers, middleware, mail and audit logs.
- Registration details, email verification and `GetUserMe`.
- `DeleteExpiredPasswordResets`: the service never calls it, and it would remove rows the throttle counts.
- Sessions in runs of the reset protocol: a redemption ends those of its account, and everything else may happen to them at any time; what they may do is the session protocol's subject.
- Recruiters' stage moves: the history theorems cover the candidate's operations, the stage theorems all permitted moves.
- Screening questions, attachments and expiry of a posting: one verdict that the schedule chooses.
- Percentile ranks, badges and feedback text of a submitted assessment.
- Other tabs: a token set or cleared from outside is an event of its own.
- React rendering and streamed-content waits of the bootstrap loop.
