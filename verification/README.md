# Tucano verification model

A Dafny model of the parts of the Tucano marketplace that are hard to get right, and proofs about them.
Tucano is a Django marketplace being rewritten in Go; the model follows both.

| files | what they model |
|---|---|
| `Requests`, `RequestService`, `RequestInvariants`, `RequestCounts`, `RequestSweep`, `RequestJournal`, `RequestSiblings`, `RequestLaws`, `RequestOverfill` | service requests and interests: publish, apply, select, withdraw, close, cancel, and the periodic expiry sweep |
| `SlidingWindow`, `RequestQuota`, `Chat` | the two record-counting limits: five requests in 30 days, twenty messages a minute |
| `RateLimit` | the cached counter that limits POSTs |
| `Portfolio`, `PortfolioSafety`, `PortfolioOwners` | concurrent upload and deletion of portfolio items: row lock, count, transaction, files |
| `Clock`, `Schedule`, `ProfileForm`, `ScheduleStore`, `ScheduleLaws` | the profile form and its weekly schedule: clock strings, the sort-and-scan validator, normalised skills, storage and read-back |
| `Accounts`, `AccountService`, `AccountRuns`, `AccountTrail`, `AccountLaws` | login, refresh rotation, logout, password reset, mailed action tokens, each call as one step |
| `Sessions`, `SessionSafety`, `SessionReset`, `SessionLaws`, `SessionOverlap` | login, refresh and password reset again, statement by statement, with row locks |
| `Listings`, `Search`, `SearchLaws`, `Boost` | what ORDER BY may answer, the paged Go search, the boosted Django search |
| `Decimal`, `Base64`, `Password` | the encoded password hash as a printer and a parser |
| `Wrappers`, `Sets`, `Text` | the option type, cardinalities, trimming and measuring text |

Operations that change rows are methods of a class whose contracts equate the tables afterwards with a step
function of the tables before; the laws are lemmas about those functions and about whole runs. The portfolio
protocol, and the second model of sessions, are state machines instead, because their point is the interleaving
of several calls.

The modules whose names end in `Laws`, and `PortfolioOwners`, tell what each operation answers and leaves behind on
the rows alone, with the numbers written out: both when it goes through and when it does not.

## What is assumed

- A request service call is one atomic step at one instant. The Python code takes no lock and opens no
  transaction, so two calls on one request can in fact interleave. In the same way the quota, the chat limit
  and the counter are checked at the instant the record is stamped.
- Rows come from the database in any order its ORDER BY allows; the answer of a query or of a library sort is
  a parameter constrained only by what the query promises.
- In `Accounts` and `AccountRuns` each call is one atomic step: a transaction, the issue of an action token in
  `RequestPasswordReset` and `ResendVerification`, and a login, although those three calls run without one.
  Issues whose statements interleave are `UnusedAfterWrites`; logins and refreshes that overlap a reset are
  `Sessions` and the modules after it, which assume READ COMMITTED and nothing about atomicity.
- Token hashing never collides. Lower-casing and the table of time zones are parameters; coordinates are reals.
- A portfolio commit that reports an error has not committed, and a UUID never repeats.

## What the code does that its texts do not say

- `ServiceRequest.save` repeats the duplicate check, so a status save is rejected while the client has another
  open request of the category that is under five minutes old. The interests were already written then. A
  request can end with more selected interests than positions (`RejectedSelectionOverfills`); exactly when is
  `SelectSoundIff`, and which request can be in the way is `BlockedByTheNewest`.
- A partially filled request that was closed still accepts interests and is swept, audited and counted by every
  later sweep (`SweepRepeated`).
- A sweep that a rejected save stopped is rejected again at once, in whatever order (`RejectedAgain`); it goes
  through once the sibling is over five minutes old (`RejectedSweepGoesThrough`).
- The rate limiter calls itself a fixed window. Every accepted call renews the timeout, so a caller at or below
  the rate is refused until a whole window passes without an accepted call (`NotAFixedWindow`).
- A password reset revokes the tokens its statement sees. A session committed while the reset is under way
  survives it, and so does a login that has checked the old password and not inserted its token; exactly then
  an old session is left (`ResetEndsOldSessionsIff`, with a run in `OldSessionSurvives`).
- The schedule validator sorts start times as strings but reads hours of one digit, so it refuses some good
  schedules (`UnpaddedRefused`).
- `comparePassword` bounds iterations and lanes from above only; an encoding within its bounds that asks for zero
  of either makes the key derivation panic, and no other printed encoding does (`CompareCrashesIff`). The service
  only compares with strings that `hashPassword` wrote, so no call reaches such an input (`HashComparesByKey`).

## Model

| member | source | states |
|---|---|---|
| RequestServices.RequestService.FinalizeRemainingInterests | apps/requests/services.py:14-20 | every applied interest of the request gets the final status and one dispatch; nothing else changes |
| RequestServices.RequestService.PublishRequest | apps/requests/models.py:59-100 | refused by field, window, duplicate or quota check, else one new open request with its expiry |
| RequestServices.RequestService.ApplyTo | apps/requests/models.py:104-138 | an interest needs a message of at most 280 characters, an accepting request and no earlier interest of the professional in it |
| RequestServices.RequestService.SelectInterest | apps/requests/services.py:36-69 | refused without a write unless the request accepts and the interest is applied; the last position fills the request and turns the other applied interests down; a rejected save keeps those interest writes and drops request, conversation, notice and log |
| RequestServices.RequestService.WithdrawInterest | apps/requests/services.py:72-78 | only an applied interest of an accepting request is withdrawn; otherwise nothing changes |
| RequestServices.RequestService.CloseRequestNow | apps/requests/services.py:81-115 | an accepting request ends filled, partially filled or expired by its selected count, and its applied interests with it; a rejected save keeps the interest writes |
| RequestServices.RequestService.CancelRequest | apps/requests/services.py:118-132 | any request not yet cancelled or completed; the save comes first, so a rejected one leaves nothing behind |
| RequestServices.RequestService.ExpireDueRequests | apps/requests/services.py:135-174 | the loop over the due requests is the sweep function; a rejected save stops it where it is |
| RequestLaws.PublishAnswer | apps/requests/models.py:59-100 | which refusal, each exactly when; a quota refusal only on the free plan with five requests, drafts aside, in 30 days |
| RequestLaws.PublishedRow | apps/requests/models.py:93-100 | one open request as the form says, expiring 2, 5, 24 or 72 hours after its publication |
| RequestLaws.PublicationsInRuns | apps/subscriptions/limits.py:10-31 | in every run a publication that passes the other checks goes through exactly for premium clients and those with fewer than five requests in 30 days |
| RequestLaws.ApplyAnswer | apps/requests/models.py:104-138 | which answer, each exactly when, and the one row added |
| RequestLaws.WithdrawAnswer | apps/requests/services.py:72-78 | which answer, each exactly when, and the one row changed |
| RequestLaws.SelectAnswer | apps/requests/services.py:36-56 | which refusal, each exactly when; the save is rejected exactly while another request of the client and category is at most five minutes old |
| RequestLaws.SelectEffect | apps/requests/services.py:43-69 | the request is filled exactly when the selected make up the positions; then those still waiting are not selected and told so once; the chosen one is told, and gets its chat, if the save goes through |
| RequestLaws.CloseAnswer | apps/requests/services.py:81-115 | which answer, each exactly when |
| RequestLaws.CloseEffect | apps/requests/services.py:86-115 | by the number of selected alone: all positions, filled; some, partially filled; none, expired; those waiting are not selected, or expired if nobody was, and each is told just that once |
| RequestLaws.SweepAnswer | apps/requests/services.py:138-174 | rejected exactly when some overdue request has a recent sibling; else the number of overdue requests |
| RequestLaws.SweepEffect | apps/requests/services.py:138-174 | the same by the number of selected for every overdue request, its waiting interests and the notices; every other row and notice is as before |
| RequestLaws.CancelAnswer | apps/requests/services.py:118-132 | which answer, each exactly when |
| RequestLaws.CancelEffect | apps/requests/services.py:118-132 | the cancelled row, and those waiting expired and told of the cancellation once |
| RequestInvariants.RunIsConsistent | apps/requests/services.py:36-174 | every run, rejected saves included: no applied interest under a closed request, one interest per professional, window and expiry as published, nothing announced without a decision; rows only grow and keep their terms |
| RequestInvariants.InterestLeavesAppliedOnce | apps/requests/services.py:14-78 | in every run an interest that left APPLIED never changes again and is announced at most once, never while applied or withdrawn |
| RequestInvariants.SelectSoundIff | apps/requests/services.py:43-59 | a selection keeps the link between status and selected count exactly when it does not overcommit: no recent sibling, or neither first nor last position |
| RequestInvariants.SelectAnnouncesIff | apps/requests/services.py:46-67 | a selection keeps one dispatch per decided interest and one conversation per selected one exactly when no recent sibling rejects its save |
| RequestInvariants.SelectRejectedIff | apps/requests/models.py:78-97 | in a reachable store only a recent sibling rejects the save of a selection |
| RequestInvariants.RunIsSound | apps/requests/services.py:36-174 | in every run that never overcommits: open 0, partially filled between 0 and positions, filled exactly positions, expired 0, cancelled at most positions selected, and nobody left applied in the last three |
| RequestInvariants.RunWithoutRejection | apps/requests/services.py:36-174 | a run without a rejected save keeps the counts, exactly one dispatch per decided interest, and a conversation exactly for the selected ones |
| RequestInvariants.EndingNeverFills | apps/requests/services.py:87-94 | in such runs the FILLED branch of the close and of the sweep is unreachable; an accepting request ends partially filled exactly when it already was |
| RequestCounts.SelectedWithinBounds | apps/requests/services.py:36-174 | in every run, rejected saves included: filled means at least the positions, partially filled somebody, expired nobody; and never more selected than the positions and one for each rejected selection of that request, one less while it accepts |
| RequestJournal.StatusMovesForward | apps/requests/services.py:36-174 | in every run a request only moves open, partially filled, filled or expired, cancelled, never back; one that stopped accepting never accepts again |
| RequestJournal.NoticesAreTrue | apps/requests/services.py:14-20 | in every run a notice names the status the interest has then and ever after, and a cancellation is announced only for a cancelled request |
| RequestJournal.LogIsExact | apps/requests/services.py:36-132 | in every run the log holds each publication, application, withdrawal and cancellation exactly once, and one selection for each conversation |
| RequestSiblings.RunKeepsApart | apps/requests/models.py:78-89 | in every run accepting requests of one client and category were published more than five minutes apart |
| RequestSiblings.BlockedByTheNewest | apps/requests/models.py:78-97 | the only request that can reject a status save is the newest sibling, which is younger and gives way five minutes after its publication |
| RequestSiblings.BlockedIff | apps/requests/models.py:78-97 | in every run a status save of an accepting request is rejected exactly while its newest younger sibling is no older than five minutes |
| RequestSiblings.RejectedSweepGoesThrough | apps/requests/services.py:135-174 | a rejected sweep run again is rejected exactly while a request left is held back so, and never over five minutes later |
| RequestSiblings.OvercommitNeedsNewer | apps/requests/services.py:43-59 | in every run a selection leaves the counts wrong only if the client published a newer request of the category within five minutes |
| RequestOverfill.RejectedSelectionOverfills | apps/requests/services.py:43-56 | a six-step run that ends with a filled request of one position, two selected interests and one dispatch |
| RequestOverfill.BoundIsReached | apps/requests/services.py:43-56 | that run meets the bound: one position, one rejected selection, two selected |
| RequestSweep.SweepIsMap | apps/requests/services.py:138-174 | a sweep goes through exactly when no due request has a recent sibling; then it ends each due request and finalizes its applied interests, touches nothing else, returns how many were due and adds one audit event for each |
| RequestSweep.SweepOrderIrrelevant | apps/requests/services.py:138-143 | the order of the due requests changes neither outcome nor rows |
| RequestSweep.SweepIsRestartable | apps/requests/services.py:143-174 | a sweep cut between two requests or between interests and save, then run again in any order, at once or later: it goes through exactly when no request left is blocked then, and gives the rows of one uninterrupted sweep at its own time, but for the closing time of requests ended for good before the cut |
| RequestSweep.RejectionIsCut | apps/requests/services.py:147-171 | a rejected save leaves such a cut: after the interests of a blocked request, before its save |
| RequestSweep.RejectedAgain | apps/requests/services.py:135-174 | run again at the same instant, in any order, a rejected sweep is rejected again |
| RequestSweep.RejectedSweepResumes | apps/requests/services.py:135-174 | run again later, it goes through exactly when no request left is blocked any more, and makes up for everything |
| RequestSweep.SweepRepeated | apps/requests/services.py:138-174 | a second sweep changes no row and returns the number of due partially filled requests |
| RequestSweep.BlockingUntouched | apps/requests/models.py:78-89 | ending due requests changes no duplicate check, because a due request is older than five minutes |
| SlidingWindow.AdmittedBound | apps/subscriptions/limits.py:18-26 | if each record saw fewer than the limit in the window before it, no window of that width holds more than the limit |
| RequestQuota.FreeQuota | apps/subscriptions/limits.py:10-31 | in every run a client who is never premium has at most five requests published in any closed 30 days, whatever the clock does |
| RequestQuota.FreePublication | apps/subscriptions/limits.py:18-31 | every publication on the free plan ends 30 days with at most five |
| Chat.ChatService.SendMessage | apps/chat/services.py:16-29 | blank, blocked, too many, too long or sent, each exactly when; a message is stored stripped |
| Chat.ChatService.SenderLimit | apps/chat/services.py:23-27 | over all conversations no closed 60 seconds hold more than twenty messages of one sender |
| RateLimit.RateLimiter.Enforce | apps/accounts/ratelimit.py:5-11 | the call as a step on one key; other keys are untouched |
| RateLimit.AcceptedIff | apps/accounts/ratelimit.py:8-11 | a call is accepted exactly when the chain of accepted calls it would join is shorter than the limit |
| RateLimit.ChainLimit | apps/accounts/ratelimit.py:8-11 | no chain of accepted calls with gaps below the window is longer than the limit |
| RateLimit.WindowLimit | apps/accounts/ratelimit.py:5-11 | no half-open window holds more accepted calls than the limit |
| RateLimit.Recovery | apps/accounts/ratelimit.py:8-11 | one window after the last accepted call the next one is accepted, however many were rejected in between |
| RateLimit.NotAFixedWindow | apps/accounts/ratelimit.py:6-11 | for every limit, a steady caller that makes no more than the limit in a window is refused, with fewer than the limit accepted in the window before the refusal |
| PortfolioSafety.StepKeepsInv | internal/professionals/service.go:221-322 | every step of every call keeps the invariant of rows, locks and files |
| PortfolioSafety.RowsAlwaysBacked | internal/professionals/service.go:221-322 | in every interleaving, with any failure, abort or crash: at most twelve committed rows a profile, each with its file of exactly its size |
| PortfolioSafety.QuietDiskIsExact | internal/professionals/service.go:257-321 | without crash or failed removal, whenever no call is in flight the files are exactly those of the committed rows |
| PortfolioOwners.OnlyTheOwnerDeletes | internal/platform/database/sqlc/professionals.sql.go:158-164 | in every run a row disappears only by the commit of a deletion that its owner asked for by its id |
| PortfolioOwners.RowsNeverChange | internal/professionals/service.go:221-322 | in every run a row that stays is the same row |
| PortfolioOwners.OnlyAnUploadAdds | internal/professionals/service.go:221-293 | in every run a row appears only by the commit of an upload of its owner and its size, 1 byte to 5 MiB, with fewer than twelve rows there |
| PortfolioOwners.NothingToDelete | internal/professionals/service.go:295-306 | in every run a deletion finds nothing only when no committed row of that id is the user's |
| PortfolioOwners.RefusedAtTwelve | internal/professionals/service.go:249-255 | in every run an upload is refused for its number exactly when its user has twelve committed rows |
| PortfolioOwners.UploadAlone | internal/professionals/service.go:221-293 | an upload that nothing disturbs adds its row and its file while there are fewer than twelve rows |
| PortfolioOwners.DeleteAlone | internal/professionals/service.go:295-322 | a deletion of the user's own row that nothing disturbs removes the row and its file |
| Clock.ParseFormatted | internal/professionals/service.go:501-513 | a stored clock value formats to five characters that parse back to it |
| Clock.PaddedOrder | internal/professionals/service.go:471-501 | for hours of two digits earlier means smaller as a string |
| Clock.ReadsParses | internal/professionals/service.go:501-508 | an hour of one or two digits below 24 and two digits of minutes below 60 are accepted, as that many microseconds |
| Clock.ParsesReads | internal/professionals/service.go:501-508 | nothing else is |
| Schedule.ValidateSchedule | internal/professionals/service.go:465-488 | accepted exactly when there are at most 21 valid, pairwise disjoint periods and no two of a weekday sort against the clock |
| ProfileForms.NormalizeSkills | internal/professionals/service.go:423-437 | the loop with its map of keys seen gives the normal form: trimmed, nothing blank, no two equal but for case |
| ProfileForms.NormalSkillsAreFirsts | internal/professionals/service.go:423-437 | what it keeps is exactly the first skill of every key, in the order of the form |
| ProfileForms.NormalizedTwice | internal/professionals/service.go:419-439 | normalising a form twice is normalising it once |
| ProfileForms.ValidateForm | internal/professionals/service.go:441-489 | accepted exactly when every field is within its bounds and the schedule is good and sorts with the clock |
| Schedule.AcceptedIff | internal/professionals/service.go:468-487 | the same for any list and any order the sort gives ties |
| Schedule.PaddedAcceptedIff | internal/professionals/service.go:468-487 | with zero-padded starts the scan accepts exactly the valid, pairwise disjoint schedules |
| Schedule.VerdictIgnoresOrder | internal/professionals/service.go:468-487 | neither the order of the input nor ties in the sort change the verdict |
| Schedule.UnpaddedRefused | internal/professionals/service.go:471-485 | a good schedule that is refused |
| ScheduleLaws.AcceptedByInstants | internal/professionals/service.go:468-487 | accepted exactly when no instant of a weekday is covered twice, every period covers one, and no two starts sort as text against the clock |
| ScheduleLaws.AcceptedByNumbers | internal/professionals/service.go:441-489 | the same for the whole form |
| ScheduleLaws.FieldsByNumbers | internal/professionals/service.go:441-464 | every bound of the form, written out |
| ScheduleStore.ProfileStore.UpdateProfile | internal/professionals/service.go:162-219 | the outcome decided by each check in order on the normalised form; an accepted form replaces row and periods, keeps the location when it sends none, and never meets a table constraint; any other outcome changes nothing |
| ScheduleStore.ReadBackIsCanonical | internal/professionals/service.go:408-412 | the profile read back is the weekday and clock sort of the input in HH:MM form |
| ScheduleStore.ResubmissionIsStable | internal/professionals/service.go:196-207 | resubmitting the read-back is accepted, stores the same rows and reads back the same |
| ScheduleStore.ProfileResubmission | internal/professionals/service.go:162-219 | after an accepted update the whole profile that is read back is accepted unchanged and leaves row, location and periods as they are |
| ScheduleLaws.StoredColumns | internal/platform/database/sqlc/professionals.sql.go:447-465 | every column of the row after an update is what was sent, and the location what was sent or what it was |
| ScheduleLaws.ReadBackByTime | internal/professionals/service.go:408-412 | what is read back comes by weekday and time of day |
| ScheduleLaws.ReadBackShows | internal/professionals/service.go:196-207 | it shows the very times that were sent, as many, and no others |
| AccountServices.AccountService.RegisterUser | internal/accounts/service.go:84-123 | refused for a bad password or a taken e-mail; otherwise user, verification token and audit are written together or not at all |
| AccountServices.AccountService.LoginUser | internal/accounts/service.go:134-160 | each refusal in its order without a write; a failure after the token was stored leaves that token behind |
| AccountServices.AccountService.RefreshSession | internal/accounts/service.go:162-191 | a live token of an active, verified user is revoked and replaced by a new one of the same user in one step; otherwise nothing changes |
| AccountServices.AccountService.LogoutUser | internal/accounts/service.go:193-206 | the token ends revoked unless the second statement fails; the audit is written only if the first one revoked it |
| AccountServices.AccountService.RequestReset | internal/accounts/service.go:208-224 | silent and without a write unless the account is active; otherwise older reset tokens are invalidated and one is mailed, with what is left at each failure |
| AccountServices.AccountService.ResendVerificationMail | internal/accounts/service.go:242-252 | silent and without a write unless the account is active and unverified; otherwise older tokens are invalidated and one is mailed |
| AccountServices.AccountService.VerifyUserEmail | internal/accounts/service.go:125-132 | consumes the token, sets the verification time of an active user unless it is set, and audits, or changes nothing |
| AccountServices.AccountService.ResetUserPassword | internal/accounts/service.go:226-240 | consumes the token, sets the password of an active user, revokes every session of that user and audits, or changes nothing |
| AccountServices.AccountService.IssueActionToken | internal/accounts/service.go:332-347 | the two writes of an issue, and what is left when it stops before, between or after them |
| AccountLaws.RegisterAnswer | internal/accounts/service.go:84-123 | which answer, each exactly when, and the rows written |
| AccountLaws.LoginAnswer | internal/accounts/service.go:134-160 | which answer, each exactly when, and the token added, also by a login that fails later |
| AccountLaws.RefreshAnswer | internal/accounts/service.go:162-191 | a session exactly while the token is unrevoked and unexpired and its holder active and verified; which error otherwise |
| AccountLaws.RefreshEffect | internal/accounts/service.go:162-191 | the token is revoked and one of the same user added for 30 days; no session, no change |
| AccountLaws.RefreshTokenWorks | internal/platform/database/sqlc/accounts.sql.go:37-43 | in every run a token given out at time t is exchanged at any time before t + 30 days, while unrevoked and its holder active and verified |
| AccountLaws.LogoutAnswer | internal/accounts/service.go:193-206 | revokes the token whatever its age unless the revoking statement fails |
| AccountLaws.RequestResetAnswer | internal/accounts/service.go:208-224 | which answer, each exactly when; a token for 30 minutes, older ones used up |
| AccountLaws.ResendAnswer | internal/accounts/service.go:242-252 | which answer, each exactly when; a token for a day, older ones used up |
| AccountLaws.VerifyAnswer | internal/accounts/service.go:125-132 | goes through exactly with a live verification token of an active account; the first verification time stays |
| AccountLaws.ResetAnswer | internal/accounts/service.go:226-240 | goes through exactly with a fitting password and a live reset token |
| AccountLaws.ResetEffect | internal/accounts/service.go:231-239 | the password of an active account, the token, and every unrevoked session of the user; nothing else |
| AccountLaws.ActionTokenWorks | internal/platform/database/sqlc/accounts.sql.go:15-22 | in every run a mailed token works for its 30 minutes or its day, as long as it is unused |
| AccountRuns.RunWritesOnce | internal/platform/database/sqlc/accounts.sql.go:15-237 | revoked_at, used_at and email_verified_at are written at most once in any run, and no token row disappears or changes owner |
| AccountRuns.AcceptedAtMostOnce | internal/accounts/service.go:172-183 | in any run a refresh token is accepted at most once, live and before it expires |
| AccountRuns.RunKeepsChains | internal/accounts/service.go:162-191 | every refresh token has at most one successor, of the same user, and only after it was revoked |
| AccountRuns.ChainIsALine | internal/accounts/service.go:162-191 | of two tokens that go back to one login the newer descends from the older |
| AccountRuns.OnlyNewestIsLive | internal/accounts/service.go:162-191 | in every reachable state only the newest token of a login can be unrevoked |
| AccountRuns.RunKeepsVerifiedHolders | internal/accounts/service.go:146-151 | only users with a verified e-mail ever hold a refresh token |
| AccountRuns.ResetEndsSessions | internal/accounts/service.go:231-239 | after a reset no refresh token issued to that user before is ever accepted again |
| AccountRuns.LiveSessionsComeAfterReset | internal/accounts/service.go:231-239 | every session live after a reset goes back to a login made after it |
| AccountRuns.RunKeepsOneUnused | internal/accounts/service.go:332-347 | in every reachable state each user and purpose has at most one unused action token |
| AccountRuns.CreateKeepsOneIff | internal/platform/database/sqlc/accounts.sql.go:53-73 | creating a token keeps that exactly when none of the user and purpose is unused |
| AccountRuns.UnusedAfterWrites | internal/accounts/service.go:332-347 | whatever the order in which the statements of any number of issues run, what stays unused is what was created after the last invalidation |
| AccountRuns.InterleavedIssuesLeaveTwo | internal/accounts/service.go:332-347 | on any table, for any user and purpose, two issues that both invalidate before either creates leave two unused tokens |
| AccountRuns.ConsumedAtMostOnce | internal/accounts/service.go:349-373 | an action token is consumed at most once, for its own purpose and before it expires |
| AccountTrail.PasswordComesFrom | internal/accounts/service.go:226-240 | in every run a user's password is the one that the last registration or reset of that user set |
| AccountTrail.LoginIff | internal/accounts/service.go:134-160 | an account logs in exactly with the password set last, while it is active and verified |
| AccountTrail.VerificationComesFrom | internal/accounts/service.go:125-132 | an e-mail is verified only by consuming a verification token issued to that user, and keeps the time of that call |
| AccountTrail.SessionComesFrom | internal/accounts/service.go:134-191 | only users who consumed such a token ever hold a refresh token |
| SessionSafety.StepKeepsInv | internal/accounts/service.go:134-240 | every statement, commit and failure of overlapping logins, refreshes and resets keeps the invariant of tokens, locks and open transactions |
| SessionReset.SuccessorsAreUnique | internal/platform/database/sqlc/accounts.sql.go:37-43 | in every interleaving a refresh token has at most one successor, and is revoked once it has one |
| SessionReset.SurvivesIff | internal/platform/database/sqlc/accounts.sql.go:222-225 | a live token survives the commit of a reset exactly when it was committed after the revoking statement started |
| SessionReset.ResetEndsOldSessionsIff | internal/accounts/service.go:226-240 | a reset ends all older sessions of its user, however the run goes on, exactly when at its commit every live token was committed before the revoking statement and no login of the user is between check and insertion |
| SessionReset.SessionsAreHonest | internal/accounts/service.go:134-191 | in every interleaving a session goes back to a step at which its user was active and verified and had the password that was given |
| SessionLaws.MailUsedOnce | internal/platform/database/sqlc/accounts.sql.go:15-22 | in every interleaving at most one reset commits on one mailed token |
| SessionLaws.LoginAlone | internal/accounts/service.go:134-160 | a login with the right password that nothing disturbs adds one live token |
| SessionLaws.RefreshAlone | internal/accounts/service.go:162-191 | a refresh of a live token that nothing disturbs exchanges it for one of the same login |
| SessionLaws.ResetAlone | internal/accounts/service.go:226-240 | a reset that nothing disturbs revokes every live token of the user and no other, uses up the mail, sets the password |
| SessionOverlap.OldSessionSurvives | internal/accounts/service.go:162-240 | a run in which a refresh commits during a reset and a session with the old password stays live |
| Listings.ListingIsUnique | internal/platform/database/sqlc/professionals.sql.go:374 | an ORDER BY that separates all rows has one answer |
| Search.OffsetNeverWraps | internal/professionals/service.go:337 | the int32 offset of a validated search is the mathematical one |
| Search.SearchProfessionals | internal/professionals/service.go:324-369 | invalid input and an inactive category are refused; otherwise the slice of a ranking, the total and the page count |
| Search.PagesMakeTheRanking | internal/professionals/service.go:324-369 | on one snapshot the pages put together are the ranking, each match exactly once |
| Search.PageNonEmptyIff | internal/professionals/service.go:364-367 | a page has items exactly when it is at most the page count |
| Search.EveryMatchReachableIff | internal/professionals/service.go:491-499 | the pages one may ask for reach every match exactly when the total is at most 100000 pages |
| SearchLaws.SearchableIff | internal/professionals/service.go:491-499 | every bound of a search, written out |
| SearchLaws.AnswerInOrder | internal/platform/database/sqlc/professionals.sql.go:352-376 | everyone listed is active, verified, of the category and within both radii; nearer first as rounded to a tenth of a kilometre, within 50 metres, then updated last, then the smaller id |
| SearchLaws.PagesInOrder | internal/platform/database/sqlc/professionals.sql.go:352-376 | put together, the pages hold everyone who is found, once, in that order |
| SearchLaws.PagesAreFull | internal/professionals/service.go:364-368 | every page but the last is full, the last holds the rest |
| Boosts.BoostIsStablePartition | apps/professionals/views.py:105-128 | with distinct keys the boosted ranking is the plain one with the boosted moved to the front, order kept in each group |
| Boosts.BoostOnlyReorders | apps/professionals/views.py:112-128 | even with ties only compatible professionals appear, boosted first, nearest first in each group |
| Boosts.FlagOffIsPlain | apps/professionals/views.py:116-121 | with the flag off the ranking is the plain one |
| Boosts.RankedMembers | apps/professionals/views.py:105-110 | listed are exactly those with a location, of the category if one is asked for, each once |
| Boosts.RankedInOrder | apps/professionals/views.py:116-128 | active boosts first; then nearest first, or newest first without a point |
| Base64.DecodeEncoded | internal/accounts/password.go:42-66 | unpadded base64 decodes what it encoded |
| Base64.SymbolsAreTheAlphabet | internal/accounts/password.go:42 | the alphabet of section 4 of RFC 4648 |
| Base64.BitsInOrder | internal/accounts/password.go:42 | three bytes are four groups of six bits, highest first |
| Base64.DecodesIff | internal/accounts/password.go:62-69 | what decodes, and to how many bytes |
| Decimal.ScanPrinted | internal/accounts/password.go:40-56 | a printed number scans back, up to the first character that is no digit |
| Password.SplitJoined | internal/accounts/password.go:46 | splitting at the separator undoes joining |
| Password.ParsePrinted | internal/accounts/password.go:40-69 | every encoding parses back to version, parameters, salt and hash |
| Password.HashComparesByKey | internal/accounts/password.go:30-72 | a hash is made exactly for 12 to 128 bytes; it accepts exactly the candidates with the same derived key and never makes the check panic |
| Password.HashReads | internal/accounts/password.go:30-44 | the text of a hash, for 12 to 128 bytes |
| Password.CompareMatchesIff | internal/accounts/password.go:46-72 | exactly what a printed encoding must be, and derive to, for a candidate to be accepted |
| Password.ParsedShape | internal/accounts/password.go:46-69 | what parses has six parts, the name, and two that decode |
| Password.CompareCrashesIff | internal/accounts/password.go:46-72 | among printed encodings exactly those within the bounds with no iteration or no lane make the check panic |
| Password.NoLanesCrash | internal/accounts/password.go:53-71 | one of them, with every other field as hashPassword prints it |

## Left out

- Handlers, forms, templates, admin screens, mail, push, payments and backups.
- Who may call an operation: the ownership checks of the Django views and the JWT access tokens.
- Statuses DRAFT, COMPLETED and SHORTLISTED are in the types but no call reaches them.
- The notice of a new request to compatible professionals, and the channels a dispatch goes through.
- The order in which dispatches of one bulk update go out: they are a multiset.
- RequestServices.RequestService.PublishRequest: the location and the free-text requirements are not carried, and a budget is a whole number of cents.
- Chat.ChatService.SendMessage: who is a party of the conversation is decided by the caller, as in the source.
- The default subscription row that the quota check creates; whether a client is premium is an input of each publication.
- ScheduleStore.ProfileStore.UpdateProfile: a failure of the read-back after the commit is not modelled.
- Coordinates that are not numbers: Go's comparisons let NaN pass, the reals of the model have none.
- Upload paths, file names and media types.
- The sort order and cover of portfolio items.
- PostGIS: distances are given per row; coordinates are checked for range and never measured.
- Password.HashComparesByKey: the number scanner does not skip blanks before a number, and the key derivation is a parameter.
- Reads that fail: a failed query before a write answers with an error and changes nothing, and is not told apart from the failures above; the view loaded after a registration commits is not modelled.
- Locks on user rows, and refresh expiry as a clock, in `Sessions`: leaving them out only allows more interleavings.
- User status changes by moderation are one step of the account runs; the moderation module itself is not modelled.
