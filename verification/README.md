# Deposit portal and guard walk: verified models

Dafny models of the concurrent parts of a deposit portal (refresh-token rotation, deposits across a bucket and a
database, public links and what the dashboard shows of them, a data-loading hook, a download header) and of an
in-place grid simulation, with proofs about every run, every interleaving and every input. `dafny verify
dfyconfig.toml` checks the whole project.

Each protocol is a step machine: an `Event` is one step between two awaits, `Enabled` and `Apply` say when it may
happen and what it does, and `Runs` and `Exec` follow any sequence of events, hence any interleaving of any number of
calls. Beside each machine a class holds the real tables and its methods are proved against the same functions the
machine uses; a lemma (`UndisturbedRun`, `UndisturbedDeposit`, `UndisturbedRegeneration`) shows that a call nothing
disturbs is the same thing in both worlds.

| files | what they model |
|---|---|
| `RefreshTokens`, `RefreshTokenProofs`, `RefreshTokenService` | rotation of refresh tokens with reuse detection (section 4.14.2 of RFC 9700), and the controller's cookies |
| `SharedJar`, `SharedJarProofs`, `SharedJarStranded`, `SharedJarLimit`, `SharedJarKept` | honest tabs that share one cookie jar, against that whole server |
| `GuardWalk`, `GuardGrid` | the walk of the guard, and the program that draws it in place |
| `Deposits`, `DepositProofs`, `DepositOrphans`, `DepositCounts`, `DepositService` | a deposit across two stores |
| `StorageKeys`, `ObjectStorage`, `RequestErasure` | object keys, deletion by prefix, and both with the deposits |
| `PublicLinks`, `PublicLinkProofs`, `Dashboard`, `LastLink` | public links, the client session guard, the dashboard and the link it picks |
| `LatestAnswer` | the generation counter of the data-loading hook |
| `Disposition` | the file name of a Content-Disposition header, written and read back |

## What the proofs found

- The guard program prints one too many exactly when the guard walks out from a cell it had already left
  (`PrintedAgainstVisited`, with a grid in `PrintsOneTooMany`).
- Honest tabs are never answered `reused` exactly when every exchange is delivered in under fifteen seconds and no
  error is thrown once a rotation has committed (`HalfTheWindowIsExact`). `renewSession` reads the account and signs an
  access token after the commit (`auth.service.ts:109-118`). If either throws, the answer is lost and the presented
  token is already revoked: no tab ever rotates again (`OneLostAnswerEndsTheSession`), and one that refreshes after
  the race window may be answered `reused` (`LeftWithAReplacedToken`). The comment at `refresh-token.service.ts:92-95` means
  to spare the session exactly such a hiccup, for the one INSERT inside the transaction.
- Two overlapping first deposits may count their request twice (`OverlappingDepositsMayCountTwice`). As long as no
  process dies and no count query fails, the write that completes a request leads to exactly one count if and only if
  no other call of the request is then about to count or holds a first-file write that can still go through
  (`CompletionCountsOnceIff`); whatever fails, a completed request ends uncounted exactly when every such count is lost
  (`EndsUncountedIff`).
- The comment at `deposits.service.ts:118-120` assumes that only a piece that had nothing can complete a request. A
  piece whose file is not `complete` has a row, so completing a request by replacing it is never counted
  (`CompletionIsCountedIffFirstFile`, `ReplacingAFailedFileIsNotCounted`). Nothing in the backend writes another status
  yet: `schema.prisma:180-187` keeps `failed` for a later scan of the files, and only end-to-end tests set it.
- Two replacements that both find the same object leave the first successor in the bucket with no row, though
  nothing fails (`OverlappingReplacementsLeaveAnOrphan`); orphans are exactly what was given up in this way, by a
  crash or by an unconfirmed deletion, and not erased since (`OrphansAreWhatWasLeft`).
- `LAST_LINK` need not pick the last link issued. It may exactly when that link is unrevoked or no link revoked at the
  same instant was created later (`LastIssuedMayBePickedIff`). It fails when a regeneration overtakes another and the
  links of both are revoked at one instant (`TheLastIssuedMayBePassedOver`); one operation at a time, only links with
  the same two dates can be confused (`LastLinkIsTheLastIssued`, `TheOrderCanTie`).
- A cleanup leaves `loading` as it was, so a hook cleaned up while loading shows loading until a later call answers
  (`LoadingUntilHeard`).
- An empty file name comes back as `piece` (`NameSurvivesTheHeader`); and although the comment at
  `requests.controller.ts:81-84` invokes RFC 5987, a name with an asterisk, an apostrophe or a parenthesis gives a
  value outside its grammar, which the client nevertheless reads back exactly (`GrammaticalIffNoneOfTheFour`).

## Model

| member | source | states |
|---|---|---|
| RefreshTokenProofs.AtMostOneLiveRow | exo2-portail-depot/backend/src/auth/refresh-token.service.ts:62-123 | in every state that any interleaving of issues, rotations, logouts and purges reaches, a family has at most one unrevoked row |
| RefreshTokenProofs.OneRowPerRotation | exo2-portail-depot/backend/src/auth/refresh-token.service.ts:96-111 | in every such state a family that still has rows has exactly one for its login and one for each rotation answered in it |
| RefreshTokenProofs.DeadForEver | exo2-portail-depot/backend/src/auth/refresh-token.service.ts:96-115 | from any reachable state, once a family has no unrevoked row, no run gives it one or answers a rotation in it, claims already past their check included |
| RefreshTokenProofs.WhatKills | exo2-portail-depot/backend/src/auth/refresh-token.service.ts:72-80 | the revocation after a reuse or a logout leaves its family dead, and a purge that takes one row of a family takes all of them |
| RefreshTokenProofs.PurgeIsAllOrNothing | exo2-portail-depot/backend/src/auth/refresh-token.service.ts:141-145 | purgeExpired deletes a family whole, exactly when it is that lawyer's and its ceiling is strictly past, and leaves every other row as it was |
| RefreshTokenProofs.UnknownOnlyOnceForgotten | exo2-portail-depot/backend/src/auth/refresh-token.service.ts:68-70 | a token once issued is answered 'unknown' only when no row of its family is left |
| RefreshTokenProofs.EveryRotationWasInTime | exo2-portail-depot/backend/src/auth/refresh-token.service.ts:82-90 | the k-th rotation of a family replaced its (k-1)-th token, no token being replaced twice, and passed its check strictly before issue plus SESSION_EXPIRES and strictly before the previous append plus SESSION_IDLE_EXPIRES |
| RefreshTokenProofs.ClosedForEver | exo2-portail-depot/backend/src/auth/refresh-token.service.ts:147-176 | a family unused for the idle span, or past its ceiling, with no claim of its current token pending, never rotates again in any run |
| RefreshTokenProofs.StepKeepsInv | exo2-portail-depot/backend/src/auth/refresh-token.service.ts:47-183 | every step of every call keeps the invariant that ties rows, snapshots held by calls in flight and the history of each family |
| RefreshTokenProofs.ClaimIsOfTip | exo2-portail-depot/backend/src/auth/refresh-token.service.ts:96-111 | a claim that finds its row unrevoked is of the family's last token, whatever its snapshot's age |
| RefreshTokenService.WhatACallAnswers | exo2-portail-depot/backend/src/auth/refresh-token.service.ts:62-123 | in every reachable state, which of the five answers a call that nothing interleaves with gives to a token once issued: unknown iff its family is gone, rotated iff live and before both deadlines, expired iff live and not, raced iff revoked under 30 s ago, reused iff revoked longer ago |
| RefreshTokenService.UndisturbedRun | exo2-portail-depot/backend/src/auth/refresh-token.service.ts:62-123 | the steps of an undisturbed rotate, run in the step machine, give the table and the one answer the method of the class is proved to give |
| RefreshTokenService.Service.Issue | exo2-portail-depot/backend/src/auth/refresh-token.service.ts:47-53 | one row of the new family is added, both deadlines dated from now |
| RefreshTokenService.Service.Decide | exo2-portail-depot/backend/src/auth/refresh-token.service.ts:62-90 | the decision on a row read earlier, which may since be outdated, is the one the step machine takes |
| RefreshTokenService.Service.ClaimAndAppend | exo2-portail-depot/backend/src/auth/refresh-token.service.ts:96-111 | claimed iff the presented row is still unrevoked; then it is dated and a successor with the same lawyer, family and ceiling is added; otherwise the table is untouched |
| RefreshTokenService.Service.Rotate | exo2-portail-depot/backend/src/auth/refresh-token.service.ts:62-123 | table and answer after a rotation that nothing interleaves with |
| RefreshTokenService.Service.RevokeFamilyOf | exo2-portail-depot/backend/src/auth/refresh-token.service.ts:126-133 | row by row: the unrevoked rows of the token's family are dated now, every other row is as it was, and an unknown token changes nothing |
| RefreshTokenService.UndisturbedLogout | exo2-portail-depot/backend/src/auth/refresh-token.service.ts:126-133 | the steps of an undisturbed logout, in the step machine, do to the table what the method does, row by row, and answer nothing |
| RefreshTokenService.Service.PurgeExpired | exo2-portail-depot/backend/src/auth/refresh-token.service.ts:141-145 | a row survives, unchanged, unless it is the lawyer's and its ceiling is strictly past; hence of rows that share family, lawyer and ceiling all go or none |
| RefreshTokenService.AuthController.Refresh | exo2-portail-depot/backend/src/auth/auth.controller.ts:88-112 | row by row of the table before the call: a token revoked less than 30 s ago leaves both cookies and the table as they were; one unknown, past a deadline or revoked longer ago drops both cookies; a usable one sets both, the refresh cookie until the ceiling of its session, unless what follows the rotation finds no account, which drops both, or throws, which leaves both; the rotation stays committed |
| RefreshTokenService.AuthController.Login | exo2-portail-depot/backend/src/auth/auth.service.ts:86-97 | a login purges, then opens a chain, and sets both cookies, the refresh cookie for the whole session |
| RefreshTokenService.AuthController.Logout | exo2-portail-depot/backend/src/auth/auth.controller.ts:122-131 | both cookies are always cleared; the family of a known token is revoked and nothing else is touched |
| SharedJarLimit.HalfTheWindowIsExact | exo2-portail-depot/backend/src/auth/refresh-token.service.ts:27 | for one login and any number of honest tabs sharing a jar, no run ever answers 'reused' if and only if every exchange is delivered within half of RACE_WINDOW_MS and no error is thrown between a rotation that has committed and its answer |
| SharedJarLimit.HonestTabs | exo2-portail-depot/backend/src/auth/auth.controller.ts:97-111 | with such a bound, and no error thrown once a rotation has committed, no run answers 'reused', and the jar never goes back to a token already replaced; a missing account changes nothing to this |
| SharedJarKept.TabsStayLoggedIn | exo2-portail-depot/backend/src/auth/auth.controller.ts:99-106 | with such a bound, no lost answer, the account in place, the cookie not dropped and each row weighed before its deadlines, no run of any number of tabs ever empties the jar |
| SharedJarStranded.OneLostAnswerEndsTheSession | exo2-portail-depot/backend/src/auth/auth.service.ts:103-122 | after any login and any such run, one rotation committed and answered with an error or without an account leaves no tab a rotation ever again, whatever anybody does |
| SharedJarStranded.StrandedForEver | exo2-portail-depot/backend/src/auth/auth.service.ts:103-122 | once neither the jar nor an exchange holds the last token or is about to be given it, no run rotates for a tab |
| SharedJarStranded.LeftWithAReplacedToken | exo2-portail-depot/backend/src/auth/refresh-token.service.ts:72-80 | with no exchange in flight and a replaced token left in the jar, as after a lost answer, the next tab to refresh may be answered 'reused' once the race window is over, however fast exchanges are: such a run exists as long as the family has not been purged |
| SharedJarProofs.ActKeepsJarInv | exo2-portail-depot/backend/src/auth/auth.controller.ts:88-112 | every act of a tab, of the server for a tab, a missing account included, and of anybody else, but an error thrown once a rotation has committed, keeps the invariant that at most one successful answer is undelivered and that nobody else can hold what it carries |
| SharedJarProofs.NeverWeighedAsReuse | exo2-portail-depot/backend/src/auth/refresh-token.service.ts:72-80 | a token presented in time is never weighed as a reuse |
| SharedJarProofs.ActMovesJarForward | exo2-portail-depot/backend/src/auth/auth.controller.ts:104-110 | an act leaves the jar, empties it, or puts there a token nothing has replaced |
| GuardWalk.HaltsIffNeverRepeats | exo1-no-ai/advent-of-code/solution.py:89-97 | the walk of the loop halts if and only if no (row, column, direction) comes back |
| GuardWalk.HaltsWithinPoses | exo1-no-ai/advent-of-code/solution.py:89-97 | it halts if and only if it halts within 4 * R * C iterations |
| GuardWalk.EveryIterationTurnsOrMoves | exo1-no-ai/advent-of-code/solution.py:90-97 | every iteration but the last turns a quarter to the right before a wall or moves one cell straight ahead onto a free cell |
| GuardWalk.EndsExactlyFacingOut | exo1-no-ai/advent-of-code/solution.py:94-95 | the walk ends after an iteration exactly when the guard stands at the edge and faces out of the board, a wall never ending it |
| GuardWalk.PrintedAgainstVisited | exo1-no-ai/advent-of-code/solution.py:98 | the number printed is the number of cells visited exactly when the exit cell was not left before, and one too many otherwise |
| GuardWalk.PrintsOneTooMany | exo1-no-ai/advent-of-code/solution.py:98 | a four by four grid on which six cells are visited and seven printed |
| GuardGrid.Solve | exo1-no-ai/advent-of-code/solution.py:77-100 | on any rectangular grid: an error iff it has no cell, 1 and an untouched grid without a guard, otherwise silence iff the walk never halts, and else the cells left plus one, with the grid a picture of the walk whose glyph stands at the edge and points out of it |
| GuardGrid.Patrol | exo1-no-ai/advent-of-code/solution.py:89-98 | at each loop head the grid and the list represent the pure walk; the loop breaks iff the walk ends |
| GuardGrid.Iterate | exo1-no-ai/advent-of-code/solution.py:90-97 | one iteration on the grid is one step of the walk, and breaks exactly where the guard faces out of the grid: walls untouched, one glyph at (i, j) telling the direction, X on the cells left but the current one, the list their set without duplicates |
| GuardGrid.MoveForward | exo1-no-ai/advent-of-code/solution.py:40-65 | cell by cell what a move does to the grid, the position and the list, and that it does nothing before a wall or the edge |
| GuardGrid.Rotate | exo1-no-ai/advent-of-code/solution.py:67-75 | the glyph turns right and no other cell changes |
| GuardGrid.FindObstacles | exo1-no-ai/advent-of-code/solution.py:12-26 | true iff the cell ahead of the glyph is a wall of the grid, never outside it |
| GuardGrid.GetStart | exo1-no-ai/advent-of-code/solution.py:5-10 | the first ^ in reading order, and (-1, -1) iff there is none |
| GuardGrid.IsOutOfBounds | exo1-no-ai/advent-of-code/solution.py:28-34 | rows and columns are last valid indices |
| GuardGrid.UpdateDistinctElementsList | exo1-no-ai/advent-of-code/solution.py:36-38 | as a set the list gains (i, j) and nothing else, it stays as long iff it had it, what it held stays in place, and it is without duplicates if it was |
| GuardGrid.ListIsAsLongAsItsSet | exo1-no-ai/advent-of-code/solution.py:83-98 | a list without duplicates is as long as the set of its cells |
| DepositProofs.EveryRowNamesAnObject | exo2-portail-depot/backend/src/public/deposits.service.ts:92-127 | under any number of overlapping deposits, each step of which may fail, every file row at every moment names an object in the bucket |
| DepositProofs.StepKeepsInv | exo2-portail-depot/backend/src/public/deposits.service.ts:83-230 | every step keeps the invariant: rows name objects, a key is recorded at most once, what a call will erase no row names |
| DepositOrphans.EveryObjectIsAccountedFor | exo2-portail-depot/backend/src/public/deposits.service.ts:83-230 | in every interleaving, at every moment, an object is named by a row, held by a call, or was given up by a step: an unconfirmed deletion, a crash, or a write over a key its call had not seen; what was given up is neither named nor about to be |
| DepositOrphans.OrphansAreWhatWasLeft | exo2-portail-depot/backend/src/public/deposits.service.ts:215-230 | once all calls have ended, after a run with any failures, the orphans are exactly the objects some step gave up and no later confirmed deletion of a call that had found them erased; so the bucket is what the rows name iff each was erased |
| DepositOrphans.NothingLostNothingLeft | exo2-portail-depot/backend/src/public/deposits.service.ts:168-230 | when no two deposits overlap on one piece, whatever overlaps on others, no process dies and deletions are confirmed, the bucket's keys are exactly the keys rows name once all calls have ended |
| DepositOrphans.OverlappingReplacementsLeaveAnOrphan | exo2-portail-depot/backend/src/public/deposits.service.ts:92-127 | a run of two replacements that both find the same object and leave the first successor orphaned, though nothing fails |
| DepositCounts.CountedAtLeastOnce | exo2-portail-depot/backend/src/public/deposits.service.ts:138-162 | when no process dies and no count query fails, a request with something missing, once all is received and all calls have ended, was counted in every interleaving |
| DepositCounts.CompletionCountsOnceIff | exo2-portail-depot/backend/src/public/deposits.service.ts:116-123 | in any interleaving, the write that completes a request whose files are all complete leads to exactly one count in every run on which no process dies and no count query fails, if and only if no other call of that request is then to count or holds a first-file write that can still go through |
| DepositCounts.CountIsSettledIff | exo2-portail-depot/backend/src/public/deposits.service.ts:138-162 | once a request is complete, every run that ends with no process dead and no count query failed leaves its counter at n iff n is what is counted plus the calls on their way to count, and no call that found its piece empty can still write |
| DepositCounts.RunOwes | exo2-portail-depot/backend/src/public/deposits.service.ts:116-162 | in every run from there, whatever fails, what is counted or about to be, plus what failed queries and dead processes lost, is what it was plus the first-file writes that went through |
| DepositCounts.EndsUncountedIff | exo2-portail-depot/backend/src/public/deposits.service.ts:138-162 | whatever fails, a run that ends leaves a completed request uncounted iff it loses every count: those pending at the completing write and those of later first-file writes |
| DepositCounts.CountedExactlyOnce | exo2-portail-depot/backend/src/public/deposits.service.ts:116-123 | when no process dies and no count query fails, a request is counted exactly once when completed, and not before, as long as no two deposits that find a piece of it empty overlap; replacements, other requests and failed deletions are free |
| DepositCounts.ReplacementNeverCounts | exo2-portail-depot/backend/src/public/deposits.service.ts:116-123 | no call that found a file to replace ever reaches the count |
| DepositCounts.OverlappingDepositsMayCountTwice | exo2-portail-depot/backend/src/public/deposits.service.ts:138-162 | a run of two overlapping first deposits that counts the request twice |
| DepositService.CompletionIsCountedIffFirstFile | exo2-portail-depot/backend/src/public/deposits.service.ts:116-123 | a deposit with nothing around it that completes its request is counted iff its piece had no file row of any status |
| DepositService.ReplacingAFailedFileIsNotCounted | exo2-portail-depot/backend/src/public/deposits.service.ts:116-123 | for every request whose other pieces are received, replacing the one file that is not complete completes it and counts nothing |
| DepositService.UndisturbedDeposit | exo2-portail-depot/backend/src/public/deposits.service.ts:83-136 | the steps of an undisturbed deposit do to both stores what the method of the class is proved to do, and answer what it replies |
| DepositProofs.OnlyLateInsertsAreRefused | exo2-portail-depot/backend/src/public/deposits.service.ts:164-213 | in every interleaving a write goes through unless it would insert where another deposit has inserted since, and then the depositor is answered a conflict and the rows are as they were |
| DepositProofs.QuietStepsWriteNothing | exo2-portail-depot/backend/src/public/deposits.service.ts:83-230 | what fails, reads or dies writes to neither store, counts nothing and touches no other call |
| DepositService.Service.Deposit | exo2-portail-depot/backend/src/public/deposits.service.ts:83-136 | reply by reply, from the pieces, the bytes and the failures: not found iff the piece is not of that request, unsupported iff it is and the bytes are refused, an error iff the put or else the upsert fails, accepted iff nothing does; and for each reply which objects, rows and counts there are |
| DepositService.Service.Record | exo2-portail-depot/backend/src/public/deposits.service.ts:168-213 | the row is written iff the unique index lets it; otherwise the rows are untouched, the new object is erased, and only an insertion that met the index is a conflict |
| DepositService.Service.CountIfCompleted | exo2-portail-depot/backend/src/public/deposits.service.ts:147-162 | one more iff every piece has a complete file and the query answers |
| DepositService.Service.Forget | exo2-portail-depot/backend/src/public/deposits.service.ts:221-230 | an object stays iff it was there and is another, or the deletion failed; so rows that name other objects still name something |
| ObjectStorage.Storage.DeleteByPrefix | exo2-portail-depot/backend/src/storage/storage.service.ts:135-192 | returns normally exactly when the prefix is not empty and no page asked for fails, then every key under the prefix is gone and the number is theirs if the bucket lists what it deletes; otherwise the pages before the first failure are gone, and of that page exactly what was not refused; no key outside the prefix ever goes |
| ObjectStorage.PagesAreAskedFor | exo2-portail-depot/backend/src/storage/storage.service.ts:145-189 | a page is asked for iff it is the first or has keys: one page for none, and one for each thousand begun |
| ObjectStorage.Storage.DeleteObject | exo2-portail-depot/backend/src/storage/storage.service.ts:121-129 | that key is gone, every other stays, and so does their order; the empty key is refused |
| ObjectStorage.PageListed | exo2-portail-depot/backend/src/storage/storage.service.ts:146-157 | while what is left lies after the continuation token, a page is the front of it and the next token precedes the rest |
| ObjectStorage.PageDeleted | exo2-portail-depot/backend/src/storage/storage.service.ts:159-183 | deleting a page takes it off the front of what is under the prefix and moves nothing else |
| StorageKeys.SafeNameIsSafe | exo2-portail-depot/backend/src/crypto/secrets.ts:83-96 | whatever the name, the part that enters the key is non-empty, at most 100 plain characters, without two dots in a row, not led by a dot or a dash |
| StorageKeys.SafeNamesAreKept | exo2-portail-depot/backend/src/crypto/secrets.ts:83-96 | an ASCII name is kept as it is if and only if it is already safe |
| StorageKeys.WhatSurvives | exo2-portail-depot/backend/src/crypto/secrets.ts:83-96 | which units of any name survive, and in what order: from the first told neither as a dot nor as a dash, all but dots that a dot follows, the first hundred, each letter, digit, dot, dash and underscore as itself and anything else as a dash; file iff there is none |
| StorageKeys.FiveSegments | exo2-portail-depot/backend/src/crypto/secrets.ts:98 | with slash-free ids a key has exactly its five segments, the last one non-empty, not hidden and free of dot-dot |
| StorageKeys.PrefixCatchesItsOwn | exo2-portail-depot/backend/src/crypto/secrets.ts:73-77 | a request's prefix is a prefix of a key if and only if the key is of that request |
| StorageKeys.KeysNameTheirPiece | exo2-portail-depot/backend/src/crypto/secrets.ts:98 | equal keys are of the same request, piece, draw and safe name |
| RequestErasure.EraseRequest | exo2-portail-depot/backend/src/storage/storage.service.ts:131-192 | deletion by a request's prefix, called on a listing of the bucket of any run of failing, overlapping deposits: a normal return leaves exactly the objects of the other requests; even a failure leaves all of those, and their rows still name objects |
| RequestErasure.ErasureTakesOneRequest | exo2-portail-depot/backend/src/crypto/secrets.ts:73-77 | what is left when nothing under a request's prefix is and nothing else moved is exactly the other requests' objects, orphans included |
| PublicLinkProofs.LinkSafety | exo2-portail-depot/backend/src/requests/public-links.service.ts:121-192 | in every run of interleaved creations, regenerations and revocations each request has a link, at most one unrevoked, and no two links share a token |
| PublicLinkProofs.ConflictChangesNothing | exo2-portail-depot/backend/src/requests/public-links.service.ts:155-165 | a regeneration leaves the links unchanged if and only if its insertion meets an unrevoked link it had not seen |
| PublicLinkProofs.CommitReplaces | exo2-portail-depot/backend/src/requests/public-links.service.ts:141-154 | one that goes through leaves its own link, and no other of the request, active |
| PublicLinkProofs.RunGrows | exo2-portail-depot/backend/src/requests/public-links.service.ts:142-145 | over any run no link is lost or altered but for revokedAt, written at most once |
| PublicLinkProofs.RefusedTokenStaysRefused | exo2-portail-depot/backend/src/requests/public-links.service.ts:71-78 | a token refused as revoked or expired is refused at every later moment of every run |
| PublicLinkProofs.RefusedSessionStaysRefused | exo2-portail-depot/backend/src/public/client-session.guard.ts:50-64 | so is a client session |
| PublicLinkProofs.GuardAgreesWithResolution | exo2-portail-depot/backend/src/public/client-session.guard.ts:50-73 | the guard lets a session in, with its link's own request and deadline, exactly when the link's token would resolve to ok |
| PublicLinkProofs.ResolvesExactly | exo2-portail-depot/backend/src/requests/public-links.service.ts:51-89 | revoked iff dated, whatever the deadline; else ok up to and at the deadline and expired strictly after it |
| PublicLinkProofs.CreatedLinkWorksForItsDays | exo2-portail-depot/backend/src/requests/requests.service.ts:87-105 | in every run, from its creation until it is revoked, a request's first link resolves to ok up to its days times 86 400 000 ms after the clock it was created at, and to expired afterwards |
| PublicLinkProofs.RegeneratedLinkWorksForItsDays | exo2-portail-depot/backend/src/requests/public-links.service.ts:135-154 | so does a regenerated link from the clock its call read, however long the call waits and whatever runs meanwhile; what it replaces is dated at that instant |
| PublicLinkProofs.CommitJudgesByItsBeginning | exo2-portail-depot/backend/src/requests/public-links.service.ts:141-165 | an insertion is refused iff the request has an unrevoked link that was not there, unrevoked, when its transaction began; else the link is dated from that beginning |
| PublicLinkProofs.StrangersChangeNothing | exo2-portail-depot/backend/src/requests/public-links.service.ts:97-110 | no lawyer but the request's gets a regeneration or a revocation under way |
| PublicLinkProofs.UndisturbedRevocation | exo2-portail-depot/backend/src/requests/public-links.service.ts:185-192 | the steps of an undisturbed revocation date the active links of the request now, link by link, and touch nothing else |
| PublicLinkProofs.UnknownIsNobodys | exo2-portail-depot/backend/src/requests/public-links.service.ts:68-70 | unknown iff no link carries the token |
| PublicLinkProofs.UndisturbedRegeneration | exo2-portail-depot/backend/src/requests/public-links.service.ts:121-175 | the steps of an undisturbed regeneration do what the method of the class is proved to do, and nothing else |
| PublicLinks.Service.Create | exo2-portail-depot/backend/src/requests/requests.service.ts:87-105 | the request is its lawyer's, and its first link works for days times 86 400 000 ms from now |
| PublicLinks.Service.Regenerate | exo2-portail-depot/backend/src/requests/public-links.service.ts:121-175 | undisturbed: refused iff the request is not the caller's; otherwise, link by link, what was active is dated now and nothing else moves, and one new link, working for days times 86 400 000 ms, is the only active one |
| PublicLinks.Service.Revoke | exo2-portail-depot/backend/src/requests/public-links.service.ts:185-192 | link by link, every active link of the request is dated now, idempotently, and nothing else moves |
| Dashboard.DoneIsEverythingReceived | exo2-portail-depot/backend/src/requests/request.types.ts:197-223 | complete iff there is something to expect and all of it is received; short of that, expired iff the last link's deadline is strictly past; the counts are those of the pieces and of the pieces whose file is complete, the deadline and the state the last link's |
| Dashboard.CountsTheReceived | exo2-portail-depot/backend/src/requests/request.types.ts:193-194 | the count is the number of pieces that have a complete file |
| Dashboard.CountsUpToAll | exo2-portail-depot/backend/src/requests/request.types.ts:193-194 | the count reaches the number of pieces exactly when every piece has a complete file |
| Dashboard.DoneIffNothingMissing | exo2-portail-depot/backend/src/public/deposits.service.ts:138-142 | a request with pieces is shown as complete exactly when the count query finds nothing missing |
| Dashboard.CountedIffShownDone | exo2-portail-depot/backend/src/public/deposits.service.ts:147-162 | a count that answers adds one exactly when the request is then shown as complete |
| Dashboard.EveryRequestShowsALink | exo2-portail-depot/backend/src/requests/request.types.ts:180-191 | in every reachable state the view has a link to show, so its throw is never reached |
| Dashboard.ActiveIsShownIffSomeLinkIsUnrevoked | exo2-portail-depot/backend/src/requests/requests.service.ts:36-46 | with at most one unrevoked link, the link picked is unrevoked iff some link is, and is then that one |
| Dashboard.DashboardAgreesWithAccess | exo2-portail-depot/backend/src/requests/request.types.ts:197-223 | in every reachable state, for an active link and a missing piece, pending at exactly the instants its token resolves to ok and expired at exactly those it resolves to expired |
| Dashboard.RevokedShownMeansNobodyGetsIn | exo2-portail-depot/backend/src/requests/request.types.ts:187-190 | when the view shows revoked, every link of the request resolves to revoked |
| LastLink.PickedExactly | exo2-portail-depot/backend/src/requests/requests.service.ts:36-46 | in every run, whatever overlaps, the query may return exactly the last created of the links that share the revocation date, or the lack of one, of the last link issued |
| LastLink.LastIssuedMayBePickedIff | exo2-portail-depot/backend/src/requests/requests.service.ts:36-46 | in every run the last link issued may be returned iff it is unrevoked or no link revoked with it was created later |
| LastLink.TheLastIssuedMayBePassedOver | exo2-portail-depot/backend/src/requests/requests.service.ts:28-35 | a run in which one regeneration overtakes another, after which only a link issued earlier can be returned, though their dates differ |
| LastLink.LastLinkIsTheLastIssued | exo2-portail-depot/backend/src/requests/requests.service.ts:36-46 | when operations do not overlap the query may return the last link issued, and may return another iff both are revoked and share both dates |
| LastLink.TheOrderCanTie | exo2-portail-depot/backend/src/requests/requests.service.ts:28-35 | a run, within one millisecond, after which two links tie and an earlier one may be returned |
| LatestAnswer.SameAsSerial | exo2-portail-depot/frontend/src/hooks/use-resource.ts:28-62 | for every interleaving of starts, answers and cleanups, data, error and loading are those of the hook without a counter in the run where superseded calls never answered |
| LatestAnswer.AnswerIsWrittenIffHeard | exo2-portail-depot/frontend/src/hooks/use-resource.ts:36-46 | an answer is written iff nothing started and nothing was cleaned up since its call did |
| LatestAnswer.NewestWins | exo2-portail-depot/frontend/src/hooks/use-resource.ts:32-47 | once the newest call has answered, its answer is what is shown, whoever else answers before or after it |
| LatestAnswer.LoadingUntilHeard | exo2-portail-depot/frontend/src/hooks/use-resource.ts:35-46 | loading is false iff an answer was heard and nothing has started since |
| LatestAnswer.ErrorIsOfTheLastHeard | exo2-portail-depot/frontend/src/hooks/use-resource.ts:37-43 | the error shown is that of the last answer heard, none if it succeeded |
| LatestAnswer.DataIsOfTheLastLoaded | exo2-portail-depot/frontend/src/hooks/use-resource.ts:37-43 | the data shown is the result of the last success heard, through failures since |
| LatestAnswer.NothingShownBeforeAnAnswer | exo2-portail-depot/frontend/src/hooks/use-resource.ts:21-23 | data or an error is shown only if such an answer was heard |
| LatestAnswer.Resource.Start | exo2-portail-depot/frontend/src/hooks/use-resource.ts:32-36 | the counter moves on, the call holds its value, loading is set |
| LatestAnswer.Resource.Settle | exo2-portail-depot/frontend/src/hooks/use-resource.ts:37-46 | written iff the call holds the current value; a failure keeps the data |
| LatestAnswer.Resource.Cleanup | exo2-portail-depot/frontend/src/hooks/use-resource.ts:58-61 | the counter moves on and nothing shown changes |
| Disposition.NameSurvivesTheHeader | exo2-portail-depot/frontend/src/api/client.ts:166-176 | a header can be written exactly for names without lone surrogates, and the client reads back that very name if and only if it is not empty |
| Disposition.DecodesWhatWasEncoded | exo2-portail-depot/frontend/src/api/client.ts:169-171 | decodeURIComponent undoes encodeURIComponent |
| Disposition.EncodesIffWellFormed | exo2-portail-depot/backend/src/requests/requests.controller.ts:88 | encodeURIComponent throws exactly on a lone surrogate |
| Disposition.EncodeJoins | exo2-portail-depot/backend/src/requests/requests.controller.ts:88 | a name is written piece by piece |
| Disposition.WrittenAsItIs | exo2-portail-depot/backend/src/requests/requests.controller.ts:88 | exactly letters, digits and the nine marks - _ . ! ~ * ' ( ) are written as they are |
| Disposition.WrittenInEscapes | exo2-portail-depot/backend/src/requests/requests.controller.ts:88 | every other scalar is written as its UTF-8 bytes, each a percent sign and two upper-case hexadecimal digits (section 2.1 of RFC 3986) |
| Disposition.HeaderIsSpelled | exo2-portail-depot/backend/src/requests/requests.controller.ts:86-89 | the header is its two fixed texts, letter by letter, then the written name |
| Disposition.HeaderStaysOneValue | exo2-portail-depot/backend/src/requests/requests.controller.ts:81-89 | whatever the name, the header is printable ASCII with no quote, no line break and one semicolon |
| Disposition.HeadersDiffer | exo2-portail-depot/backend/src/requests/requests.controller.ts:86-89 | two names never share a header |
| Disposition.EveryHeaderGivesAName | exo2-portail-depot/frontend/src/api/client.ts:166-176 | any header of bytes, or none, yields a non-empty well-formed name, which survives being sent again |
| Disposition.DecodesExactly | exo2-portail-depot/frontend/src/api/client.ts:170 | a text is read, as what its pieces mean, iff it is made of units other than the percent sign and of escapes, in either case, of the UTF-8 of scalars |
| Disposition.FilenameExactly | exo2-portail-depot/frontend/src/api/client.ts:166-176 | the client saves the file under what the value after the first tag means, if it means something that is not empty, and as piece otherwise |
| Disposition.Find | exo2-portail-depot/frontend/src/api/client.ts:167 | the leftmost match of the pattern, in either case, if there is one |
| Disposition.Utf8IsExact | exo2-portail-depot/frontend/src/api/client.ts:170 | UTF-8 as in section 3 of RFC 3629: a byte sequence decodes to a scalar iff it is that scalar's one encoding |
| Disposition.Utf8IsTheStandards | exo2-portail-depot/backend/src/requests/requests.controller.ts:88 | the bytes of a scalar are laid out as the table in section 3 of RFC 3629 says |
| Disposition.Utf16IsTheStandards | exo2-portail-depot/backend/src/requests/requests.controller.ts:88 | the units of a scalar are those of section 2.1 of RFC 2781 |
| Disposition.GrammaticalIffNoneOfTheFour | exo2-portail-depot/backend/src/requests/requests.controller.ts:81-88 | the value follows the ext-value grammar of section 3.2.1 of RFC 5987 exactly when the name has no asterisk, apostrophe or parenthesis |

## Left out

- RefreshTokenProofs.WhatKills: see DeadForEver; a revocation that falls between a claim and its append is not modelled.
- RefreshTokenService.WhatACallAnswers: about a call that nothing interleaves with; one that is interleaved answers from
  the row it read, and its claim from the row as it then is.
- RefreshTokenProofs.DeadForEver: the claim and the append are one step with respect to a concurrent revocation of the
  family; the comment at `refresh-token.service.ts:92-95` admits the instant this leaves out.
- GuardGrid.Patrol: the loop of the source may run for ever; here it gives up after 4 * R * C iterations and returns
  nothing, which `HaltsWithin` shows to be the same as never breaking.
- GuardGrid.Solve: ragged grids and file reading are not modelled; an unreadable file only prints its error.
- SharedJarLimit.HonestTabs: an answer, once given, is delivered; the jar holds the refresh cookie alone, presented by
  nobody but the tabs; a logout of the watched family is excluded, as its purpose is to end it.
- DepositService.CompletionIsCountedIffFirstFile: about one deposit alone; DepositCounts says what overlapping does.
- LastLink.PickedExactly: the creation of a request and its first link reads the clock, inserts and is dated
  at one instant.
- ObjectStorage.Storage.DeleteByPrefix: nobody else writes to the bucket during the deletion.
- DepositService.Service.Deposit: what else a failed upsert may throw is one reply.
- RequestErasure.EraseRequest: account and request deletion around the prefix deletion are not modelled.
- One clock serves the application and the database, never goes back, and is read at the step that uses it.
- Token hashing is injective; tokens, families and key draws are fresh numbers, and a fresh token is not one that a
  call in flight has guessed. Hash functions, PINs, session signatures and randomness are not part of this model.
- What NFKD does to a file name: `SafeName` takes the normalised name, whatever it is.
- A put that fails has written nothing and an upsert that fails has written no row; a request body, its detected type,
  size, dates and original name are not kept, nor any metric but the completion counter.
- The deletion of an account appears only as the check `refresh` makes after a rotation.
- RefreshTokenService.AuthController.Login: an access token that cannot be signed, with the row already issued, is not
  modelled.
- The access token's contents and life; its cookie is only set or cleared.
- Screens, validation, health probes, seeds, pagination arithmetic, status texts and the second part of the guard
  puzzle, which is commented out, are not modelled.
