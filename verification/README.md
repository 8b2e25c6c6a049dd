# NumDuel: a verified model of the server's state machines

NumDuel is a one-against-one number duel. Two matched players each register a secret of four
distinct digits and then guess in turns; every guess is answered digit by digit, and the first full
hit wins. This project models the Go use cases of the backend that work as state machines over
database tables, and proves what they keep over every run.

## How the model is built

- **State.** `Model.Db` holds one map per table: users, games, guesses, match histories, the matching
  queue and refresh tokens. `Timers.World` adds the turn timers kept in Redis.
- **Commits.** Each transaction is a function from database to database (`Duel.SetSecretTx`,
  `GuessTx`, `FinishTx`, `CancelTx`, `StartTx`, `MatchTx`, `DeleteTx`, and `Tokens.RowsAfter`) with
  the branches, error values and rollbacks of the code. Primary keys and unique indexes are modelled:
  an insert that violates one fails with `DbConflict`.
- **Runs.** `Duel.Run` applies any sequence of commits. The checks a use case makes *before* its
  transaction are not part of a commit, so a run covers every interleaving in which those checks are
  out of date by the time the transaction starts. `Tokens.Run` does the same for refresh tokens: the
  stale read of `Refresh` and its rotation are separate steps; `Families` shows that the token table of
  the whole server is the table of such a run. `Timers.Life` runs complete use cases together with the
  timer store. `LateTimers.Run` splits them: a timer is written, from a game row read earlier, at any
  later time or never.
- **Old account rows.** Login, user deletion and the activity update of a WebSocket message read an
  account row before their transaction and save all of it inside. `Duel.Run` saves the row as it is;
  `StaleRows.Run` keeps every row ever read and lets it be saved at any later time. The results stated
  for `Reached` databases hold as long as no commit saves an old row. Results stated on `GamesInv`,
  `HistoriesOk` and `MatchInv` hold in both kinds of run (`Reachable.ReachedInv`,
  `StaleRows.RunIsSound`). What old rows do to win counts and deletions is in `StaleRows`.
- **Witnesses.** `Witnesses` reaches a played and won game and, for each promise that fails, a state or
  input at which it does.
- **Outcomes in field terms.** `Outcomes`, `Pairing` and `Sessions`, and lemmas beside `Ranking`,
  `RateLimit`, `Backup`, `Digits` and `Secrets`, say of each operation what it replies and which fields of
  which rows it leaves, without the functions that compute it. The methods of `Server` promise the same.
- **The code's own form.** `Server`, `Secrets`, `RandomGuess`, `RateLimit`, `Ranking`, `Backup` and
  the row class `Model.GameRow` hold classes whose methods change fields, arrays and tables step by
  step, with the loops of the code. Every method is proved to do what the corresponding function says,
  so the lemmas about the functions are about the methods.

| module | Go code |
|---|---|
| Digits, Secrets, RandomGuess | usecase/judge.go, game_validate.go; crypto/secret.go, random.go |
| Model, Duel, Effects, GameInvariant, Ledger, Reachable | model, usecase/game_logic.go, game_play.go |
| Matchmaking, Pairing | usecase/matching.go, repository/matching_queue.go |
| GameState, Timers, LateTimers, Outcomes | usecase/game.go, game_play.go, handle_timeout.go, game_recovery.go, redis/store.go |
| Tokens, Accounts, StaleRows, Families, Sessions | usecase/auth_refresh.go, auth_session.go, auth_login.go, auth_logout.go, admin.go, ws_auth.go; repository/refresh_token.go |
| RateLimit, Ranking, Backup | middleware/rate_limit.go; usecase/ranking.go; usecase/backup.go, repository/backup.go |
| Witnesses | runs of the above |
| Server | the use cases and repositories as classes over `Tables` |

## Assumptions

- Transactions are serialised, and one that fails leaves the tables as they were (repository/tx.go:11-15).
- `uuid.New` never repeats an identifier. Only the results about token families and the absence of
  `DbConflict` use it; everything else holds even when identifiers clash.
- HMAC-SHA256 in hex is an abstract function. Where a result needs it, it is assumed that a digest is
  64 hex characters and that two different digits at one place have different digests.
  `Secrets.AssumptionsCanHold` shows that such a function exists.
- A text is the sequence of its bytes.
- The clock, random draws, lock outcomes, database listing orders and timer store answers are
  parameters, so each result holds for all of them.
- The claim that timers agree with games needs store writes to succeed and use cases to run to
  completion. The safety of a timeout, what recovery leaves, and the results of `LateTimers` need
  neither.
- No writer runs during a backup sync, and a write is stamped later than the watermark in force.
- Turn and setup durations are positive where a result says so (backend/config/env.go:116).

## Where a promise does not hold as it stands

Each of these has a lemma that says exactly when it fails and one that reaches an input where it does.

- The reported `OpponentGuessCount` excludes the opponent's rows, so it counts the caller's own
  guesses. It is within one of the true number and right exactly when the current turn is odd
  (`GameState.ReportedCountIsOwnCount`, `Witnesses.ReportedCountCanBeWrong`).
- The reply "waiting" can be false: the pairing step may have dropped the caller's own entry
  (`Matchmaking.WaitingReplyIsTrueIff`, `Witnesses.WaitingReplyCanBeFalse`). It is true when the
  pre-checks still hold.
- The check of the timed-out game passes on every branch, so the turn number of the timer record is
  never compared (`Timers.TimeoutActsIff`, `Witnesses.WrongTurnIsPlayed`). When timer writes were lost
  or late a timeout can play a later turn of the same player than its record names, and no other
  (`LateTimers.TimeoutPlaysSamePlayersTurn`). `Timers.TimeoutIsSafe` shows that the locked row still
  protects the game.
- Recovery leaves every game in progress with a live record, but keeps a live record of an earlier turn
  that it finds (`Timers.RecoveryNamesTurnIff`, `Witnesses.RecoveryCanKeepWrongTurn`).
- A timer written without delay has vanished the moment it expires (`Timers.ExpiryVisibleIff`,
  `Witnesses.PromptTimerVanishes`), so timeouts are proved safe but not certain to fire.
- A stored secret has 259 characters and its column is declared with 255. Where a database enforces
  the declaration no secret can be stored and no game starts (`Reachable.SecretStoredIff`,
  `Reachable.NarrowColumnStopsPlay`, `Witnesses.DeclaredColumnRefuses`). The other results hold with
  and without enforcement.
- With atomic use cases deleted users keep nothing. With checks out of date a deletion can leave an
  active game and a start of matching can queue a deleted user; no other commit can
  (`Accounts.StepKeepsGoneIff`, `Witnesses.StaleDeletionCanLeaveGame`,
  `Witnesses.StaleStartCanQueueDeleted`). A login under way can only undo the deletion, because it saves
  the account row together with the token: a deleted user never holds a usable token
  (`StaleRows.DeletedNeverHoldTokens`).
- Saving an old account row can undo a deletion and lose wins (`StaleRows.DeletionUndoneIff`,
  `StaleRows.SaveKeepsLedgerIff`, `Witnesses.DeletionCanBeUndone`, `Witnesses.WinCanBeLost`). Win
  counts never exceed the history even then (`StaleRows.WinsNeverOvercounted`).
- A token family that has expired can come back, because a rotation reads the clock before its
  transaction (`Tokens.StepKeepsInactiveIff`, `Witnesses.ExpiredFamilyCanRevive`).
- A row stamped no later than the watermark is missed by the next successful sync
  (`Backup.LateWriteCopiedIff`, `Witnesses.LateWriteCanBeMissed`).
- Cleanup forgets that a long-revoked token was used (`Tokens.CleanupForgetsReuseIff`,
  `Witnesses.ReuseCanBeForgotten`).

`finishGameService` commits a winning guess without finishing the game if a user row is missing.
`GameInvariant.WinningGuess` shows that this never happens.

## Model

| member | source | states |
|---|---|---|
| Reachable.WinCountsBalance | backend/usecase/game_play.go:162-229 | in every state reached without saving an old account row a user's win count equals the number of history rows they won and the number of finished games naming them winner |
| Reachable.WonGameHasOneHistory | backend/usecase/game_play.go:185-216 | wherever games and histories keep their invariants a game has a winner iff it has a history row; it has at most one, whose winner and loser are its two different players |
| Reachable.OneGameAtATime | backend/usecase/matching.go:50-91 | in every reachable state no user is a player of two active games, nobody plays themselves and at most one entry waits, even with stale pre-checks |
| Reachable.WinnerGuessedTheSecret | backend/usecase/game_play.go:130-176 | wherever games keep their invariant every verdict in the log is the judgement of the secret the player had to find, and a guess equals that secret iff it is the last one of a game its player won |
| Reachable.GuessOutcome | backend/usecase/game_play.go:100-183 | wherever games and histories keep their invariants a guess with unused ids is accepted unless one of the player-visible reasons applies; the unique indexes and the secret format never reject it |
| Reachable.FinishedIsForever | backend/usecase/game_logic.go:43-129 | after any run a finished game has the same row and the same guess log |
| Reachable.RunPreserves | backend/usecase/game_logic.go:24-129 | over any run games only move forward, players and stored secrets stay, and no guess is changed or deleted |
| Reachable.RunKeepsInv | backend/usecase/game_play.go:24-229 | the joint invariant of games, guesses, users, histories and queue survives every run of commits |
| Reachable.SecretStoredIff | backend/model/game.go:14-15 | a first secret can be stored iff the column size is not enforced or is at least 259 |
| Reachable.NarrowColumnStopsPlay | backend/model/game.go:14-15 | where a shorter column is enforced, no run stores a secret, starts a game or enters a guess |
| GameInvariant.StepKeepsGames | backend/usecase/game_logic.go:43-129 | every commit keeps the game invariant: turn numbers, alternation, secrets, status fields and the one possible full hit |
| GameInvariant.RunKeepsGames | backend/usecase/game_play.go:24-176 | the game invariant holds after any run of commits |
| GameInvariant.AcceptedGuess | backend/usecase/game_play.go:141-176 | an accepted guess is by the player to move, adds exactly one row for the current turn, and changes only that game's row and, exactly on a full hit, adds one history row and one win |
| GameInvariant.WinningGuess | backend/usecase/game_play.go:185-216 | a full hit always finishes the game: both user rows exist, one history row is added and only the winner's count grows by one |
| GameInvariant.NextTurnFree | backend/model/guess.go:9-20 | the unique index on game, turn and player holds no row for the turn about to be played |
| GameInvariant.GuessFailsOnlyVisibly | backend/usecase/game_play.go:100-183 | on a valid state a guess with fresh ids is refused exactly for the reasons not found, not a player, no secret, not started, not your turn |
| Ledger.StepKeepsLedger | backend/usecase/game_play.go:185-229 | every commit keeps win counts, match histories and winners in agreement |
| Ledger.StepKeepsBalance | backend/usecase/game_play.go:185-229 | every commit keeps each win count short of the history and of the games won by what it was short before |
| Ledger.WinKeepsCounts | backend/usecase/game_play.go:203-229 | the commit of a win adds one to the count, the rows won and the games won of the winner, and to nobody else's |
| Matchmaking.StartKeepsMatching | backend/usecase/matching.go:77-91 | whatever ran since the pre-checks, the commit leaves every user in at most one active game and at most one waiting entry |
| Matchmaking.StepKeepsMatching | backend/usecase/matching.go:132-182 | every commit of the server keeps the rule of one game per user and one waiting entry |
| Matchmaking.MatchedReplyIsTrue | backend/usecase/matching.go:77-101 | "matched" names a new active game the caller plays in, between two different users, player 1's entry not later than player 2's, and both leave the queue |
| Matchmaking.TwoReadyUsersArePaired | backend/usecase/matching.go:132-167 | a ready caller who finds another ready user waiting is paired in that commit |
| Matchmaking.WaitingReplyIsTrueIff | backend/usecase/matching.go:144-153 | the exact condition under which a caller told "waiting" is still in the queue |
| Matchmaking.WaitingReplyTrueWhenReady | backend/usecase/matching.go:50-101 | a caller told "waiting" is in the queue when the pre-checks still hold at the transaction |
| GameState.TurnCountsGuesses | backend/usecase/game_logic.go:77-105 | wherever games keep their invariant the current turn is one more than the number of guesses, each turn has one guess, by player 1 on odd turns and player 2 on even ones, and the player to move matches |
| GameState.ReportedCountIsOwnCount | backend/usecase/game.go:145-156 | the reported opponent count is the caller's own count, within one of the opponent's, and right iff the current turn is odd |
| GameState.ReportedCountIsListLength | backend/repository/guess.go:36-51 | the reported opponent count equals the length of the caller's own guess list |
| GameState.BuildGameState | backend/usecase/game.go:134-181 | not found, forbidden, or the game's status, turn, timer value and one summary per own guess in listing order |
| Outcomes.SubmitGuessOutcome | backend/usecase/game_play.go:100-183 | the reply for every reason to refuse, with nothing changed; otherwise the new guess row, the game row moved on, the win recorded exactly on a full hit, and the opponent's timer written with its turn, player, start, end and lifetime, or removed on a win |
| Outcomes.GuessJudgesSecret | backend/usecase/game_play.go:130-147 | each digit of an accepted guess is a hit iff it equals the opponent's digit at that place |
| Outcomes.SetSecretOutcome | backend/usecase/game_play.go:24-91 | the reply for every reason to refuse, with nothing changed; otherwise the secret in the caller's slot and, with both there, the game started at turn 1 with player 1 and that turn's timer written |
| Outcomes.CancelTimeoutOutcome | backend/usecase/game_recovery.go:13-58 | a game is finished without a winner, and its timer removed, iff it waits and its creation plus the setup time has passed |
| Outcomes.TimeoutOutcome | backend/usecase/handle_timeout.go:12-91 | nothing happens unless both reads show the player's record expired; then exactly what an automatic guess leaves, and a move that came too late is no error |
| Outcomes.RecoveryOutcome | backend/usecase/game_recovery.go:60-105 | a visible record with time left is kept, any other game in progress gets a record for its turn beginning now, and exactly the overdue waiting games are finished |
| Pairing.StartOutcome | backend/usecase/matching.go:77-167 | the caller waits, an entry of a user who is not free is dropped, or a game opens that was created at the transaction's clock reading with nothing set or played, the older entry's user first |
| Pairing.StartReplies | backend/usecase/matching.go:50-74 | the error of each check of Start, in order |
| Pairing.SetupTimeRunsFromPairing | backend/usecase/matching.go:154-159 | after any run a paired game is cancelled iff it still waits and the setup time since its pairing has passed |
| Pairing.CancelLeaves | backend/repository/matching_queue.go:44-46 | leaving takes exactly the caller's entries |
| Timers.TimeoutIsSafe | backend/usecase/handle_timeout.go:12-63 | whatever the timer store answers, a timeout changes nothing or enters one automatic guess for the player to move; that game's row moves on as the verdict says, a win is recorded exactly on a full hit, and nothing else changes |
| Timers.TimeoutKeepsInv | backend/usecase/handle_timeout.go:12-63 | whatever the timer store answers, a timeout keeps the joint invariant |
| Timers.TimeoutActsIff | backend/usecase/handle_timeout.go:29-83 | a timeout enters a guess iff the lock is free, both reads are due for that player, the player may play and it is their move; the recorded turn plays no part |
| Timers.TimeoutActsOnNamedTurn | backend/usecase/handle_timeout.go:24-63 | with timers that agree with games, the turn a timeout plays is the turn its record names |
| Timers.LifeKeepsWorld | backend/usecase/game_play.go:231-317 | over any life of the server every stored timer names the current turn and the player to move of a game in progress |
| Timers.RecoveryNamesTurnIff | backend/usecase/game_recovery.go:90-105 | whatever the store held, after recovery every game in progress has a record expiring after now, and it names the game's turn iff no live record of another turn was there |
| Timers.RecoveryClears | backend/usecase/game_recovery.go:76-87 | whatever the store held, recovery finishes exactly the waiting games past their deadline, without a winner, and changes no other row |
| Timers.RecoveryIsComplete | backend/usecase/game_recovery.go:60-105 | where timers and games agreed before, they agree after recovery and every game in progress has a live timer naming its turn |
| LateTimers.RecordsNameOwnTurns | backend/usecase/game_play.go:231-317 | however late, lost or out of order timer writes are, every record names a turn that has come in its game and the player whose turn it was |
| LateTimers.TimeoutPlaysSamePlayersTurn | backend/usecase/handle_timeout.go:24-63 | a timeout acting on such a record plays the named turn or a later one of the same player |
| Timers.CancelOutcome | backend/usecase/game_recovery.go:13-58 | a setup timeout finishes the game without a winner iff it waits past its deadline, removing its timer, and touches no other row and no other timer |
| Timers.ExpiryVisibleIff | backend/redis/store.go:92-108 | a timer can be seen expired iff it was written after the start it records or the turn is shorter than a second |
| Timers.TurnStore.SetTurn | backend/redis/store.go:92-108 | stores the record with a lifetime of the turn's length, at least one second |
| Timers.ListedTurnIsPlayed | backend/redis/store.go:162-193 | an expired record the scan delivers, still visible and with the lock free, makes the timeout enter a guess for the very turn it names |
| Timers.SecondsLeft | backend/redis/store.go:110-127 | the whole seconds left, and 0 iff there is no record or less than a second is left |
| Timers.TurnStore.RemainingSeconds | backend/redis/store.go:110-127 | the branches of the code give that number |
| Timers.TurnStore.ListExpiredTurns | backend/redis/store.go:162-193 | whatever pages the cursor delivers, every listed entry was visible and expired when read, with its player, and every expired record that outlives the scan is listed |
| Timers.TurnStore.DeleteTurn | backend/redis/store.go:129-131 | removes exactly that game's record |
| Accounts.DeletedStayGone | backend/usecase/admin.go:76-127 | with atomic use cases, in every later state a deleted user has no usable token, no queue entry and no active game |
| Accounts.StepKeepsGoneIff | backend/usecase/admin.go:96-123 | whatever ran since its checks, a commit leaves deleted users without token, queue entry and game iff it is no deletion of a user in a game and no start of matching by a deleted user that keeps its entry |
| Accounts.DeletionLeavesNothingIff | backend/usecase/admin.go:112-123 | the transaction of a deletion leaves the user nothing iff the user has no active game at that moment |
| Accounts.DeletionIsForever | backend/usecase/admin.go:112-125 | no run of commits that save account rows as they are undoes a deletion |
| Accounts.StaleStartKeepsGoneIff | backend/usecase/matching.go:77-153 | Start's transaction alone keeps deleted users out iff its caller is not deleted, or another entry waits and the caller's is the older or the other user is ready |
| Accounts.StartKeepsGone | backend/usecase/matching.go:132-182 | a pairing started by a user who is not deleted gives deleted users no entry and no game |
| StaleRows.WinsNeverOvercounted | backend/usecase/auth_session.go:39-43 | whatever old account rows are saved when, win count plus overwritten wins equals the history rows and games won, and nobody plays two games at once |
| StaleRows.RunKeepsValid | backend/usecase/ws_auth.go:127-136 | games, logs, histories, queue and names keep their invariants over every run in which old account rows are saved |
| StaleRows.RunIsSound | backend/usecase/ws_auth.go:127-136 | over every such run games, logs, histories, matching and names satisfy what the other results ask for |
| StaleRows.DeletedNeverHoldTokens | backend/usecase/auth_login.go:31-41 | over every such run a deleted user holds no token that is not revoked |
| StaleRows.SavedDbIsTransaction | backend/usecase/admin.go:112-123 | a save leaves exactly what the transactions of login and deletion leave |
| StaleRows.SaveKeepsLedgerIff | backend/usecase/auth_login.go:22-37 | saving an old account row keeps the ledger iff its win count is the current one |
| StaleRows.DeletionUndoneIff | backend/usecase/auth_login.go:22-37 | a step undoes a deletion iff it is a login or activity update that saves a row of that user read before it |
| StaleRows.DeletionSurvives | backend/usecase/admin.go:83-123 | once no row of the user from before the deletion is held, no run undoes it |
| StaleRows.StepKeepsGoneOrRestores | backend/usecase/auth_login.go:31-41 | the exact condition for every step, old rows included, to leave deleted users nothing |
| Tokens.FamiliesAreLinear | backend/usecase/auth_refresh.go:19-115 | for every interleaving of stale reads and rotations a family has at most one unrevoked token; a replaced token is revoked and its successor is another token of the same family and user; no token succeeds two; status says revoked iff a revocation time is set |
| Tokens.RunKeepsLinear | backend/usecase/auth_refresh.go:79-115 | after any run the stored tokens of a family lie on one simple path in order of issue, each but the newest revoked and linked to the next |
| Tokens.DeadStaysDead | backend/usecase/auth_refresh.go:34-45 | once every token of a family is revoked, no login, refresh, logout, revocation or cleanup makes one usable at any time |
| Tokens.StepKeepsInactiveIff | backend/usecase/auth_refresh.go:24-57 | a family with no token active at an instant stays so iff the step is not a successful rotation with an earlier clock reading and a later expiry |
| Tokens.InactiveStays | backend/usecase/auth_refresh.go:40-48 | without such a rotation a family with no active token never has one again |
| Tokens.ExpiryKillsFamily | backend/usecase/auth_refresh.go:40-45 | revoking the last unrevoked token of a family when it has expired leaves the family unusable for good |
| Tokens.ReuseKillsFamily | backend/usecase/auth_refresh.go:34-73 | presenting a stored revoked token leaves its whole family unusable for good, whatever ran between the read and the revocation |
| Tokens.LogoutKillsFamilies | backend/usecase/auth_logout.go:32-35 | revoking a user's tokens leaves every family of that user unusable for good |
| Tokens.RotatedOnce | backend/usecase/auth_refresh.go:79-110 | a rotated token keeps its successor while stored, and every later rotation of it fails |
| Tokens.RotationSucceedsIff | backend/usecase/auth_refresh.go:79-115 | with an unused id and hash, rotation succeeds iff the token is active and its user is not deleted |
| Tokens.CleanupHarmless | backend/repository/refresh_token.go:91-98 | cleanup with a cutoff not after now deletes no token active now and changes no hash the next refresh accepts |
| Tokens.CleanupForgetsReuseIff | backend/usecase/auth_refresh.go:117-129 | a revoked token is still recognised after cleanup iff it was revoked at or after the cutoff |
| Sessions.RefreshOutcome | backend/usecase/auth_refresh.go:19-115 | for an unknown, revoked, expired, orphaned or usable token: the reply and every row left; reuse revokes the whole family, and an exchange adds one linked token of the same family and user and changes nothing else |
| Sessions.RefreshIsStep | backend/usecase/auth_refresh.go:27-57 | each outcome of Refresh is the reuse, expiry or rotation step of the token runs |
| Sessions.RefreshWithUsedTokenKillsFamily | backend/usecase/auth_refresh.go:34-39 | presenting a used token is refused and leaves its family unusable for good |
| Sessions.SecondRefreshRevokes | backend/usecase/auth_refresh.go:34-73 | after a refresh that went through, presenting the same token again is refused and revokes the family with the token just issued |
| Sessions.GuardedUpdates | backend/repository/refresh_token.go:44-69 | revoking or linking touches only an unspent row, and fails otherwise |
| Sessions.CleanupOutcome | backend/repository/refresh_token.go:91-98 | exactly the tokens expired or revoked before the cutoff are deleted |
| Sessions.LoginOutcome | backend/usecase/auth_login.go:31-41 | the checked row saved and a token of a new family stored, or neither |
| Sessions.DeletionChecked | backend/usecase/admin.go:80-102 | the reply for oneself, a missing, deleted or administrator's account and a user in a game |
| Sessions.DeletionOutcome | backend/usecase/admin.go:112-123 | the user's unspent tokens revoked, the user's entries removed, the row saved as deleted, and nothing else changed |
| Families.RunOnTokens | backend/repository/refresh_token.go:44-98 | the token table of a run of commits is that of its token steps, with a deletion read as a revocation |
| Families.SavedRunOnTokens | backend/repository/refresh_token.go:44-98 | the same when old account rows are saved |
| Families.ServerFamiliesAreLinear | backend/usecase/auth_refresh.go:19-115 | in every run of the whole server with new token ids, the stored tokens of a family form one path with at most one unrevoked |
| Families.DeletionKillsFamilies | backend/usecase/admin.go:112-123 | a deletion leaves every family of the user unusable for good, even if a login under way restores the account |
| RateLimit.OneCall | backend/middleware/rate_limit.go:23-42 | a call is let through iff fewer than limit stored timestamps are less than a window old, and what is stored is those and the call itself |
| RateLimit.LogGrows | backend/middleware/rate_limit.go:31-40 | the log of accepted calls grows iff fewer than limit of its entries are less than a window old |
| RateLimit.RecentMembers | backend/middleware/rate_limit.go:30-35 | pruning keeps exactly the timestamps less than a window old |
| RateLimit.AnswerMatchesHistory | backend/middleware/rate_limit.go:23-42 | for nondecreasing times the pruned list answers yes iff fewer than limit accepted calls of the full history lie in the window |
| RateLimit.AcceptedCallsSpaced | backend/middleware/rate_limit.go:31-40 | an accepted call and the one limit places later are at least a window apart |
| RateLimit.PrunedAgreesWithLog | backend/middleware/rate_limit.go:30-35 | at any instant not before the last call, the pruned list and the full log have the same recent entries |
| RateLimit.RateLimiter.Compact | backend/middleware/rate_limit.go:30-35 | the compaction loop over the aliased slice leaves exactly the recent timestamps, in order, in front |
| RateLimit.RateLimiter.Allow | backend/middleware/rate_limit.go:23-42 | the answer and the key's new list are those of the specification, and no other key's list changes |
| Backup.SuccessfulSyncIsFullCopy | backend/usecase/backup.go:51-89 | after any history of writes, removals, partial failures and failed runs, a successful run leaves every primary row present and equal in the backup, as a full copy would |
| Backup.RunIsSafe | backend/usecase/backup.go:71-88 | any run keeps the backup covering every primary row up to the watermark; a failed run never advances the watermark; a successful one equals a full copy |
| Backup.RunSucceedsIff | backend/usecase/backup.go:55-79 | a run succeeds iff the status store works and one of its attempts, three by default, gets through all seven tables |
| Backup.MarkAfterRun | backend/usecase/backup.go:73-87 | a successful run sets the watermark to the start of the second in which it ended; a failed one leaves it unless it is lost when the status can be written but not read |
| Backup.LaterWriteIsCopied | backend/usecase/backup.go:73-75 | a row stamped later than the start of that second is copied by the next run that succeeds |
| Backup.LateWriteCopiedIff | backend/usecase/backup.go:73-75 | a row written after a successful run reaches the backup with the next one iff it is stamped later than the watermark or the backup already has it |
| Backup.BackupUseCase.SyncRows | backend/repository/backup.go:68-91 | copies exactly the rows of one table changed since the watermark, counts them, finds the newest stamp, and reports failures with what they stored |
| Backup.BackupUseCase.Sync | backend/repository/backup.go:27-66 | copies table after table, adds up the rows, and stops at the first table that fails |
| Backup.BackupUseCase.RunSync | backend/usecase/backup.go:51-89 | the retry loop and the two status writes leave the specified databases and watermark, and the status text |
| Secrets.VerifyAgreesWithJudge | backend/crypto/secret.go:29-57 | for every secret, guess, game and slot, verifying against the stored form gives what judging the plain secret gives |
| Secrets.HashedVerifies | backend/crypto/secret.go:37-41 | Verify never rejects the format of what Hash produced |
| Secrets.HashedLength | backend/crypto/secret.go:30-34 | a stored secret has exactly 259 characters |
| Secrets.HashedForm | backend/crypto/secret.go:29-57 | the stored form is four digests of the text game, slot, place and digit, joined by colons |
| Secrets.VerifyRefusesIff | backend/crypto/secret.go:37-41 | Verify refuses exactly the texts without three colons |
| Secrets.SplitJoin | backend/crypto/secret.go:34-38 | Split undoes Join on parts without a colon |
| Secrets.SecretHashService.Hash | backend/crypto/secret.go:29-35 | the loop yields the four digests of the digits, joined by colons |
| Secrets.SecretHashService.Verify | backend/crypto/secret.go:37-50 | rejects a text without four parts, otherwise a hit exactly at the places whose digest matches |
| Digits.WinMeansSecretGuessed | backend/usecase/judge.go:5-32 | full hit iff hit count four iff the guess is the secret |
| Digits.JudgeDigits | backend/usecase/judge.go:5-13 | place by place, a hit iff the digits agree |
| Digits.IsWin | backend/usecase/judge.go:15-22 | true iff every place is a hit |
| Digits.HitCount | backend/usecase/judge.go:24-32 | the number of hits |
| Digits.ParseAccepts | backend/usecase/game_validate.go:5-23 | exactly the texts of four distinct digits are accepted, and the digits render back to the text |
| Digits.HitsCounted | backend/usecase/judge.go:24-32 | the hit count is the number of places hit |
| Digits.ParseReplies | backend/usecase/game_validate.go:5-23 | the length is checked first, then the first byte that is no digit or a repetition decides the error; otherwise each byte gives its digit |
| Digits.ParseFormat | backend/usecase/game_validate.go:5-23 | the rendering of four distinct digits is accepted and gives the digits back |
| Digits.ValidateFourDigits | backend/usecase/game_validate.go:5-23 | the digits, or the first complaint of a left-to-right scan |
| Digits.ValidateFourDigitsArray | backend/usecase/game_validate.go:25-37 | accepts iff the digits are in range and distinct; complains of the range iff a digit out of range comes before any repetition |
| RandomGuess.ShuffleIsBijection | backend/crypto/random.go:24-34 | for any pool of distinct values the swap loop maps choice vectors one-to-one onto the duplicate-free sequences of the drawn length |
| RandomGuess.DrawAtPlace | backend/crypto/random.go:26-32 | the i-th number drawn is the one at place j_i after the earlier swaps |
| RandomGuess.SwapLoop | backend/crypto/random.go:26-32 | the in-place swaps leave the pool as the specification permutes it |
| RandomGuess.GenerateGuessNumber | backend/crypto/random.go:24-34 | every output passes validation and parses to the four drawn digits |
| Ranking.RankCountsAhead | backend/usecase/ranking.go:62-77 | a rank is one more than the number of eligible users ahead by wins and then username |
| Ranking.RankCountsBetter | backend/usecase/ranking.go:62-77 | a rank is one more than the number of ranked users with more wins, or as many and an earlier name |
| Ranking.LessMeans | backend/usecase/ranking.go:116 | names compare at the first place at which they differ, a prefix first |
| Ranking.RankingUnique | backend/usecase/ranking.go:112-117 | two rankings of the same users are equal, so the unstable sort does not matter |
| Ranking.RankingUseCase.ListForRebuild | backend/usecase/ranking.go:96-119 | exactly the users neither deleted nor master, most wins first and earlier names first among equals |
| Ranking.RankingUseCase.Rebuild | backend/usecase/ranking.go:62-77 | the table holds exactly the users neither deleted nor master, with their names and wins, most wins first and earlier names first among equals, numbered from one |
| Ranking.RankingUseCase.Get | backend/usecase/ranking.go:47-60 | the first three rows, or all when there are fewer |
| Model.GameRow.SetSecretHash | backend/usecase/game_logic.go:24-41 | stores the hash in the caller's empty slot, or fails and changes nothing |
| Model.GameRow.Start | backend/usecase/game_logic.go:43-53 | starts a waiting game with both secrets at turn 1 with player 1, or fails and changes nothing |
| Model.GameRow.AddGuess | backend/usecase/game_logic.go:77-105 | returns the guess row of the current turn and passes the turn on, or fails and changes nothing |
| Model.GameRow.Finish | backend/usecase/game_logic.go:107-119 | finishes a game in progress for a participant, or fails and changes nothing |
| Model.GameRow.CancelBySecretTimeout | backend/usecase/game_logic.go:121-129 | finishes a waiting game without a winner, or fails and changes nothing |
| Server.MatchingUseCase.ListWaiting | backend/repository/matching_queue.go:48-57 | some oldest-first listing of the queue up to the limit, ties in either order |
| Server.MatchingUseCase.MatchPlayers | backend/usecase/matching.go:132-167 | pairs the two oldest, drops the one that is not ready, or leaves the queue alone, as the specification says |
| Server.MatchingUseCase.Start | backend/usecase/matching.go:50-102 | the error of the first failed pre-check with nothing changed, otherwise the specified transaction with its rollback and, field by field, what `Pairing` says it leaves |
| Server.MatchingUseCase.Status | backend/usecase/matching.go:113-130 | names an unfinished game of the user if there is one, otherwise tells whether the user waits |
| Server.MatchingUseCase.Cancel | backend/usecase/matching.go:104-111 | the caller no longer waits, everybody else's entries stay and nothing else changes |
| Server.GameUseCase.SetSecretNumber | backend/usecase/game_play.go:24-91 | reply, tables and timers are those of the specified use case and, field by field, those `Outcomes` writes out |
| Server.GameUseCase.GuessTransaction | backend/usecase/game_play.go:118-176 | reply and tables are those of the specified commit, with rollback on every error |
| Server.GameUseCase.FinishGame | backend/usecase/game_play.go:185-229 | game row, history row and win count written as specified, or the same error |
| Server.GameUseCase.SubmitGuess | backend/usecase/game_play.go:100-183 | reply, tables and timers are those of the specified use case and, field by field, those `Outcomes` writes out |
| Server.GameUseCase.CancelBySecretTimeout | backend/usecase/game_recovery.go:13-58 | tables and timers are those of the specified cancellation and, field by field, those `Outcomes` writes out |
| Server.GameUseCase.HandleTimeout | backend/usecase/handle_timeout.go:12-63 | reply, tables and timers are those of the specified use case, with the stored records read twice and the generated number, and those `Outcomes` writes out |
| Server.GameUseCase.RecoverActiveGames | backend/usecase/game_recovery.go:60-105 | both loops leave the tables and timers of the specified recovery, for some legal listings, and those `Outcomes` writes out |
| Server.RefreshTokenRepo.Create | backend/repository/refresh_token.go:56-58 | inserts the row, or fails on a used id or hash and changes nothing |
| Server.RefreshTokenRepo.MarkUsed | backend/repository/refresh_token.go:44-54 | revokes and links a row that is active, or fails and changes nothing |
| Server.RefreshTokenRepo.Revoke | backend/repository/refresh_token.go:60-69 | revokes a row that is active, or fails and changes nothing |
| Server.RefreshTokenRepo.RevokeByFamilyId | backend/repository/refresh_token.go:71-79 | revokes exactly the active rows of the family |
| Server.RefreshTokenRepo.RevokeByUserId | backend/repository/refresh_token.go:81-89 | revokes exactly the active rows of the user |
| Server.RefreshTokenRepo.DeleteExpired | backend/repository/refresh_token.go:91-98 | deletes exactly the rows expired or revoked before the cutoff, and counts them |
| Server.AuthUseCase.IssueSession | backend/usecase/auth_session.go:12-37 | opens a new family with one token, unless the id or hash is taken |
| Server.AuthUseCase.LoginTransaction | backend/usecase/auth_login.go:31-41 | the account row read before is saved and a token issued, or neither |
| Server.AuthUseCase.Rotate | backend/usecase/auth_refresh.go:79-115 | the specified rotation; the revocation for a deleted user is rolled back with the rest |
| Server.AuthUseCase.Refresh | backend/usecase/auth_refresh.go:19-60 | the specified refresh and, field by field, what `Sessions` says it leaves: reuse revokes the family, an expired token is revoked, a usable one exchanged |
| Server.AuthUseCase.Logout | backend/usecase/auth_logout.go:19-48 | refuses without token id or with an expired access token, otherwise revokes every active token of the user |
| Server.AuthUseCase.CleanupExpiredRefreshTokens | backend/usecase/auth_refresh.go:117-129 | purges with the cutoff of the grace period, seven days when none is set |
| Server.AdminUseCase.CheckDeletable | backend/usecase/admin.go:80-102 | the first check that fails, otherwise the account row as it is |
| Server.AdminUseCase.DeleteTransaction | backend/usecase/admin.go:112-123 | for any account row read before: tokens revoked, queue entries removed and that row saved as deleted |
| Server.AdminUseCase.DeleteUser | backend/usecase/admin.go:76-127 | without the lock or with a failed check nothing changes, otherwise the transaction on the current row |
| Witnesses.WonReached | backend/usecase/game_play.go:100-229 | a run reaches a game won by its second guess, with one win on the winner's account |
| Witnesses.ReportedCountCanBeWrong | backend/usecase/game.go:145-156 | a reached state in which either player is shown a wrong opponent count |
| Witnesses.WrongTurnIsPlayed | backend/usecase/handle_timeout.go:65-83 | a run with two lost timer writes after which the record of turn 1 makes the timeout play turn 3 |
| Witnesses.RecoveryCanKeepWrongTurn | backend/usecase/game_recovery.go:98-100 | a run with a lost timer write after which recovery keeps the record of turn 1 at turn 2 |
| Witnesses.PromptTimerVanishes | backend/redis/store.go:103-107 | a thirty-second timer written at once is never seen expired |
| Witnesses.DeclaredColumnRefuses | backend/model/game.go:14-15 | a reached state in which a column of 255 characters refuses a secret |
| Witnesses.WaitingReplyCanBeFalse | backend/usecase/matching.go:77-101 | a reached state in which a caller who passed the checks is told "waiting" and is not queued |
| Witnesses.StaleStartCanQueueDeleted | backend/usecase/matching.go:50-91 | a reached state in which a caller deleted after the checks is queued |
| Witnesses.StaleDeletionCanLeaveGame | backend/usecase/admin.go:96-123 | a reached state in which a user paired after the checks is deleted while in an active game |
| Witnesses.DeletionCanBeUndone | backend/usecase/auth_login.go:22-37 | a run in which a login undoes the deletion of its user |
| Witnesses.WinCanBeLost | backend/usecase/ws_auth.go:127-136 | a run in which an activity update takes a win away |
| Witnesses.ExpiredFamilyCanRevive | backend/usecase/auth_refresh.go:24-57 | a rotation that read the clock before makes an expired family usable |
| Witnesses.ReuseCanBeForgotten | backend/usecase/auth_refresh.go:117-129 | ten days after its use, and after a cleanup, a used token of a family in use is no longer recognised |
| Witnesses.LateWriteCanBeMissed | backend/usecase/backup.go:73-75 | from a blank start and one sync, a successful run leaves out a row stamped with the watermark |

## Left out

- HTTP controllers, WebSocket handlers, notification payloads, presenters and the frontend: input and output.
- Activity logs, login logs, `UpdatedAt` and `LastActivityAt`: written by the use cases, read by none of the modelled ones.
- Emails, passwords, access tokens, the force-logout and WebSocket session stores: not part of any modelled property.
- The trimming and hashing of a presented refresh token: the model starts from its hash.
- Read-committed anomalies within a transaction.
- Reachable.WinCountsBalance: does not cover the saving of account rows read earlier, with which it is false; `StaleRows.WinsNeverOvercounted` and `SaveKeepsLedgerIff` say what holds then.
- Accounts.DeletionIsForever: does not cover the saving of account rows read earlier, with which it is false; `StaleRows.DeletionUndoneIff` and `DeletionSurvives` say what holds then.
- Server.AdminUseCase.DeleteUser: runs checks and transaction in one go; `CheckDeletable` and `DeleteTransaction` are its halves, and the results on stale checks are about the latter.
- Server.AuthUseCase.Logout: does not model the revocation of the access token and the user's activity time.
- Server.AuthUseCase.IssueSession: does not model the credential check of a login, only the token it issues.
- Accounts.DeletedStayGone: needs each use case to be one step; with stale checks `StepKeepsGoneIff` says which commits break it.
- Timers.LifeKeepsWorld: does not model a failing store write or a use case stopped between its commit and its timer write; `LateTimers` says what its records can name then.
- Server.GameUseCase.HandleTimeout: the database does not change between its two reads and the guess; the results on timeouts allow any answer to either read.
- Timers.TurnStore.ListExpiredTurns: does not model the parsing of key names or timers written during the scan. The worker that calls `HandleTimeout` is left out: a timeout may come at any time for any game and player.
- Whether a turn timeout ever fires, and the chances of the random draws beyond the bijection.
- Ranking.RankingUseCase.Rebuild: an insertion sort stands for the library sort, which `RankingUnique` shows does not matter; the table is kept in rank order and its lock and schedule are left out.
- Backup.SuccessfulSyncIsFullCopy: a sync never deletes backup rows, so the backup may hold rows the primary no longer has; a full copy by upserts would keep them too.
- Backup rows are opaque contents with a stamp; the columns of the seven tables are not distinguished. Deployments without a status store or a syncer are not modelled.
- RateLimit.RateLimiter.Allow: the mutex is not modelled, a call is one step; the new capacity of a grown slice is one of the library's possible choices.
- `AutoLogout` appears only as the revocation of a user's tokens.
- Time is an integer number of nanoseconds without calendar or overflow, and counters are unbounded integers.
- Cron workers, configuration, paging, searching, CSV export and log purging: easy members only.
