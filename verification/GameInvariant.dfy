/** The invariant of games and their guess logs, and its proof for every commit. */
module GameInvariant {
  import opened Common
  import opened Digits
  import opened Model
  import opened Secrets
  import opened Duel
  import opened Effects

  /** Player 1 moves on odd turns, player 2 on even ones. */
  function Mover(g: Game, turn: int): Uuid {
    if turn % 2 == 1 then g.player1 else g.player2
  }

  ghost predicate SecretOk(cfg: Config, stored: string, gid: Uuid, slot: int) {
    stored == "" || exists d: Number :: stored == Hashed(cfg.hasher, d, gid, slot)
  }

  ghost predicate RowOk(cfg: Config, users: set<Uuid>, gid: Uuid, g: Game) {
    && g.player1 in users && g.player2 in users && g.player1 != g.player2
    && SecretOk(cfg, g.secret1, gid, 1) && SecretOk(cfg, g.secret2, gid, 2)
    && match g.status
       case WaitingSecret =>
         && !g.BothSecretsSet() && g.turn == 1 && g.turnPlayer.None?
         && g.winner.None? && g.startedAt.None? && g.finishedAt.None?
       case InProgress =>
         && g.BothSecretsSet() && g.turn >= 1 && g.turnPlayer == Some(Mover(g, g.turn))
         && g.winner.None? && g.startedAt.Some? && g.finishedAt.None?
       case Finished =>
         && g.finishedAt.Some?
         && if g.winner.Some? then
              && g.BothSecretsSet() && g.turn >= 2 && g.startedAt.Some?
              && g.winner == Some(Mover(g, g.turn - 1)) && g.turnPlayer == Some(Mover(g, g.turn))
            else
              && g.turn == 1 && g.turnPlayer.None? && g.startedAt.None?
  }

  /** One row of a game's log: its turn has been played, by the player whose turn it was; its
      verdict is what the stored secret of the opponent says of the guessed text; and it is a full
      hit exactly when it is the guess that won. */
  ghost predicate GuessOk(cfg: Config, gid: Uuid, g: Game, r: Guess) {
    && 1 <= r.turn < g.turn
    && r.player == Mover(g, r.turn)
    && r.hitCount == Hits(r.results)
    && Parse(r.number).Ok?
    && Verified(cfg.hasher, TargetSecret(g, r.player), Parse(r.number).value, gid, TargetSlot(g, r.player))
       == Ok(r.results)
    && (FullHit(r.results) <==> g.winner.Some? && r.turn == g.turn - 1)
  }

  ghost predicate HasTurn(guesses: map<Uuid, Guess>, gid: Uuid, turn: int) {
    exists id :: id in guesses && guesses[id].game == gid && guesses[id].turn == turn
  }

  /** The log of a game: turns 1 to turn - 1, each played once. */
  ghost predicate LogOk(cfg: Config, guesses: map<Uuid, Guess>, gid: Uuid, g: Game) {
    && (forall id | id in guesses && guesses[id].game == gid :: GuessOk(cfg, gid, g, guesses[id]))
    && (forall i, j | i in guesses && j in guesses && guesses[i].game == gid && guesses[j].game == gid
                      && guesses[i].turn == guesses[j].turn :: i == j)
    && (forall t | 1 <= t < g.turn :: HasTurn(guesses, gid, t))
  }

  ghost predicate GameOk(cfg: Config, users: set<Uuid>, guesses: map<Uuid, Guess>, gid: Uuid, g: Game) {
    RowOk(cfg, users, gid, g) && LogOk(cfg, guesses, gid, g)
  }

  ghost predicate GamesOk(cfg: Config, users: set<Uuid>, games: map<Uuid, Game>, guesses: map<Uuid, Guess>) {
    && NIL !in users
    && (forall gid | gid in games :: GameOk(cfg, users, guesses, gid, games[gid]))
    && (forall id | id in guesses :: guesses[id].game in games)
  }

  ghost predicate GamesInv(cfg: Config, db: Db) {
    GamesOk(cfg, db.users.Keys, db.games, db.guesses)
  }

  // ---------- Frames ----------

  lemma MoreUsers(cfg: Config, users: set<Uuid>, more: set<Uuid>, games: map<Uuid, Game>, guesses: map<Uuid, Guess>)
    requires GamesOk(cfg, users, games, guesses) && users <= more && NIL !in more
    ensures GamesOk(cfg, more, games, guesses)
  {
    forall gid | gid in games ensures GameOk(cfg, more, guesses, gid, games[gid]) {
      assert GameOk(cfg, users, guesses, gid, games[gid]);
    }
  }

  lemma OneGameChanged(cfg: Config, users: set<Uuid>, games: map<Uuid, Game>, guesses: map<Uuid, Guess>, gid: Uuid,
                       g: Game)
    requires GamesOk(cfg, users, games, guesses) && GameOk(cfg, users, guesses, gid, g)
    ensures GamesOk(cfg, users, games[gid := g], guesses)
  {
  }

  lemma NoGuessesYet(cfg: Config, guesses: map<Uuid, Guess>, gid: Uuid, g: Game)
    requires g.turn == 1 && forall id | id in guesses :: guesses[id].game != gid
    ensures LogOk(cfg, guesses, gid, g)
  {
  }

  /** A game still at turn 1 has an empty log, so its row may change freely as long as it stays there. */
  lemma UnplayedGameChanged(cfg: Config, db: Db, gid: Uuid, g: Game)
    requires GamesInv(cfg, db) && gid in db.games && db.games[gid].turn == 1 && g.turn == 1
    requires RowOk(cfg, db.users.Keys, gid, g)
    ensures GamesInv(cfg, db.(games := db.games[gid := g]))
  {
    assert LogOk(cfg, db.guesses, gid, db.games[gid]) by {
      assert GameOk(cfg, db.users.Keys, db.guesses, gid, db.games[gid]);
    }
    NoGuessesYet(cfg, db.guesses, gid, g);
    OneGameChanged(cfg, db.users.Keys, db.games, db.guesses, gid, g);
  }

  // ---------- The commits ----------

  lemma SecretRowOk(cfg: Config, users: set<Uuid>, gid: Uuid, g: Game, user: Uuid, digits: Number, now: Time)
    requires RowOk(cfg, users, gid, g) && g.status == WaitingSecret && g.IsParticipant(user)
    ensures RowOk(cfg, users, gid, SecretRow(cfg, g, gid, user, digits, now))
    ensures SecretRow(cfg, g, gid, user, digits, now).turn == 1
  {
    var g1 := SecretRow(cfg, g, gid, user, digits, now);
    assert user == g.player1 ==> g1.secret1 == Hashed(cfg.hasher, digits, gid, 1);
    assert user == g.player2 ==> g1.secret2 == Hashed(cfg.hasher, digits, gid, 2);
  }

  lemma SetSecretKeepsGames(cfg: Config, db: Db, user: Uuid, gid: Uuid, digits: Number, now: Time)
    requires GamesInv(cfg, db)
    ensures GamesInv(cfg, SetSecretTx(cfg, db, user, gid, digits, now).0)
  {
    if SetSecretTx(cfg, db, user, gid, digits, now).1.Ok? {
      SetSecretEffect(cfg, db, user, gid, digits, now);
      assert GameOk(cfg, db.users.Keys, db.guesses, gid, db.games[gid]);
      SecretRowOk(cfg, db.users.Keys, gid, db.games[gid], user, digits, now);
      UnplayedGameChanged(cfg, db, gid, SecretRow(cfg, db.games[gid], gid, user, digits, now));
    } else {
      SetSecretFails(cfg, db, user, gid, digits, now);
    }
  }

  lemma CancelKeepsGames(cfg: Config, db: Db, gid: Uuid, now: Time)
    requires GamesInv(cfg, db)
    ensures GamesInv(cfg, CancelTx(cfg, db, gid, now).0)
  {
    var (db1, cancelled) := CancelTx(cfg, db, gid, now);
    if cancelled {
      assert GameOk(cfg, db.users.Keys, db.guesses, gid, db.games[gid]);
      UnplayedGameChanged(cfg, db, gid, db1.games[gid]);
    }
  }

  lemma NewGameKeepsGames(cfg: Config, db: Db, gid: Uuid, u1: Uuid, u2: Uuid, now: Time)
    requires GamesInv(cfg, db) && gid !in db.games && u1 in db.users && u2 in db.users && u1 != u2
    ensures GamesOk(cfg, db.users.Keys, db.games[gid := NewGame(u1, u2, now)], db.guesses)
  {
    NoGuessesYet(cfg, db.guesses, gid, NewGame(u1, u2, now));
    OneGameChanged(cfg, db.users.Keys, db.games, db.guesses, gid, NewGame(u1, u2, now));
  }

  /** A guess by the player to move extends the log by one turn. */
  lemma LogExtended(cfg: Config, guesses: map<Uuid, Guess>, gid: Uuid, g: Game, g1: Game, id: Uuid, row: Guess)
    requires LogOk(cfg, guesses, gid, g) && g.winner.None? && id !in guesses && row.game == gid
    requires (g1.player1, g1.player2, g1.secret1, g1.secret2) == (g.player1, g.player2, g.secret1, g.secret2)
    requires g1.turn == g.turn + 1 && row.turn == g.turn >= 1 && GuessOk(cfg, gid, g1, row)
    ensures LogOk(cfg, guesses[id := row], gid, g1)
  {
    var after := guesses[id := row];
    forall i | i in after && after[i].game == gid ensures GuessOk(cfg, gid, g1, after[i]) {
      if i != id {
        assert GuessOk(cfg, gid, g, guesses[i]);
      }
    }
    forall i, j | i in after && j in after && after[i].game == gid && after[j].game == gid
                  && after[i].turn == after[j].turn
      ensures i == j
    {
      if i != id { assert GuessOk(cfg, gid, g, guesses[i]); }
      if j != id { assert GuessOk(cfg, gid, g, guesses[j]); }
    }
    forall t | 1 <= t < g1.turn ensures HasTurn(after, gid, t) {
      if t == g.turn {
        assert after[id].turn == t;
      } else {
        assert HasTurn(guesses, gid, t);
        var i :| i in guesses && guesses[i].game == gid && guesses[i].turn == t;
        assert after[i].turn == t;
      }
    }
  }

  lemma OtherLogUntouched(cfg: Config, guesses: map<Uuid, Guess>, gid: Uuid, g: Game, id: Uuid, row: Guess)
    requires LogOk(cfg, guesses, gid, g) && id !in guesses && row.game != gid
    ensures LogOk(cfg, guesses[id := row], gid, g)
  {
    var after := guesses[id := row];
    forall t | 1 <= t < g.turn ensures HasTurn(after, gid, t) {
      assert HasTurn(guesses, gid, t);
      var i :| i in guesses && guesses[i].game == gid && guesses[i].turn == t;
      assert i in after && after[i] == guesses[i];
    }
  }

  lemma GuessKeepsOtherGames(cfg: Config, users: set<Uuid>, games: map<Uuid, Game>, guesses: map<Uuid, Guess>,
                             gid: Uuid, g1: Game, id: Uuid, row: Guess)
    requires GamesOk(cfg, users, games, guesses) && gid in games && id !in guesses && row.game == gid
    requires GameOk(cfg, users, guesses[id := row], gid, g1)
    ensures GamesOk(cfg, users, games[gid := g1], guesses[id := row])
  {
    forall h | h in games && h != gid ensures GameOk(cfg, users, guesses[id := row], h, games[h]) {
      assert GameOk(cfg, users, guesses, h, games[h]);
      OtherLogUntouched(cfg, guesses, h, games[h], id, row);
    }
  }

  /** The unique index on (game, turn, player) has no row for the turn to be played. */
  lemma NextTurnFree(cfg: Config, guesses: map<Uuid, Guess>, gid: Uuid, g: Game, player: Uuid)
    requires LogOk(cfg, guesses, gid, g)
    ensures !TurnTaken(guesses, gid, g.turn, player)
  {
    forall id | id in guesses && guesses[id].game == gid ensures guesses[id].turn != g.turn {
      assert GuessOk(cfg, gid, g, guesses[id]);
    }
  }

  /** Why a guess is turned down. */
  function Refusal(db: Db, user: Uuid, gid: Uuid): Option<Error> {
    if gid !in db.games then Some(NotFound)
    else if !db.games[gid].IsParticipant(user) then Some(Forbidden)
    else if TargetSecret(db.games[gid], user) == "" then Some(BadRequest)
    else if db.games[gid].status != InProgress then Some(GameNotStarted)
    else if db.games[gid].turnPlayer != Some(user) then Some(NotYourTurn)
    else None
  }

  /** In a good state a commit of a guess never meets the unique indexes, a badly formed secret or
      a missing user: given unused ids it fails only for the reasons a player can see. */
  lemma GuessFailsOnlyVisibly(cfg: Config, db: Db, user: Uuid, gid: Uuid, digits: Number, isAuto: bool, now: Time,
                              ids: Ids)
    requires HexDigests(cfg.hasher) && GamesInv(cfg, db)
    requires ids.guess !in db.guesses && ids.history !in db.histories
    requires gid in db.games && db.games[gid].status == InProgress ==> !HasHistory(db.histories, gid)
    ensures var r := GuessTx(cfg, db, user, gid, digits, isAuto, now, ids).1;
            match Refusal(db, user, gid)
            case Some(e) => r == Err(e)
            case None => r.Ok?
  {
    if gid in db.games && db.games[gid].IsParticipant(user) {
      var g := db.games[gid];
      assert GameOk(cfg, db.users.Keys, db.guesses, gid, g);
      var stored := TargetSecret(g, user);
      if stored != "" {
        assert SecretOk(cfg, stored, gid, TargetSlot(g, user));
        var d: Number :| stored == Hashed(cfg.hasher, d, gid, TargetSlot(g, user));
        HashedVerifies(cfg.hasher, d, digits, gid, TargetSlot(g, user));
        NextTurnFree(cfg, db.guesses, gid, g, user);
      }
    }
  }

  /** The row after an accepted guess that the verdict `results` was given to. */
  function GuessedRow(g: Game, user: Uuid, results: FourResults, now: Time): Game {
    var g1 := g.(turn := g.turn + 1, turnPlayer := Some(Mover(g, g.turn + 1)));
    if FullHit(results) then g1.(status := Finished, winner := Some(user), finishedAt := Some(now)) else g1
  }

  lemma MoverAdvances(cfg: Config, users: set<Uuid>, gid: Uuid, g: Game, user: Uuid)
    requires RowOk(cfg, users, gid, g) && Advanced(g, user).Ok?
    ensures user == Mover(g, g.turn)
    ensures Advanced(g, user).value == g.(turn := g.turn + 1, turnPlayer := Some(Mover(g, g.turn + 1)))
  {
  }

  /** A full hit always finishes the game: both players have user rows, so the branch of the code
      that commits the guess alone is never taken. */
  lemma WinningGuess(cfg: Config, db: Db, user: Uuid, gid: Uuid, digits: Number, isAuto: bool, now: Time,
                     ids: Ids)
    requires gid in db.games && RowOk(cfg, db.users.Keys, gid, db.games[gid])
    requires GuessTx(cfg, db, user, gid, digits, isAuto, now, ids).1.Ok?
    requires GuessTx(cfg, db, user, gid, digits, isAuto, now, ids).1.value.isWin
    ensures Verdict(cfg, db.games[gid], gid, user, digits).Ok?
    ensures user in db.users && OpponentOf(db.games[gid], user).Ok? && OpponentOf(db.games[gid], user).value in db.users
    ensures ids.history !in db.histories && !HasHistory(db.histories, gid)
    ensures var g, results := db.games[gid], Verdict(cfg, db.games[gid], gid, user, digits).value;
            var loser := OpponentOf(g, user).value;
            GuessTx(cfg, db, user, gid, digits, isAuto, now, ids).0 ==
            db.(guesses := db.guesses[ids.guess := GuessRow(g, gid, user, digits, results, isAuto)],
                games := db.games[gid := GuessedRow(g, user, results, now)],
                histories := db.histories[ids.history := History(gid, user, loser, db.users[user].username,
                                                               db.users[loser].username, now)],
                users := db.users[user := db.users[user].(winCount := db.users[user].winCount + 1)])
  {
    GuessEffect(cfg, db, user, gid, digits, isAuto, now, ids);
    var g, results := db.games[gid], Verdict(cfg, db.games[gid], gid, user, digits).value;
    MoverAdvances(cfg, db.users.Keys, gid, g, user);
    var mid := db.(guesses := db.guesses[ids.guess := GuessRow(g, gid, user, digits, results, isAuto)]);
    FinishEffect(db, mid, gid, Advanced(g, user).value, user, now, ids.history);
  }

  /** A guess that is not a full hit passes the turn on. */
  lemma OpenGuess(cfg: Config, db: Db, user: Uuid, gid: Uuid, digits: Number, isAuto: bool, now: Time,
                  ids: Ids)
    requires gid in db.games && RowOk(cfg, db.users.Keys, gid, db.games[gid])
    requires GuessTx(cfg, db, user, gid, digits, isAuto, now, ids).1.Ok?
    requires !GuessTx(cfg, db, user, gid, digits, isAuto, now, ids).1.value.isWin
    ensures Verdict(cfg, db.games[gid], gid, user, digits).Ok?
    ensures var g, results := db.games[gid], Verdict(cfg, db.games[gid], gid, user, digits).value;
            GuessTx(cfg, db, user, gid, digits, isAuto, now, ids).0 ==
            db.(guesses := db.guesses[ids.guess := GuessRow(g, gid, user, digits, results, isAuto)],
                games := db.games[gid := GuessedRow(g, user, results, now)])
  {
    GuessEffect(cfg, db, user, gid, digits, isAuto, now, ids);
    MoverAdvances(cfg, db.users.Keys, gid, db.games[gid], user);
  }

  /** What is recorded besides the game's row and its log: one history row and one more win for
      `user` if the verdict is a full hit, and nothing otherwise. */
  ghost predicate WinRecorded(db: Db, db1: Db, gid: Uuid, user: Uuid, results: FourResults, now: Time,
                              historyId: Uuid) {
    if FullHit(results) then
      && gid in db.games && user in db.users && historyId !in db.histories
      && OpponentOf(db.games[gid], user).Ok? && OpponentOf(db.games[gid], user).value in db.users
      && var loser := OpponentOf(db.games[gid], user).value;
         && db1.users == db.users[user := db.users[user].(winCount := db.users[user].winCount + 1)]
         && db1.histories == db.histories[historyId := History(gid, user, loser, db.users[user].username,
                                                               db.users[loser].username, now)]
    else db1.users == db.users && db1.histories == db.histories
  }

  /** An accepted guess is by the player to move. It adds one row to the log, either passes the turn
      on or finishes the game, and records a win exactly when it hits the secret. */
  lemma AcceptedGuess(cfg: Config, db: Db, user: Uuid, gid: Uuid, digits: Number, isAuto: bool, now: Time,
                      ids: Ids)
    requires GamesInv(cfg, db)
    requires GuessTx(cfg, db, user, gid, digits, isAuto, now, ids).1.Ok?
    ensures gid in db.games && Verdict(cfg, db.games[gid], gid, user, digits).Ok?
    ensures var db1 := GuessTx(cfg, db, user, gid, digits, isAuto, now, ids).0;
            var g, results := db.games[gid], Verdict(cfg, db.games[gid], gid, user, digits).value;
            && g.status == InProgress && user == Mover(g, g.turn)
            && ids.guess !in db.guesses
            && db1.guesses == db.guesses[ids.guess := GuessRow(g, gid, user, digits, results, isAuto)]
            && db1.games == db.games[gid := GuessedRow(g, user, results, now)]
            && db1.users.Keys == db.users.Keys && db1.queue == db.queue && db1.tokens == db.tokens
            && WinRecorded(db, db1, gid, user, results, now, ids.history)
  {
    GuessEffect(cfg, db, user, gid, digits, isAuto, now, ids);
    assert GameOk(cfg, db.users.Keys, db.guesses, gid, db.games[gid]);
    MoverAdvances(cfg, db.users.Keys, gid, db.games[gid], user);
    if GuessTx(cfg, db, user, gid, digits, isAuto, now, ids).1.value.isWin {
      WinningGuess(cfg, db, user, gid, digits, isAuto, now, ids);
    } else {
      OpenGuess(cfg, db, user, gid, digits, isAuto, now, ids);
    }
  }

  /** The rows an accepted guess writes, without the reasons. */
  lemma AcceptedRows(cfg: Config, db: Db, user: Uuid, gid: Uuid, digits: Number, isAuto: bool, now: Time, ids: Ids)
    returns (row: Guess)
    requires GamesInv(cfg, db)
    requires GuessTx(cfg, db, user, gid, digits, isAuto, now, ids).1.Ok?
    ensures gid in db.games && db.games[gid].status == InProgress && ids.guess !in db.guesses && row.game == gid
    ensures var db1 := GuessTx(cfg, db, user, gid, digits, isAuto, now, ids).0;
            && db1.games == db.games[gid := GuessedRow(db.games[gid], user, row.results, now)]
            && db1.guesses == db.guesses[ids.guess := row]
            && db1.queue == db.queue && db1.tokens == db.tokens
  {
    AcceptedGuess(cfg, db, user, gid, digits, isAuto, now, ids);
    row := GuessRow(db.games[gid], gid, user, digits, Verdict(cfg, db.games[gid], gid, user, digits).value, isAuto);
  }

  lemma GuessedRowOk(cfg: Config, users: set<Uuid>, gid: Uuid, g: Game, user: Uuid, digits: Number,
                     results: FourResults, isAuto: bool, now: Time)
    requires RowOk(cfg, users, gid, g) && g.status == InProgress && user == Mover(g, g.turn)
    requires Verdict(cfg, g, gid, user, digits) == Ok(results)
    ensures RowOk(cfg, users, gid, GuessedRow(g, user, results, now))
    ensures GuessOk(cfg, gid, GuessedRow(g, user, results, now), GuessRow(g, gid, user, digits, results, isAuto))
  {
    ParseFormat(digits);
  }

  lemma GuessKeepsGames(cfg: Config, db: Db, user: Uuid, gid: Uuid, digits: Number, isAuto: bool, now: Time,
                        ids: Ids)
    requires GamesInv(cfg, db)
    ensures GamesInv(cfg, GuessTx(cfg, db, user, gid, digits, isAuto, now, ids).0)
  {
    if GuessTx(cfg, db, user, gid, digits, isAuto, now, ids).1.Err? {
      GuessFails(cfg, db, user, gid, digits, isAuto, now, ids);
    } else {
      AcceptedGuess(cfg, db, user, gid, digits, isAuto, now, ids);
      var g := db.games[gid];
      var results := Verdict(cfg, g, gid, user, digits).value;
      var g1, row := GuessedRow(g, user, results, now), GuessRow(g, gid, user, digits, results, isAuto);
      assert GameOk(cfg, db.users.Keys, db.guesses, gid, g);
      GuessedRowOk(cfg, db.users.Keys, gid, g, user, digits, results, isAuto, now);
      LogExtended(cfg, db.guesses, gid, g, g1, ids.guess, row);
      GuessKeepsOtherGames(cfg, db.users.Keys, db.games, db.guesses, gid, g1, ids.guess, row);
    }
  }

  lemma RegisterKeepsGames(cfg: Config, db: Db, id: NewUuid, username: string, role: Role)
    requires GamesInv(cfg, db)
    ensures GamesInv(cfg, RegisterTx(db, id, username, role).0)
  {
    MoreUsers(cfg, db.users.Keys, RegisterTx(db, id, username, role).0.users.Keys, db.games, db.guesses);
  }

  lemma DeleteKeepsGames(cfg: Config, db: Db, admin: Uuid, target: Uuid, now: Time)
    requires GamesInv(cfg, db)
    ensures GamesInv(cfg, Deleted(db, admin, target, now))
  {
    DeleteUserEffect(db, admin, target, now);
  }

  lemma MatchKeepsGames(cfg: Config, db: Db, s: Step)
    requires GamesInv(cfg, db) && s.StartMatching?
    ensures GamesInv(cfg, Apply(cfg, db, s))
  {
    var mid := Queued(db, s.caller, s.insertedAt, s.entryId);
    if s.entryId !in db.queue && OldestFirst(mid.queue, 2, s.picked) {
      MatchEffect(db, mid, s.picked, s.createdAt, s.gameId);
      var r := MatchTx(db, mid, s.picked, s.createdAt, s.gameId).1;
      if r.Ok? && r.value.Some? {
        NewGameKeepsGames(cfg, db, s.gameId, mid.queue[s.picked[0]].user, mid.queue[s.picked[1]].user, s.createdAt);
      }
    }
  }

  lemma StepKeepsGames(cfg: Config, db: Db, s: Step)
    requires GamesInv(cfg, db)
    ensures GamesInv(cfg, Apply(cfg, db, s))
  {
    match s
    case Register(id, username, role) => RegisterKeepsGames(cfg, db, id, username, role);
    case DeleteUser(admin, target, now) => DeleteKeepsGames(cfg, db, admin, target, now);
    case SetSecret(user, gid, digits, now) => SetSecretKeepsGames(cfg, db, user, gid, digits, now);
    case SubmitGuess(user, gid, digits, isAuto, now, ids) =>
      GuessKeepsGames(cfg, db, user, gid, digits, isAuto, now, ids);
    case CancelGame(gid, now) => CancelKeepsGames(cfg, db, gid, now);
    case StartMatching(_, _, _, _, _, _) => MatchKeepsGames(cfg, db, s);
    case LeaveQueue(_) =>
    case TokenStep(_) =>
  }

  lemma {:induction false} RunKeepsGames(cfg: Config, db: Db, steps: seq<Step>)
    requires GamesInv(cfg, db)
    ensures GamesInv(cfg, Run(cfg, db, steps))
    decreases |steps|
  {
    if steps != [] {
      StepKeepsGames(cfg, db, steps[0]);
      RunKeepsGames(cfg, Apply(cfg, db, steps[0]), steps[1..]);
    }
  }
}
