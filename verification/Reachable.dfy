/** What holds in every state any sequence of commits can reach, and what no commit can undo. */
module Reachable {
  import opened Common
  import opened Digits
  import opened Model
  import opened Secrets
  import opened Duel
  import opened Effects
  import opened GameInvariant
  import opened Ledger
  import opened Matchmaking
  import Ranking

  ghost predicate Inv(cfg: Config, db: Db) {
    && GamesInv(cfg, db)
    && LedgerInv(db)
    && MatchInv(db)
    && Ranking.UniqueNames(db.users)
  }

  /** Apart from registration, no commit adds, removes, renames or promotes a user, and only an
      administrator's deletion deletes one. */
  ghost predicate SameAccounts(users: map<Uuid, User>, users1: map<Uuid, User>) {
    && users1.Keys == users.Keys
    && forall u | u in users ::
         (users1[u].username, users1[u].role, users1[u].deletedAt)
         == (users[u].username, users[u].role, users[u].deletedAt)
  }

  lemma StepKeepsAccounts(cfg: Config, db: Db, s: Step)
    requires GamesInv(cfg, db) && !s.Register? && !s.DeleteUser?
    ensures SameAccounts(db.users, Apply(cfg, db, s).users)
  {
    match s
    case SetSecret(user, gid, digits, now) => SecretKeepsAccounts(cfg, db, user, gid, digits, now);
    case SubmitGuess(user, gid, digits, isAuto, now, ids) =>
      GuessKeepsAccounts(cfg, db, user, gid, digits, isAuto, now, ids);
    case CancelGame(gid, now) => CancelEffect(cfg, db, gid, now);
    case StartMatching(user, now, entryId, picked, later, gameId) =>
      if OldestFirst(Queued(db, user, now, entryId).queue, 2, picked) {
        StartKeepsAccounts(db, user, now, entryId, picked, later, gameId);
      }
    case LeaveQueue(_) =>
    case TokenStep(t) => TokenFrame(db, t);
  }

  lemma SecretKeepsAccounts(cfg: Config, db: Db, user: Uuid, gid: Uuid, digits: Number, now: Time)
    ensures SetSecretTx(cfg, db, user, gid, digits, now).0.users == db.users
    ensures SetSecretTx(cfg, db, user, gid, digits, now).0.tokens == db.tokens
  {
    if SetSecretTx(cfg, db, user, gid, digits, now).1.Ok? {
      SetSecretEffect(cfg, db, user, gid, digits, now);
    } else {
      SetSecretFails(cfg, db, user, gid, digits, now);
    }
  }

  lemma StartKeepsAccounts(db: Db, user: Uuid, now: Time, entryId: Uuid, picked: seq<Uuid>, later: Time, gameId: Uuid)
    requires OldestFirst(Queued(db, user, now, entryId).queue, 2, picked)
    ensures StartTx(db, user, now, entryId, picked, later, gameId).0.users == db.users
  {
    if entryId !in db.queue {
      MatchEffect(db, Queued(db, user, now, entryId), picked, later, gameId);
    }
  }

  lemma GuessKeepsAccounts(cfg: Config, db: Db, user: Uuid, gid: Uuid, digits: Number, isAuto: bool, now: Time,
                           ids: Ids)
    requires GamesInv(cfg, db)
    ensures SameAccounts(db.users, GuessTx(cfg, db, user, gid, digits, isAuto, now, ids).0.users)
  {
    if GuessTx(cfg, db, user, gid, digits, isAuto, now, ids).1.Err? {
      GuessFails(cfg, db, user, gid, digits, isAuto, now, ids);
    } else {
      GuessEffect(cfg, db, user, gid, digits, isAuto, now, ids);
      assert GameOk(cfg, db.users.Keys, db.guesses, gid, db.games[gid]);
      if GuessTx(cfg, db, user, gid, digits, isAuto, now, ids).1.value.isWin {
        WinKeepsAccounts(cfg, db, user, gid, digits, isAuto, now, ids);
      } else {
        OpenGuess(cfg, db, user, gid, digits, isAuto, now, ids);
      }
    }
  }

  lemma WinKeepsAccounts(cfg: Config, db: Db, user: Uuid, gid: Uuid, digits: Number, isAuto: bool, now: Time,
                         ids: Ids)
    requires gid in db.games && RowOk(cfg, db.users.Keys, gid, db.games[gid])
    requires GuessTx(cfg, db, user, gid, digits, isAuto, now, ids).1.Ok?
    requires GuessTx(cfg, db, user, gid, digits, isAuto, now, ids).1.value.isWin
    ensures SameAccounts(db.users, GuessTx(cfg, db, user, gid, digits, isAuto, now, ids).0.users)
  {
    WinningGuess(cfg, db, user, gid, digits, isAuto, now, ids);
  }

  lemma RegisterKeepsNames(db: Db, id: NewUuid, username: string, role: Role)
    requires Ranking.UniqueNames(db.users)
    ensures Ranking.UniqueNames(RegisterTx(db, id, username, role).0.users)
  {
  }

  lemma StepKeepsNames(cfg: Config, db: Db, s: Step)
    requires GamesInv(cfg, db) && Ranking.UniqueNames(db.users)
    ensures Ranking.UniqueNames(Apply(cfg, db, s).users)
  {
    match s
    case Register(id, username, role) => RegisterKeepsNames(db, id, username, role);
    case DeleteUser(admin, target, now) => DeleteUserEffect(db, admin, target, now);
    case _ => StepKeepsAccounts(cfg, db, s);
  }

  lemma StepKeepsInv(cfg: Config, db: Db, s: Step)
    requires Inv(cfg, db)
    ensures Inv(cfg, Apply(cfg, db, s))
  {
    StepKeepsGames(cfg, db, s);
    StepKeepsLedger(cfg, db, s);
    StepKeepsMatching(cfg, db, s);
    StepKeepsNames(cfg, db, s);
  }

  lemma SameDbSameInv(cfg: Config, db: Db, db1: Db)
    requires Inv(cfg, db) && db1 == db
    ensures Inv(cfg, db1)
  {
  }

  lemma SecretKeepsInv(cfg: Config, db: Db, user: Uuid, gid: Uuid, digits: Number, now: Time)
    requires Inv(cfg, db)
    ensures Inv(cfg, SetSecretTx(cfg, db, user, gid, digits, now).0)
  {
    var s := SetSecret(user, gid, digits, now);
    StepKeepsInv(cfg, db, s);
    SameDbSameInv(cfg, Apply(cfg, db, s), SetSecretTx(cfg, db, user, gid, digits, now).0);
  }

  lemma GuessKeepsInv(cfg: Config, db: Db, user: Uuid, gid: Uuid, digits: Number, isAuto: bool, now: Time,
                      ids: Ids)
    requires Inv(cfg, db)
    ensures Inv(cfg, GuessTx(cfg, db, user, gid, digits, isAuto, now, ids).0)
  {
    var s := SubmitGuess(user, gid, digits, isAuto, now, ids);
    StepKeepsInv(cfg, db, s);
    SameDbSameInv(cfg, Apply(cfg, db, s), GuessTx(cfg, db, user, gid, digits, isAuto, now, ids).0);
  }

  lemma CancelKeepsInv(cfg: Config, db: Db, gid: Uuid, now: Time)
    requires Inv(cfg, db)
    ensures Inv(cfg, CancelTx(cfg, db, gid, now).0)
  {
    var s := CancelGame(gid, now);
    StepKeepsInv(cfg, db, s);
    SameDbSameInv(cfg, Apply(cfg, db, s), CancelTx(cfg, db, gid, now).0);
  }

  lemma {:induction false} RunKeepsInv(cfg: Config, db: Db, steps: seq<Step>)
    requires Inv(cfg, db)
    ensures Inv(cfg, Run(cfg, db, steps))
    decreases |steps|
  {
    if steps != [] {
      StepKeepsInv(cfg, db, steps[0]);
      RunKeepsInv(cfg, Apply(cfg, db, steps[0]), steps[1..]);
    }
  }

  /** Some sequence of commits leads from the empty database to this one. */
  ghost predicate Reached(cfg: Config, db: Db) {
    exists steps :: Run(cfg, EMPTY_DB, steps) == db
  }

  lemma ReachedInv(cfg: Config, db: Db)
    requires Reached(cfg, db)
    ensures Inv(cfg, db)
  {
    var steps :| Run(cfg, EMPTY_DB, steps) == db;
    assert Inv(cfg, EMPTY_DB);
    RunKeepsInv(cfg, EMPTY_DB, steps);
  }

  // ---------- Main results ----------

  /** In every reachable state the win ledger balances: a user's win count is the number of history
      rows they won and the number of finished games that name them winner. Module StaleRows says how
      far this holds when account rows that were read earlier are saved. */
  lemma WinCountsBalance(cfg: Config, db: Db, u: Uuid)
    requires Reached(cfg, db) && u in db.users
    ensures db.users[u].winCount == |set h | h in db.histories && db.histories[h].winner == u|
    ensures db.users[u].winCount
            == |set g | g in db.games && db.games[g].status == Finished && db.games[g].winner == Some(u)|
  {
    ReachedInv(cfg, db);
    WonGamesAreFinished(cfg, db, u);
    CountsOf(db, u);
  }

  lemma CountsOf(db: Db, u: Uuid)
    requires LedgerInv(db) && u in db.users
    ensures db.users[u].winCount == |WonRows(db.histories, u)| == |WonGames(db.games, u)|
  {
  }

  lemma WonGamesAreFinished(cfg: Config, db: Db, u: Uuid)
    requires GamesInv(cfg, db)
    ensures WonGames(db.games, u)
            == set g | g in db.games && db.games[g].status == Finished && db.games[g].winner == Some(u)
  {
    forall g | g in db.games && db.games[g].winner == Some(u) ensures db.games[g].status == Finished {
      assert GameOk(cfg, db.users.Keys, db.guesses, g, db.games[g]);
    }
  }

  /** Where games and histories keep their invariants, as in every reachable state, every won game has
      exactly one history row, whose winner and loser are its two different players, and no other game
      has one. */
  lemma WonGameHasOneHistory(cfg: Config, db: Db, gid: Uuid)
    requires GamesInv(cfg, db) && HistoriesOk(db.games, db.histories) && gid in db.games
    ensures db.games[gid].winner.Some? <==> HasHistory(db.histories, gid)
    ensures forall h, k | h in db.histories && k in db.histories
                          && db.histories[h].game == gid == db.histories[k].game :: h == k
    ensures forall h | h in db.histories && db.histories[h].game == gid ::
              && db.games[gid].winner == Some(db.histories[h].winner)
              && db.histories[h].winner != db.histories[h].loser
              && {db.histories[h].winner, db.histories[h].loser} == {db.games[gid].player1, db.games[gid].player2}
  {
    assert GameOk(cfg, db.users.Keys, db.guesses, gid, db.games[gid]);
    HistoryOfGame(cfg, db.users.Keys, db.games, db.histories, gid);
  }

  lemma HistoryOfGame(cfg: Config, users: set<Uuid>, games: map<Uuid, Game>, histories: map<Uuid, History>, gid: Uuid)
    requires HistoriesOk(games, histories) && gid in games && RowOk(cfg, users, gid, games[gid])
    ensures games[gid].winner.Some? <==> HasHistory(histories, gid)
    ensures forall h, k | h in histories && k in histories && histories[h].game == gid == histories[k].game :: h == k
    ensures forall h | h in histories && histories[h].game == gid ::
              && games[gid].winner == Some(histories[h].winner)
              && histories[h].winner != histories[h].loser
              && {histories[h].winner, histories[h].loser} == {games[gid].player1, games[gid].player2}
  {
  }

  lemma OpenGameHasNoHistory(cfg: Config, db: Db, gid: Uuid)
    requires GamesInv(cfg, db) && HistoriesOk(db.games, db.histories)
    ensures gid in db.games && db.games[gid].status == InProgress ==> !HasHistory(db.histories, gid)
  {
    if gid in db.games && db.games[gid].status == InProgress {
      assert GameOk(cfg, db.users.Keys, db.guesses, gid, db.games[gid]);
      HistoryOfGame(cfg, db.users.Keys, db.games, db.histories, gid);
    }
  }

  /** Where games and histories keep their invariants a guess with unused ids is turned down only for a
      reason its player can see: never by a unique index, a badly stored secret or a missing account. */
  lemma GuessOutcome(cfg: Config, db: Db, user: Uuid, gid: Uuid, digits: Number, isAuto: bool, now: Time,
                     ids: Ids)
    requires HexDigests(cfg.hasher) && GamesInv(cfg, db) && HistoriesOk(db.games, db.histories)
    requires ids.guess !in db.guesses && ids.history !in db.histories
    ensures var r := GuessTx(cfg, db, user, gid, digits, isAuto, now, ids).1;
            match Refusal(db, user, gid)
            case Some(e) => r == Err(e)
            case None => r.Ok?
  {
    OpenGameHasNoHistory(cfg, db, gid);
    GuessFailsOnlyVisibly(cfg, db, user, gid, digits, isAuto, now, ids);
  }

  /** In every reachable state no user plays two games at once, no one plays themselves, and at
      most one user waits for an opponent. */
  lemma OneGameAtATime(cfg: Config, db: Db)
    requires Reached(cfg, db)
    ensures OneGameEach(db.games) && AtMostOneWaits(db.queue)
    ensures forall gid | gid in db.games :: db.games[gid].player1 != db.games[gid].player2
  {
    ReachedInv(cfg, db);
    forall gid | gid in db.games ensures db.games[gid].player1 != db.games[gid].player2 {
      assert GameOk(cfg, db.users.Keys, db.guesses, gid, db.games[gid]);
    }
  }

  /** Where games keep their invariant the verdict on every guess is the judgement of the opponent's
      secret, and the guess is that secret exactly when it is the last of a game that its player won. */
  lemma WinnerGuessedTheSecret(cfg: Config, db: Db, id: Uuid)
    requires HexDigests(cfg.hasher) && DigestsDistinct(cfg.hasher)
    requires GamesInv(cfg, db) && id in db.guesses
    ensures db.guesses[id].game in db.games && Parse(db.guesses[id].number).Ok?
    ensures var r := db.guesses[id];
            var g := db.games[r.game];
            exists secret: Number :: JudgedBy(cfg, g, r, Parse(r.number).value, secret)
  {
    var r := db.guesses[id];
    var g := db.games[r.game];
    assert GameOk(cfg, db.users.Keys, db.guesses, r.game, g);
    assert GuessOk(cfg, r.game, g, r);
    LoggedGuess(cfg, db.users.Keys, g, r);
  }

  /** `secret` is what the player of `r` had to find, and `r` is judged and acted on accordingly. */
  ghost predicate JudgedBy(cfg: Config, g: Game, r: Guess, guess: Four, secret: Number) {
    && TargetSecret(g, r.player) == Hashed(cfg.hasher, secret, r.game, TargetSlot(g, r.player))
    && r.results == Judge(secret, guess)
    && r.hitCount == Hits(r.results)
    && (guess == secret <==> g.winner == Some(r.player) && r.turn == g.turn - 1)
  }

  lemma LoggedGuess(cfg: Config, users: set<Uuid>, g: Game, r: Guess)
    requires HexDigests(cfg.hasher) && DigestsDistinct(cfg.hasher)
    requires RowOk(cfg, users, r.game, g) && GuessOk(cfg, r.game, g, r)
    ensures exists secret: Number :: JudgedBy(cfg, g, r, Parse(r.number).value, secret)
  {
    ParseAccepts(r.number);
    var guess := Parse(r.number).value;
    var stored, slot := TargetSecret(g, r.player), TargetSlot(g, r.player);
    assert SecretOk(cfg, stored, r.game, slot);
    var secret: Number :| stored == Hashed(cfg.hasher, secret, r.game, slot);
    VerifyAgreesWithJudge(cfg.hasher, secret, guess, r.game, slot);
    WinMeansSecretGuessed(secret, guess);
    assert JudgedBy(cfg, g, r, guess, secret);
  }

  // ---------- What no commit undoes ----------

  function Rank(s: GameStatus): nat {
    match s case WaitingSecret => 0 case InProgress => 1 case Finished => 2
  }

  /** A game only moves forward: its players stay, a stored secret stays, its status and
      turn never go back, and once finished nothing about it changes. */
  predicate Evolves(g: Game, g1: Game) {
    && (g1.player1, g1.player2, g1.createdAt) == (g.player1, g.player2, g.createdAt)
    && g.turn <= g1.turn
    && (g.secret1 != "" ==> g1.secret1 == g.secret1)
    && (g.secret2 != "" ==> g1.secret2 == g.secret2)
    && Rank(g.status) <= Rank(g1.status)
    && (g.status == Finished ==> g1 == g)
  }

  ghost predicate Preserves(db: Db, db1: Db) {
    && (forall gid | gid in db.games :: gid in db1.games && Evolves(db.games[gid], db1.games[gid]))
    && (forall id | id in db.guesses :: id in db1.guesses && db1.guesses[id] == db.guesses[id])
  }

  /** One commit: nothing is undone, and a new guess belongs to a game in progress. */
  ghost predicate Grows(db: Db, db1: Db) {
    && Preserves(db, db1)
    && (forall id | id in db1.guesses && id !in db.guesses ::
          db1.guesses[id].game in db.games && db.games[db1.guesses[id].game].status == InProgress)
  }

  lemma PreservesTransitive(a: Db, b: Db, c: Db)
    requires Preserves(a, b) && Preserves(b, c)
    ensures Preserves(a, c)
  {
  }

  lemma RowGrows(db: Db, gid: Uuid, g: Game)
    requires gid in db.games ==> Evolves(db.games[gid], g)
    ensures Grows(db, db.(games := db.games[gid := g]))
  {
  }

  lemma LogGrows(db: Db, db1: Db, gid: Uuid, g: Game, id: Uuid, row: Guess)
    requires gid in db.games && Evolves(db.games[gid], g) && db.games[gid].status == InProgress
    requires id !in db.guesses && row.game == gid
    requires db1.games == db.games[gid := g] && db1.guesses == db.guesses[id := row]
    ensures Grows(db, db1)
  {
  }

  lemma SetSecretGrows(cfg: Config, db: Db, s: Step)
    requires GamesInv(cfg, db) && s.SetSecret?
    ensures Grows(db, Apply(cfg, db, s))
  {
    var r := SetSecretTx(cfg, db, s.user, s.gid, s.digits, s.now).1;
    if r.Ok? {
      SetSecretEffect(cfg, db, s.user, s.gid, s.digits, s.now);
      assert GameOk(cfg, db.users.Keys, db.guesses, s.gid, db.games[s.gid]);
      RowGrows(db, s.gid, SecretRow(cfg, db.games[s.gid], s.gid, s.user, s.digits, s.now));
    } else {
      SetSecretFails(cfg, db, s.user, s.gid, s.digits, s.now);
    }
  }

  lemma CancelGrows(cfg: Config, db: Db, s: Step)
    requires s.CancelGame?
    ensures Grows(db, Apply(cfg, db, s))
  {
    CancelEffect(cfg, db, s.waiting, s.cancelledAt);
    if CancelTx(cfg, db, s.waiting, s.cancelledAt).1 {
      RowGrows(db, s.waiting, Expired(db.games[s.waiting], s.cancelledAt));
    }
  }

  lemma GuessedEvolves(g: Game, user: Uuid, results: FourResults, now: Time)
    requires g.status == InProgress
    ensures Evolves(g, GuessedRow(g, user, results, now))
  {
  }

  lemma GuessTxGrows(cfg: Config, db: Db, user: Uuid, gid: Uuid, digits: Number, isAuto: bool, now: Time, ids: Ids)
    requires GamesInv(cfg, db) && GuessTx(cfg, db, user, gid, digits, isAuto, now, ids).1.Ok?
    ensures Grows(db, GuessTx(cfg, db, user, gid, digits, isAuto, now, ids).0)
  {
    var row := AcceptedRows(cfg, db, user, gid, digits, isAuto, now, ids);
    GuessedEvolves(db.games[gid], user, row.results, now);
    LogGrows(db, GuessTx(cfg, db, user, gid, digits, isAuto, now, ids).0, gid,
             GuessedRow(db.games[gid], user, row.results, now), ids.guess, row);
  }

  lemma AnyGuessGrows(cfg: Config, db: Db, user: Uuid, gid: Uuid, digits: Number, isAuto: bool, now: Time, ids: Ids)
    requires GamesInv(cfg, db)
    ensures Grows(db, GuessTx(cfg, db, user, gid, digits, isAuto, now, ids).0)
  {
    if GuessTx(cfg, db, user, gid, digits, isAuto, now, ids).1.Ok? {
      GuessTxGrows(cfg, db, user, gid, digits, isAuto, now, ids);
    } else {
      GuessFails(cfg, db, user, gid, digits, isAuto, now, ids);
      SameRowsGrow(db, GuessTx(cfg, db, user, gid, digits, isAuto, now, ids).0);
    }
  }

  lemma GuessApplied(cfg: Config, db: Db, s: Step)
    requires s.SubmitGuess?
    ensures Apply(cfg, db, s) == GuessTx(cfg, db, s.player, s.game, s.guess, s.isAuto, s.at, s.ids).0
  {
  }

  lemma SameRowsGrow(db: Db, db1: Db)
    requires db1.games == db.games && db1.guesses == db.guesses
    ensures Grows(db, db1)
  {
  }

  lemma DeleteGrows(cfg: Config, db: Db, s: Step)
    requires s.DeleteUser?
    ensures Grows(db, Apply(cfg, db, s))
  {
    DeleteUserEffect(db, s.admin, s.target, s.deletedAt);
    SameRowsGrow(db, Deleted(db, s.admin, s.target, s.deletedAt));
  }

  lemma StartGrows(cfg: Config, db: Db, s: Step)
    requires s.StartMatching?
    ensures Grows(db, Apply(cfg, db, s))
  {
    var mid := Queued(db, s.caller, s.insertedAt, s.entryId);
    if s.entryId !in db.queue && OldestFirst(mid.queue, 2, s.picked) {
      MatchEffect(db, mid, s.picked, s.createdAt, s.gameId);
    }
  }

  lemma OtherGrows(cfg: Config, db: Db, s: Step)
    requires s.Register? || s.LeaveQueue? || s.TokenStep?
    ensures Grows(db, Apply(cfg, db, s))
  {
    if s.TokenStep? {
      TokenFrame(db, s.token);
    }
    SameRowsGrow(db, Apply(cfg, db, s));
  }

  lemma StepGrows(cfg: Config, db: Db, s: Step)
    requires GamesInv(cfg, db)
    ensures Grows(db, Apply(cfg, db, s))
  {
    match s
    case DeleteUser(_, _, _) => DeleteGrows(cfg, db, s);
    case SetSecret(_, _, _, _) => SetSecretGrows(cfg, db, s);
    case SubmitGuess(user, gid, digits, isAuto, now, ids) =>
      AnyGuessGrows(cfg, db, user, gid, digits, isAuto, now, ids);
      GuessApplied(cfg, db, s);
    case CancelGame(_, _) => CancelGrows(cfg, db, s);
    case StartMatching(_, _, _, _, _, _) => StartGrows(cfg, db, s);
    case _ => OtherGrows(cfg, db, s);
  }

  /** Guesses are never changed or deleted, and games only move forward, over any run. */
  lemma {:induction false} RunPreserves(cfg: Config, db: Db, steps: seq<Step>)
    requires GamesInv(cfg, db)
    ensures Preserves(db, Run(cfg, db, steps))
    decreases |steps|
  {
    if steps != [] {
      var mid := Apply(cfg, db, steps[0]);
      StepKeepsGames(cfg, db, steps[0]);
      StepGrows(cfg, db, steps[0]);
      RunPreserves(cfg, mid, steps[1..]);
      PreservesTransitive(db, mid, Run(cfg, mid, steps[1..]));
    }
  }

  function LogOf(guesses: map<Uuid, Guess>, gid: Uuid): map<Uuid, Guess> {
    map id | id in guesses && guesses[id].game == gid :: guesses[id]
  }

  lemma FinishedLogStays(db: Db, db1: Db, gid: Uuid)
    requires Grows(db, db1) && gid in db.games && db.games[gid].status == Finished
    ensures LogOf(db1.guesses, gid) == LogOf(db.guesses, gid)
  {
  }

  /** A finished game stays as it is, row and log, whatever is committed afterwards. */
  lemma {:induction false} FinishedIsForever(cfg: Config, db: Db, steps: seq<Step>, gid: Uuid)
    requires GamesInv(cfg, db) && gid in db.games && db.games[gid].status == Finished
    ensures gid in Run(cfg, db, steps).games && Run(cfg, db, steps).games[gid] == db.games[gid]
    ensures LogOf(Run(cfg, db, steps).guesses, gid) == LogOf(db.guesses, gid)
    decreases |steps|
  {
    if steps != [] {
      var mid := Apply(cfg, db, steps[0]);
      StepKeepsGames(cfg, db, steps[0]);
      StepGrows(cfg, db, steps[0]);
      FinishedLogStays(db, mid, gid);
      FinishedIsForever(cfg, mid, steps[1..], gid);
    }
  }

  // ---------- The declared column size ----------

  ghost predicate NoSecrets(db: Db) {
    && (forall gid | gid in db.games ::
          db.games[gid].secret1 == "" && db.games[gid].secret2 == "" && db.games[gid].status != InProgress)
    && db.guesses == map[]
  }

  /** A secret can be stored if and only if the column is at least 259 characters wide or its
      size is not enforced. */
  lemma SecretStoredIff(cfg: Config, db: Db, user: Uuid, gid: Uuid, digits: Number, now: Time)
    requires HexDigests(cfg.hasher)
    requires gid in db.games && db.games[gid].IsParticipant(user) && db.games[gid].status == WaitingSecret
    requires db.games[gid].secret1 == "" && db.games[gid].secret2 == ""
    ensures SetSecretTx(cfg, db, user, gid, digits, now).1
            == if cfg.secretColumn.None? || cfg.secretColumn.value >= 259 then Ok(false) else Err(ColumnOverflow)
  {
    HashedLength(cfg.hasher, digits, gid, if user == db.games[gid].player2 then 2 else 1);
  }

  lemma GuessNeedsSecret(cfg: Config, db: Db, user: Uuid, gid: Uuid, digits: Number, isAuto: bool, now: Time,
                         ids: Ids)
    requires NoSecrets(db)
    ensures GuessTx(cfg, db, user, gid, digits, isAuto, now, ids).0 == db
  {
  }

  lemma NarrowStep(cfg: Config, db: Db, s: Step)
    requires HexDigests(cfg.hasher) && cfg.secretColumn.Some? && cfg.secretColumn.value < 259
    requires NoSecrets(db)
    ensures NoSecrets(Apply(cfg, db, s))
  {
    match s
    case Register(_, _, _) =>
    case DeleteUser(admin, target, now) => DeleteUserEffect(db, admin, target, now);
    case SetSecret(user, gid, digits, now) => NarrowSecret(cfg, db, user, gid, digits, now);
    case SubmitGuess(user, gid, digits, isAuto, now, ids) =>
      GuessNeedsSecret(cfg, db, user, gid, digits, isAuto, now, ids);
    case CancelGame(gid, now) => CancelEffect(cfg, db, gid, now);
    case StartMatching(user, now, entryId, picked, later, gameId) =>
      if OldestFirst(Queued(db, user, now, entryId).queue, 2, picked) {
        NarrowStart(db, user, now, entryId, picked, later, gameId);
      }
    case LeaveQueue(_) =>
    case TokenStep(_) =>
  }

  lemma NarrowSecret(cfg: Config, db: Db, user: Uuid, gid: Uuid, digits: Number, now: Time)
    requires HexDigests(cfg.hasher) && cfg.secretColumn.Some? && cfg.secretColumn.value < 259 && NoSecrets(db)
    ensures SetSecretTx(cfg, db, user, gid, digits, now).0 == db
  {
    if gid in db.games && db.games[gid].IsParticipant(user) && db.games[gid].status == WaitingSecret {
      SecretStoredIff(cfg, db, user, gid, digits, now);
    }
    if SetSecretTx(cfg, db, user, gid, digits, now).1.Err? {
      SetSecretFails(cfg, db, user, gid, digits, now);
    }
  }

  lemma NarrowStart(db: Db, user: Uuid, now: Time, entryId: Uuid, picked: seq<Uuid>, later: Time, gameId: Uuid)
    requires NoSecrets(db) && OldestFirst(Queued(db, user, now, entryId).queue, 2, picked)
    ensures NoSecrets(StartTx(db, user, now, entryId, picked, later, gameId).0)
  {
    if entryId !in db.queue {
      MatchEffect(db, Queued(db, user, now, entryId), picked, later, gameId);
    }
  }

  /** Where the database enforces the declared 255 characters, no game ever starts. */
  lemma {:induction false} NarrowColumnStopsPlay(cfg: Config, db: Db, steps: seq<Step>)
    requires HexDigests(cfg.hasher) && cfg.secretColumn.Some? && cfg.secretColumn.value < 259
    requires NoSecrets(db)
    ensures NoSecrets(Run(cfg, db, steps))
    decreases |steps|
  {
    if steps != [] {
      NarrowStep(cfg, db, steps[0]);
      NarrowColumnStopsPlay(cfg, Apply(cfg, db, steps[0]), steps[1..]);
    }
  }
}
