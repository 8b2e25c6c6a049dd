/** The commits that change users, games, guesses, match history and the matching queue, as
    functions from database to database (game_play.go, game_recovery.go, matching.go, admin.go).
    A commit that fails leaves the database as it was. */
module Duel {
  import opened Common
  import opened Digits
  import opened Model
  import opened Secrets
  import Tokens

  // ---------- Accounts ----------

  predicate NameTaken(users: map<Uuid, User>, username: string) {
    exists u :: u in users && users[u].username == username
  }

  function RegisterTx(db: Db, id: NewUuid, username: string, role: Role): (Db, Result<(), Error>) {
    if id in db.users || NameTaken(db.users, username) then (db, Err(DbConflict))
    else (db.(users := db.users[id := User(username, role, 0, None, None)]), Ok(()))
  }

  predicate HasActiveGame(games: map<Uuid, Game>, user: Uuid) {
    exists gid :: gid in games && games[gid].IsParticipant(user) && games[gid].IsActive()
  }

  function WithoutUser(queue: map<Uuid, Entry>, user: Uuid): map<Uuid, Entry> {
    map e | e in queue && queue[e].user != user :: queue[e]
  }

  /** The checks DeleteUser makes before its transaction. */
  function DeleteChecks(db: Db, admin: Uuid, target: Uuid): Result<(), Error> {
    if admin == target then Err(CannotDeleteSelf)
    else if target !in db.users then Err(NotFound)
    else if db.users[target].IsDeleted() then Err(UserAlreadyDeleted)
    else if db.users[target].IsMaster() then Err(CannotDeleteMaster)
    else if HasActiveGame(db.games, target) then Err(UserInActiveGame)
    else Ok(())
  }

  /** The transaction of DeleteUser. `row` is the account row the checks have read: it is saved whole. */
  function DeleteTx(db: Db, admin: Uuid, target: Uuid, row: User, now: Time): Db {
    db.(tokens := Tokens.Swept(db.tokens, Tokens.OfUser(db.tokens, target), now),
        queue := WithoutUser(db.queue, target),
        users := db.users[target := row.(deletedAt := Some(now), deletedBy := Some(admin))])
  }

  /** The transaction on the row as it is. */
  function Deleted(db: Db, admin: Uuid, target: Uuid, now: Time): Db {
    if target in db.users then DeleteTx(db, admin, target, db.users[target], now) else db
  }

  // ---------- Play ----------

  predicate Fits(cfg: Config, hash: string) {
    cfg.secretColumn.Some? ==> |hash| <= cfg.secretColumn.value
  }

  /** Ok(true) when the commit also started the game. */
  function SetSecretTx(cfg: Config, db: Db, user: Uuid, gid: Uuid, digits: Number, now: Time)
    : (Db, Result<bool, Error>)
  {
    if gid !in db.games then (db, Err(NotFound))
    else if !db.games[gid].IsParticipant(user) then (db, Err(Forbidden))
    else
      var g := db.games[gid];
      match g.status
      case InProgress => (db, Err(GameAlreadyStarted))
      case Finished => (db, Err(GameAlreadyFinished))
      case WaitingSecret =>
        var hash := Hashed(cfg.hasher, digits, gid, if user == g.player2 then 2 else 1);
        match WithSecret(g, user, hash)
        case Err(e) => (db, Err(e))
        case Ok(g1) =>
          if !Fits(cfg, hash) then (db, Err(ColumnOverflow))
          else if !g1.BothSecretsSet() then (db.(games := db.games[gid := g1]), Ok(false))
          else match Started(g1, now)
            case Err(e) => (db, Err(e))
            case Ok(g2) => (db.(games := db.games[gid := g2]), Ok(true))
  }

  /** The identifiers a guess draws: its own, and the one of the history row if it wins. */
  datatype Ids = Ids(guess: NewUuid, history: NewUuid)

  datatype GuessReply = GuessReply(turn: int, results: FourResults, hitCount: nat, isWin: bool)

  function TargetSecret(g: Game, player: Uuid): string {
    if player == g.player2 then g.secret1 else g.secret2
  }

  function TargetSlot(g: Game, player: Uuid): int {
    if player == g.player2 then 1 else 2
  }

  /** The unique index on (game, turn, player). */
  predicate TurnTaken(guesses: map<Uuid, Guess>, gid: Uuid, turn: int, player: Uuid) {
    exists id :: id in guesses && guesses[id].game == gid && guesses[id].turn == turn && guesses[id].player == player
  }

  predicate HasHistory(histories: map<Uuid, History>, gid: Uuid) {
    exists h :: h in histories && histories[h].game == gid
  }

  /** finishGameService, on the database `mid` its transaction has reached; `db` is what a failure
      restores. A missing user row is not a failure: the commit goes through without finishing. */
  function FinishTx(db: Db, mid: Db, gid: Uuid, g: Game, winner: Uuid, now: Time, historyId: Uuid)
    : (Db, Result<(), Error>)
  {
    if winner == NIL then (db, Err(BadRequest))
    else match OpponentOf(g, winner)
      case Err(e) => (db, Err(e))
      case Ok(loser) =>
        if winner !in mid.users || loser !in mid.users then (mid, Ok(()))
        else match Won(g, winner, now)
          case Err(e) => (db, Err(e))
          case Ok(g1) =>
            if historyId in mid.histories || HasHistory(mid.histories, gid) then (db, Err(DbConflict))
            else
              var row := History(gid, winner, loser, mid.users[winner].username, mid.users[loser].username, now);
              (mid.(games := mid.games[gid := g1],
                    histories := mid.histories[historyId := row],
                    users := mid.users[winner := mid.users[winner].(winCount := mid.users[winner].winCount + 1)]),
               Ok(()))
  }

  function GuessTx(cfg: Config, db: Db, user: Uuid, gid: Uuid, digits: Number, isAuto: bool, now: Time,
                   ids: Ids): (Db, Result<GuessReply, Error>)
  {
    if gid !in db.games then (db, Err(NotFound))
    else if !db.games[gid].IsParticipant(user) then (db, Err(Forbidden))
    else
      var g := db.games[gid];
      if TargetSecret(g, user) == "" then (db, Err(BadRequest))
      else match Verified(cfg.hasher, TargetSecret(g, user), digits, gid, TargetSlot(g, user))
        case Err(e) => (db, Err(e))
        case Ok(results) =>
          match Advanced(g, user)
          case Err(e) => (db, Err(e))
          case Ok(g1) =>
            if ids.guess in db.guesses || TurnTaken(db.guesses, gid, g.turn, user) then (db, Err(DbConflict))
            else
              var row := Guess(gid, user, g.turn, Format(digits), results, Hits(results), isAuto);
              var mid := db.(guesses := db.guesses[ids.guess := row]);
              var reply := GuessReply(g.turn, results, Hits(results), FullHit(results));
              if FullHit(results) then
                match FinishTx(db, mid, gid, g1, user, now, ids.history)
                case (db1, Err(e)) => (db1, Err(e))
                case (db1, Ok(_)) => (db1, Ok(reply))
              else (mid.(games := mid.games[gid := g1]), Ok(reply))
  }

  /** True when the commit cancelled the game. */
  function CancelTx(cfg: Config, db: Db, gid: Uuid, now: Time): (Db, bool) {
    if gid !in db.games then (db, false)
    else
      var g := db.games[gid];
      if g.status != WaitingSecret || g.startedAt.Some? || g.finishedAt.Some? || g.winner.Some?
         || now <= g.createdAt + cfg.secretSetup
      then (db, false)
      else (db.(games := db.games[gid := g.(status := Finished, finishedAt := Some(now))]), true)
  }

  // ---------- Matchmaking ----------

  /** `picked` is a legal answer of the oldest-first listing with that limit: ties may come either way. */
  ghost predicate OldestFirst(queue: map<Uuid, Entry>, limit: nat, picked: seq<Uuid>) {
    && |picked| <= limit
    && (forall i | 0 <= i < |picked| :: picked[i] in queue)
    && (forall i, j | 0 <= i < j < |picked| ::
          picked[i] != picked[j] && queue[picked[i]].createdAt <= queue[picked[j]].createdAt)
    && (forall e | e in queue && e !in picked ::
          |picked| == limit && forall i | 0 <= i < |picked| :: queue[picked[i]].createdAt <= queue[e].createdAt)
  }

  predicate Ready(db: Db, user: Uuid) {
    && user in db.users
    && !db.users[user].IsDeleted()
    && !db.users[user].IsMaster()
    && !HasActiveGame(db.games, user)
  }

  /** matchPlayers, on the database `mid` of its transaction. */
  function MatchTx(db: Db, mid: Db, picked: seq<Uuid>, now: Time, gameId: Uuid): (Db, Result<Option<Uuid>, Error>)
    requires forall i | 0 <= i < |picked| :: picked[i] in mid.queue
  {
    if |picked| < 2 then (mid, Ok(None))
    else
      var u1, u2 := mid.queue[picked[0]].user, mid.queue[picked[1]].user;
      if u1 == u2 then (db, Err(BadRequest))
      else if !Ready(mid, u1) then (mid.(queue := mid.queue - {picked[0]}), Ok(None))
      else if !Ready(mid, u2) then (mid.(queue := mid.queue - {picked[1]}), Ok(None))
      else if gameId in mid.games then (db, Err(DbConflict))
      else
        (mid.(games := mid.games[gameId := NewGame(u1, u2, now)], queue := mid.queue - {picked[0], picked[1]}),
         Ok(Some(gameId)))
  }

  function Queued(db: Db, user: Uuid, now: Time, entryId: Uuid): Db {
    db.(queue := db.queue[entryId := Entry(user, now)])
  }

  /** The transaction of Start: insert, list, re-check, pair. `now` is the clock reading taken
      before the transaction, `later` the one taken inside it. */
  function StartTx(db: Db, user: Uuid, now: Time, entryId: Uuid, picked: seq<Uuid>, later: Time, gameId: Uuid)
    : (Db, Result<Option<Uuid>, Error>)
    requires entryId !in db.queue ==> forall i | 0 <= i < |picked| :: picked[i] in Queued(db, user, now, entryId).queue
  {
    if entryId in db.queue then (db, Err(DbConflict))
    else MatchTx(db, Queued(db, user, now, entryId), picked, later, gameId)
  }

  predicate Waiting(db: Db, user: Uuid) {
    exists e :: e in db.queue && db.queue[e].user == user
  }

  /** The checks Start makes before its transaction. */
  function StartChecks(db: Db, user: Uuid): Result<(), Error> {
    if user !in db.users || db.users[user].IsDeleted() then Err(Unauthorized)
    else if db.users[user].IsMaster() then Err(Forbidden)
    else if HasActiveGame(db.games, user) then Err(UserInActiveGame)
    else if Waiting(db, user) then Err(AlreadyInMatching)
    else Ok(())
  }

  /** The check SetSecretNumber and SubmitGuess make before their transactions. */
  function PlayerChecks(db: Db, user: Uuid): Result<(), Error> {
    if user !in db.users || db.users[user].IsDeleted() then Err(Unauthorized)
    else if db.users[user].IsMaster() then Err(Forbidden)
    else Ok(())
  }

  // ---------- Runs ----------

  function LiveUsers(users: map<Uuid, User>): set<Uuid> {
    set u | u in users && !users[u].IsDeleted()
  }

  /** A commit on tokens as the accounts stand, None when there is none: a login has checked the account
      row that it saves, so that row is not deleted, and a rotation looks the user up itself. */
  function Seen(users: map<Uuid, User>, t: Tokens.Step): Option<Tokens.Step> {
    match t
    case Login(user, _, _, _, _) => if user in LiveUsers(users) then Some(t) else None
    case Rotate(_, _, _, _, _, _) => Some(t.(live := LiveUsers(users)))
    case _ => Some(t)
  }

  function TokenTx(db: Db, t: Tokens.Step): Db {
    match Seen(db.users, t)
    case None => db
    case Some(seen) => db.(tokens := Tokens.RowsAfter(db.tokens, seen))
  }

  /** One commit. The checks a use case makes before its transaction are not part of the step: by
      the time the transaction runs they may be out of date. A row a commit saves is the one it reads
      itself; module StaleRows adds the saves of rows that were read earlier. */
  datatype Step =
    | Register(id: NewUuid, username: string, role: Role)
    | DeleteUser(admin: Uuid, target: Uuid, deletedAt: Time)
    | SetSecret(user: Uuid, gid: Uuid, digits: Number, now: Time)
    | SubmitGuess(player: Uuid, game: Uuid, guess: Number, isAuto: bool, at: Time, ids: Ids)
    | CancelGame(waiting: Uuid, cancelledAt: Time)
    | StartMatching(caller: Uuid, insertedAt: Time, entryId: NewUuid, picked: seq<Uuid>, createdAt: Time,
                    gameId: NewUuid)
    | LeaveQueue(leaver: Uuid)
    | TokenStep(token: Tokens.Step)

  ghost function Apply(cfg: Config, db: Db, s: Step): Db {
    match s
    case Register(id, username, role) => RegisterTx(db, id, username, role).0
    case DeleteUser(admin, target, now) => Deleted(db, admin, target, now)
    case SetSecret(user, gid, digits, now) => SetSecretTx(cfg, db, user, gid, digits, now).0
    case SubmitGuess(user, gid, digits, isAuto, now, ids) =>
      GuessTx(cfg, db, user, gid, digits, isAuto, now, ids).0
    case CancelGame(gid, now) => CancelTx(cfg, db, gid, now).0
    case StartMatching(user, now, entryId, picked, later, gameId) =>
      if OldestFirst(Queued(db, user, now, entryId).queue, 2, picked)
      then StartTx(db, user, now, entryId, picked, later, gameId).0 else db
    case LeaveQueue(user) => db.(queue := WithoutUser(db.queue, user))
    case TokenStep(t) => TokenTx(db, t)
  }

  ghost function Run(cfg: Config, db: Db, steps: seq<Step>): Db
    decreases |steps|
  {
    if steps == [] then db else Run(cfg, Apply(cfg, db, steps[0]), steps[1..])
  }
}
