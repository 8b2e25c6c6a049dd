/** The use cases as they run: classes that change the tables step by step, each method proved to do
    what the corresponding function says. Transactions are serialised; one that fails puts the
    tables back as they were. */
module Server {
  import opened Common
  import opened Digits
  import opened Model
  import opened Duel
  import opened Timers
  import opened Secrets
  import RandomGuess
  import Tokens
  import Accounts
  import Matchmaking
  import Outcomes
  import Pairing
  import Sessions
  import StaleRows

  /** The database. */
  class Tables {
    var users: map<Uuid, User>
    var games: map<Uuid, Game>
    var guesses: map<Uuid, Guess>
    var histories: map<Uuid, History>
    var queue: map<Uuid, Entry>
    var tokens: map<Uuid, Token>

    function Value(): Db
      reads this
    {
      Db(users, games, guesses, histories, queue, tokens)
    }

    constructor ()
      ensures Value() == EMPTY_DB
    {
      users, games, guesses, histories, queue, tokens := map[], map[], map[], map[], map[], map[];
    }

    /** The rollback of a failed transaction. */
    method Restore(saved: Db)
      modifies this
      ensures Value() == saved
    {
      users, games, guesses := saved.users, saved.games, saved.guesses;
      histories, queue, tokens := saved.histories, saved.queue, saved.tokens;
    }
  }

  // ---------- Matching ----------

  /** What a user is told about matching. */
  datatype MatchingStatus = Idle | InQueue | InGame(game: Uuid)

  class MatchingUseCase {
    const tables: Tables

    constructor (tables: Tables)
      ensures this.tables == tables
    {
      this.tables := tables;
    }

    /** The oldest entry among `left`. */
    static method Oldest(queue: map<Uuid, Entry>, left: set<Uuid>) returns (oldest: Uuid)
      requires left <= queue.Keys && left != {}
      ensures oldest in left && forall e | e in left :: queue[oldest].createdAt <= queue[e].createdAt
    {
      oldest :| oldest in left;
      var rest := left - {oldest};
      while rest != {}
        invariant rest <= left && oldest in left
        invariant forall e | e in left - rest :: queue[oldest].createdAt <= queue[e].createdAt
      {
        var e :| e in rest;
        if queue[e].createdAt < queue[oldest].createdAt {
          oldest := e;
        }
        rest := rest - {e};
      }
    }

    method ListWaiting(limit: nat) returns (picked: seq<Uuid>)
      ensures OldestFirst(tables.queue, limit, picked)
    {
      picked := [];
      var left := tables.queue.Keys;
      while |picked| < limit && left != {}
        invariant |picked| <= limit && left <= tables.queue.Keys
        invariant forall e :: e in tables.queue <==> e in left || e in picked
        invariant forall i | 0 <= i < |picked| :: picked[i] !in left
        invariant forall i, e | 0 <= i < |picked| && e in left ::
                    tables.queue[picked[i]].createdAt <= tables.queue[e].createdAt
        invariant forall i, j | 0 <= i < j < |picked| ::
                    picked[i] != picked[j] && tables.queue[picked[i]].createdAt <= tables.queue[picked[j]].createdAt
        decreases left
      {
        var e := Oldest(tables.queue, left);
        picked := picked + [e];
        left := left - {e};
      }
    }

    method MatchPlayers(now: Time, gameId: Uuid) returns (r: Result<Option<Uuid>, Error>, ghost picked: seq<Uuid>)
      modifies tables
      ensures OldestFirst(old(tables.queue), 2, picked)
      ensures r == MatchTx(old(tables.Value()), old(tables.Value()), picked, now, gameId).1
      ensures tables.Value() == MatchTx(old(tables.Value()), old(tables.Value()), picked, now, gameId).0
    {
      var entries := ListWaiting(2);
      picked := entries;
      if |entries| < 2 {
        return Ok(None), picked;
      }
      var p1, p2 := tables.queue[entries[0]].user, tables.queue[entries[1]].user;
      if p1 == p2 {
        return Err(BadRequest), picked;
      }
      if !Ready(tables.Value(), p1) {
        tables.queue := tables.queue - {entries[0]};
        return Ok(None), picked;
      }
      if !Ready(tables.Value(), p2) {
        tables.queue := tables.queue - {entries[1]};
        return Ok(None), picked;
      }
      if gameId in tables.games {
        return Err(DbConflict), picked;
      }
      tables.games := tables.games[gameId := NewGame(p1, p2, now)];
      tables.queue := tables.queue - {entries[0], entries[1]};
      return Ok(Some(gameId)), picked;
    }

    method StartTransaction(user: Uuid, now: Time, entryId: Uuid, later: Time, gameId: Uuid)
      returns (r: Result<Option<Uuid>, Error>, ghost picked: seq<Uuid>)
      modifies tables
      ensures OldestFirst(Queued(old(tables.Value()), user, now, entryId).queue, 2, picked)
      ensures r == StartTx(old(tables.Value()), user, now, entryId, picked, later, gameId).1
      ensures tables.Value() == StartTx(old(tables.Value()), user, now, entryId, picked, later, gameId).0
    {
      var saved := tables.Value();
      var taken := entryId in tables.queue;
      tables.queue := tables.queue[entryId := Entry(user, now)];
      if taken {
        picked := ListWaiting(2);
        tables.Restore(saved);
        return Err(DbConflict), picked;
      }
      r, picked := MatchPlayers(later, gameId);
      if r.Err? {
        tables.Restore(saved);
      }
    }

    method Start(user: Uuid, now: Time, entryId: Uuid, later: Time, gameId: Uuid)
      returns (r: Result<Option<Uuid>, Error>, ghost picked: seq<Uuid>)
      modifies tables
      ensures StartChecks(old(tables.Value()), user).Err? ==>
                tables.Value() == old(tables.Value()) && r == Err(StartChecks(old(tables.Value()), user).error)
      ensures StartChecks(old(tables.Value()), user).Ok? ==>
                && OldestFirst(Queued(old(tables.Value()), user, now, entryId).queue, 2, picked)
                && r == StartTx(old(tables.Value()), user, now, entryId, picked, later, gameId).1
                && tables.Value() == StartTx(old(tables.Value()), user, now, entryId, picked, later, gameId).0
      ensures StartChecks(old(tables.Value()), user).Ok?
              && Matchmaking.AtMostOneWaits(old(tables.queue)) && entryId !in old(tables.queue) ==>
                Pairing.StartLeaves(old(tables.Value()), tables.Value(), r, user, now, entryId, picked, later, gameId)
    {
      picked := [];
      if user !in tables.users || tables.users[user].IsDeleted() {
        return Err(Unauthorized), picked;
      }
      if tables.users[user].IsMaster() {
        return Err(Forbidden), picked;
      }
      if HasActiveGame(tables.games, user) {
        return Err(UserInActiveGame), picked;
      }
      if Waiting(tables.Value(), user) {
        return Err(AlreadyInMatching), picked;
      }
      ghost var before := tables.Value();
      r, picked := StartTransaction(user, now, entryId, later, gameId);
      if Matchmaking.AtMostOneWaits(before.queue) && entryId !in before.queue {
        Pairing.StartOutcome(before, user, now, entryId, picked, later, gameId);
      }
    }

    method Status(user: Uuid) returns (s: MatchingStatus)
      ensures s.InGame? ==>
                && s.game in tables.games && tables.games[s.game].status != Finished
                && (tables.games[s.game].player1 == user || tables.games[s.game].player2 == user)
      ensures !s.InGame? ==> forall gid | gid in tables.games && tables.games[gid].status != Finished ::
                tables.games[gid].player1 != user && tables.games[gid].player2 != user
      ensures s.InQueue? ==> exists e :: e in tables.queue && tables.queue[e].user == user
      ensures s.Idle? ==> forall e | e in tables.queue :: tables.queue[e].user != user
    {
      if gid: Uuid :| gid in tables.games && tables.games[gid].IsParticipant(user) && tables.games[gid].IsActive() {
        return InGame(gid);
      }
      if Waiting(tables.Value(), user) {
        return InQueue;
      }
      return Idle;
    }

    method Cancel(user: Uuid)
      modifies tables
      ensures tables.Value() == old(tables.Value()).(queue := WithoutUser(old(tables.queue), user))
      ensures !Waiting(tables.Value(), user)
      ensures forall e | e in old(tables.queue) && old(tables.queue)[e].user != user ::
                e in tables.queue && tables.queue[e] == old(tables.queue)[e]
    {
      tables.queue := WithoutUser(tables.queue, user);
    }
  }

  // ---------- Play ----------

  class GameUseCase {
    const tables: Tables
    const turns: TurnStore
    const secrets: SecretHashService
    const cfg: Config

    constructor (tables: Tables, turns: TurnStore, secrets: SecretHashService, cfg: Config)
      requires secrets.hasher == cfg.hasher
      ensures this.tables == tables && this.turns == turns && this.secrets == secrets && this.cfg == cfg
    {
      this.tables, this.turns, this.secrets, this.cfg := tables, turns, secrets, cfg;
    }

    ghost predicate Valid() {
      secrets.hasher == cfg.hasher
    }

    ghost function Now(): World
      reads tables, turns
    {
      World(tables.Value(), turns.records)
    }

    method EnsurePlayer(user: Uuid) returns (r: Result<(), Error>)
      ensures r == PlayerChecks(tables.Value(), user)
    {
      if user !in tables.users || tables.users[user].IsDeleted() {
        return Err(Unauthorized);
      }
      if tables.users[user].IsMaster() {
        return Err(Forbidden);
      }
      return Ok(());
    }

    method SecretTransaction(user: Uuid, gid: Uuid, digits: Number, now: Time) returns (r: Result<bool, Error>)
      requires Valid()
      modifies tables
      ensures r == SetSecretTx(cfg, old(tables.Value()), user, gid, digits, now).1
      ensures tables.Value() == SetSecretTx(cfg, old(tables.Value()), user, gid, digits, now).0
    {
      if gid !in tables.games {
        return Err(NotFound);
      }
      var saved := tables.Value();
      var game := new GameRow(tables.games[gid]);
      if !game.Value().IsParticipant(user) {
        return Err(Forbidden);
      }
      match game.status {
        case InProgress => return Err(GameAlreadyStarted);
        case Finished => return Err(GameAlreadyFinished);
        case WaitingSecret =>
      }
      var slot := 1;
      if user == game.player2 {
        slot := 2;
      }
      var hash := secrets.Hash(digits, gid, slot);
      var stored := game.SetSecretHash(user, hash);
      if stored.Err? {
        return Err(stored.error);
      }
      if !Fits(cfg, hash) {
        return Err(ColumnOverflow);
      }
      tables.games := tables.games[gid := game.Value()];
      if game.Value().BothSecretsSet() {
        var started := game.Start(now);
        if started.Err? {
          tables.Restore(saved);
          return Err(started.error);
        }
        tables.games := tables.games[gid := game.Value()];
        return Ok(true);
      }
      return Ok(false);
    }

    /** The timer write of notifyGameStart and notifyGuessResult. */
    method ArmTimer(gid: Uuid, now: Time, at: Time)
      requires gid in tables.games
      modifies turns
      ensures turns.records == Armed(cfg, old(turns.records), gid, tables.games[gid], now, at)
    {
      var g := tables.games[gid];
      if g.turnPlayer.Some? {
        turns.SetTurn(gid, g.turn, g.turnPlayer.value, now, now + cfg.turnDuration, at);
      }
    }

    method SetSecretNumber(user: Uuid, gid: Uuid, text: string, lockFree: bool, c: Clocks)
      returns (r: Result<(), Error>)
      requires Valid()
      modifies tables, turns
      ensures r == SecretUseCase(cfg, old(Now()), user, gid, text, lockFree, c).1
      ensures Now() == SecretUseCase(cfg, old(Now()), user, gid, text, lockFree, c).0
      ensures Outcomes.SecretPromise(cfg, old(Now()), Now(), r, user, gid, text, lockFree, c)
    {
      Outcomes.SecretKeepsPromise(cfg, Now(), user, gid, text, lockFree, c);
      if !lockFree {
        return Err(RateLimitExceeded);
      }
      var digits := ValidateFourDigits(text);
      if digits.Err? {
        return Err(digits.error);
      }
      var allowed := EnsurePlayer(user);
      if allowed.Err? {
        return Err(allowed.error);
      }
      var started := SecretTransaction(user, gid, digits.value, c.now);
      if started.Err? {
        return Err(started.error);
      }
      if started.value && gid in tables.games {
        ArmTimer(gid, c.later, c.at);
      }
      return Ok(());
    }

    /** finishGameService, inside the transaction of the winning guess. */
    method FinishGame(gid: Uuid, game: GameRow, winner: Uuid, now: Time, historyId: Uuid) returns (r: Result<(), Error>)
      modifies tables, game
      ensures r == FinishTx(old(tables.Value()), old(tables.Value()), gid, old(game.Value()), winner, now, historyId).1
      ensures r.Ok? ==>
                tables.Value()
                == FinishTx(old(tables.Value()), old(tables.Value()), gid, old(game.Value()), winner, now, historyId).0
    {
      if winner == NIL {
        return Err(BadRequest);
      }
      var loser := OpponentOf(game.Value(), winner);
      if loser.Err? {
        return Err(loser.error);
      }
      if winner !in tables.users || loser.value !in tables.users {
        return Ok(());
      }
      var finished := game.Finish(winner, now);
      if finished.Err? {
        return Err(finished.error);
      }
      tables.games := tables.games[gid := game.Value()];
      if historyId in tables.histories || HasHistory(tables.histories, gid) {
        return Err(DbConflict);
      }
      tables.histories := tables.histories[historyId :=
        History(gid, winner, loser.value, tables.users[winner].username, tables.users[loser.value].username, now)];
      var user := tables.users[winner];
      tables.users := tables.users[winner := user.(winCount := user.winCount + 1)];
      return Ok(());
    }

    /** Verify and addGameGuess: the guess row to insert, with the row of the game moved on. */
    method JudgeGuess(gid: Uuid, game: GameRow, user: Uuid, digits: Number, isAuto: bool)
      returns (r: Result<Guess, Error>)
      requires Valid()
      modifies game
      ensures var g := old(game.Value());
              match Verified(cfg.hasher, TargetSecret(g, user), digits, gid, TargetSlot(g, user))
              case Err(e) => r == Err(e)
              case Ok(results) =>
                match Advanced(g, user)
                case Err(e) => r == Err(e)
                case Ok(g1) =>
                  r == Ok(Model.Guess.Guess(gid, user, g.turn, Format(digits), results, Hits(results), isAuto))
                  && game.Value() == g1
    {
      var target, slot := game.secret2, 2;
      if user == game.player2 {
        target, slot := game.secret1, 1;
      }
      var verdict := secrets.Verify(target, digits, gid, slot);
      if verdict.Err? {
        return Err(verdict.error);
      }
      r := game.AddGuess(gid, user, digits, verdict.value, isAuto);
    }

    /** Stores the guess and then finishes the game or saves its row. */
    method EnterGuess(gid: Uuid, game: GameRow, row: Model.Guess, now: Time, ids: Ids)
      returns (r: Result<bool, Error>)
      modifies tables, game
      ensures var db, g1 := old(tables.Value()), old(game.Value());
              var mid := db.(guesses := db.guesses[ids.guess := row]);
              if ids.guess in db.guesses || TurnTaken(db.guesses, gid, row.turn, row.player) then
                r == Err(DbConflict) && tables.Value() == db
              else if FullHit(row.results) then
                match FinishTx(db, mid, gid, g1, row.player, now, ids.history)
                case (db1, Err(e)) => r == Err(e) && tables.Value() == db1
                case (db1, Ok(_)) => r == Ok(true) && tables.Value() == db1
              else r == Ok(false) && tables.Value() == mid.(games := mid.games[gid := g1])
    {
      if ids.guess in tables.guesses || TurnTaken(tables.guesses, gid, row.turn, row.player) {
        return Err(DbConflict);
      }
      var saved := tables.Value();
      tables.guesses := tables.guesses[ids.guess := row];
      var win := IsWin(row.results);
      if win {
        var finished := FinishGame(gid, game, row.player, now, ids.history);
        if finished.Err? {
          tables.Restore(saved);
          return Err(finished.error);
        }
      } else {
        tables.games := tables.games[gid := game.Value()];
      }
      return Ok(win);
    }

    method GuessTransaction(user: Uuid, gid: Uuid, digits: Number, isAuto: bool, now: Time, ids: Ids)
      returns (r: Result<GuessReply, Error>)
      requires Valid()
      modifies tables
      ensures r == GuessTx(cfg, old(tables.Value()), user, gid, digits, isAuto, now, ids).1
      ensures tables.Value() == GuessTx(cfg, old(tables.Value()), user, gid, digits, isAuto, now, ids).0
    {
      if gid !in tables.games {
        return Err(NotFound);
      }
      var game := new GameRow(tables.games[gid]);
      if !game.Value().IsParticipant(user) {
        return Err(Forbidden);
      }
      if TargetSecret(game.Value(), user) == "" {
        return Err(BadRequest);
      }
      var row := JudgeGuess(gid, game, user, digits, isAuto);
      if row.Err? {
        return Err(row.error);
      }
      var win := EnterGuess(gid, game, row.value, now, ids);
      if win.Err? {
        return Err(win.error);
      }
      return Ok(GuessReply(row.value.turn, row.value.results, row.value.hitCount, win.value));
    }

    method SubmitGuess(user: Uuid, gid: Uuid, text: string, isAuto: bool, lockFree: bool, ids: Ids, c: Clocks)
      returns (r: Result<(), Error>)
      requires Valid()
      modifies tables, turns
      ensures r == GuessUseCase(cfg, old(Now()), user, gid, text, isAuto, lockFree, ids, c).1
      ensures Now() == GuessUseCase(cfg, old(Now()), user, gid, text, isAuto, lockFree, ids, c).0
      ensures Outcomes.SubmitPromise(cfg, old(Now()), Now(), r, user, gid, text, isAuto, lockFree, ids, c)
    {
      Outcomes.SubmitKeepsPromise(cfg, Now(), user, gid, text, isAuto, lockFree, ids, c);
      if !isAuto && !lockFree {
        return Err(RateLimitExceeded);
      }
      var digits := ValidateFourDigits(text);
      if digits.Err? {
        return Err(digits.error);
      }
      var allowed := EnsurePlayer(user);
      if allowed.Err? {
        return Err(allowed.error);
      }
      var reply := GuessTransaction(user, gid, digits.value, isAuto, c.now, ids);
      if reply.Err? {
        return Err(reply.error);
      }
      if gid !in tables.games {
        return Ok(());
      }
      if reply.value.isWin {
        turns.DeleteTurn(gid);
      } else {
        ArmTimer(gid, c.later, c.at);
      }
      return Ok(());
    }

    method CancelBySecretTimeout(gid: Uuid, now: Time)
      modifies tables, turns
      ensures Now() == CancelUseCase(cfg, old(Now()), gid, now)
      ensures Outcomes.CancelPromise(cfg, old(Now()), Now(), gid, now)
    {
      Outcomes.CancelKeepsPromise(cfg, Now(), gid, now);
      if gid !in tables.games {
        return;
      }
      var game := new GameRow(tables.games[gid]);
      if game.status != WaitingSecret {
        return;
      }
      if game.startedAt.Some? || game.finishedAt.Some? || game.winner.Some? {
        return;
      }
      var deadline := game.createdAt + cfg.secretSetup;
      if now <= deadline {
        return;
      }
      var cancelled := game.CancelBySecretTimeout(now);
      tables.games := tables.games[gid := game.Value()];
      turns.DeleteTurn(gid);
    }

    /** `draws` are the numbers the random source gives, None where there is no generator; the store
        is read at `first` and `second`. */
    method HandleTimeout(gid: Uuid, player: Uuid, lockFree: bool, first: Time, second: Time, draws: Option<seq<nat>>,
                         now: Time, ids: Ids, c: Clocks) returns (r: Result<(), Error>)
      requires Valid()
      requires draws.Some? ==> |draws.value| == 4 && RandomGuess.Choices(10, draws.value)
      modifies tables, turns
      ensures var text := if draws.None? then None
                          else Some(Format(RandomGuess.GuessDrawn(draws.value)));
              var seen, again := GetTurn(old(turns.records), gid, first), GetTurn(old(turns.records), gid, second);
              var a := Answers(lockFree, seen, again, text);
              && r == TimeoutUseCase(cfg, old(Now()), gid, player, a, now, ids, c).1
              && Now() == TimeoutUseCase(cfg, old(Now()), gid, player, a, now, ids, c).0
              && Outcomes.TimeoutPromise(cfg, old(Now()), Now(), r, gid, player, a, now, ids, c)
    {
      ghost var answers := Answers(lockFree, GetTurn(turns.records, gid, first), GetTurn(turns.records, gid, second),
                                   if draws.None? then None else Some(Format(RandomGuess.GuessDrawn(draws.value))));
      Outcomes.TimeoutKeepsPromise(cfg, Now(), gid, player, answers, now, ids, c);
      if !lockFree {
        return Ok(());
      }
      var seen := GetTurn(turns.records, gid, first);
      if seen.None? || seen.value.player != player || seen.value.expiresAt > now {
        return Ok(());
      }
      var checked := TimeoutChecks(tables.Value(), gid, player, seen.value.turn);
      if checked != Ok(()) {
        return checked;
      }
      seen := GetTurn(turns.records, gid, second);
      if seen.None? || seen.value.player != player || seen.value.expiresAt > now {
        return Ok(());
      }
      if draws.None? {
        return Err(NoRandomSource);
      }
      var text := RandomGuess.GenerateGuessNumber(draws.value);
      r := SubmitGuess(player, gid, text, true, true, ids, c);
      if r.Err? && IsTimeoutRace(r.error) {
        r := Ok(());
      }
    }

    method ListInProgress() returns (gids: seq<Uuid>)
      ensures ListsInProgress(tables.Value(), gids)
    {
      gids := [];
      var left := tables.games.Keys;
      while left != {}
        invariant left <= tables.games.Keys
        invariant forall i | 0 <= i < |gids| :: gids[i] in tables.games && tables.games[gids[i]].status == InProgress
        invariant forall gid | gid in tables.games && tables.games[gid].status == InProgress ::
                    gid in left || gid in gids
      {
        var gid :| gid in left;
        if tables.games[gid].status == InProgress {
          gids := gids + [gid];
        }
        left := left - {gid};
      }
    }

    method ListWaitingCreatedBefore(before: Time) returns (gids: seq<Uuid>)
      ensures ListsOverdue(cfg, tables.Value(), gids, before + cfg.secretSetup)
    {
      gids := [];
      var left := tables.games.Keys;
      while left != {}
        invariant left <= tables.games.Keys
        invariant forall i | 0 <= i < |gids| ::
                    gids[i] in tables.games && Overdue(cfg, tables.games[gids[i]], before + cfg.secretSetup)
        invariant forall gid | gid in tables.games && Overdue(cfg, tables.games[gid], before + cfg.secretSetup) ::
                    gid in left || gid in gids
      {
        var gid :| gid in left;
        if tables.games[gid].status == WaitingSecret && tables.games[gid].createdAt < before {
          gids := gids + [gid];
        }
        left := left - {gid};
      }
    }

    method RecoverTurnTimer(gid: Uuid, g: Game, now: Time, at: Time)
      modifies turns
      ensures turns.records == RecoverTurn(cfg, old(turns.records), gid, g, now, at)
    {
      if g.turnPlayer.None? {
        return;
      }
      var seen := GetTurn(turns.records, gid, at);
      if seen.Some? && seen.value.expiresAt > now {
        return;
      }
      turns.SetTurn(gid, g.turn, g.turnPlayer.value, now, now + cfg.turnDuration, at);
    }

    method RecoverActiveGames(now: Time, at: Uuid -> Time, later: Uuid -> Time)
      returns (ghost playing: seq<Uuid>, ghost overdue: seq<Uuid>)
      modifies tables, turns
      ensures ListsInProgress(old(tables.Value()), playing) && ListsOverdue(cfg, old(tables.Value()), overdue, now)
      ensures Now() == RecoverUseCase(cfg, old(Now()), playing, overdue, now, at, later)
      ensures Outcomes.RecoveryPromise(cfg, old(Now()), Now(), now, at, later)
    {
      ghost var start := Now();
      var inProgress := ListInProgress();
      playing := inProgress;
      for i := 0 to |inProgress|
        invariant tables.Value() == old(tables.Value())
        invariant RecoverTurns(cfg, tables.Value(), turns.records, inProgress[i..], now, at)
                  == RecoverTurns(cfg, tables.Value(), old(turns.records), inProgress, now, at)
      {
        assert inProgress[i..][1..] == inProgress[i + 1..];
        RecoverTurnTimer(inProgress[i], tables.games[inProgress[i]], now, at(inProgress[i]));
      }
      var expired := ListWaitingCreatedBefore(now - cfg.secretSetup);
      overdue := expired;
      ghost var before := Now();
      for i := 0 to |expired|
        invariant CancelAll(cfg, Now(), expired[i..], later) == CancelAll(cfg, before, expired, later)
      {
        assert expired[i..][1..] == expired[i + 1..];
        CancelBySecretTimeout(expired[i], later(expired[i]));
      }
      Outcomes.RecoveryKeepsPromise(cfg, start, playing, overdue, now, at, later);
    }
  }

  // ---------- Accounts ----------

  /** The refresh_tokens table and its conditional updates. */
  class RefreshTokenRepo {
    const tables: Tables

    constructor (tables: Tables)
      ensures this.tables == tables
    {
      this.tables := tables;
    }

    method FindByTokenHash(hash: string) returns (id: Option<Uuid>)
      ensures id.None? <==> !Tokens.HashTaken(tables.tokens, hash)
      ensures id.Some? ==> id.value in tables.tokens && tables.tokens[id.value].hash == hash
    {
      if i: Uuid :| i in tables.tokens && tables.tokens[i].hash == hash {
        return Some(i);
      }
      return None;
    }

    method Create(id: Uuid, t: Token) returns (r: Result<(), Error>)
      modifies tables`tokens
      ensures match Tokens.Inserted(old(tables.tokens), id, t)
              case Ok(rows) => r == Ok(()) && tables.tokens == rows
              case Err(e) => r == Err(e) && tables.tokens == old(tables.tokens)
    {
      if id in tables.tokens || Tokens.HashTaken(tables.tokens, t.hash) {
        return Err(DbConflict);
      }
      tables.tokens := tables.tokens[id := t];
      return Ok(());
    }

    method MarkUsed(id: Uuid, now: Time, next: Uuid) returns (r: Result<(), Error>)
      modifies tables`tokens
      ensures match Tokens.MarkedUsed(old(tables.tokens), id, now, next)
              case Ok(rows) => r == Ok(()) && tables.tokens == rows
              case Err(e) => r == Err(e) && tables.tokens == old(tables.tokens)
    {
      if id !in tables.tokens || tables.tokens[id].status != Active || tables.tokens[id].revokedAt.Some? {
        return Err(NotFound);
      }
      tables.tokens := tables.tokens[id :=
        tables.tokens[id].(status := TokenStatus.Revoked, revokedAt := Some(now), replacedBy := Some(next))];
      return Ok(());
    }

    method Revoke(id: Uuid, now: Time) returns (r: Result<(), Error>)
      modifies tables`tokens
      ensures match Tokens.RevokedOne(old(tables.tokens), id, now)
              case Ok(rows) => r == Ok(()) && tables.tokens == rows
              case Err(e) => r == Err(e) && tables.tokens == old(tables.tokens)
    {
      if id !in tables.tokens || tables.tokens[id].status != Active || tables.tokens[id].revokedAt.Some? {
        return Err(NotFound);
      }
      tables.tokens := tables.tokens[id := tables.tokens[id].(status := TokenStatus.Revoked, revokedAt := Some(now))];
      return Ok(());
    }

    method RevokeByFamilyId(family: Uuid, now: Time)
      modifies tables`tokens
      ensures tables.tokens == Tokens.Swept(old(tables.tokens), Tokens.OfFamily(old(tables.tokens), family), now)
    {
      tables.tokens := map id | id in tables.tokens ::
        if tables.tokens[id].family == family && Tokens.Revocable(tables.tokens[id])
        then Tokens.AsRevoked(tables.tokens[id], now) else tables.tokens[id];
    }

    method RevokeByUserId(user: Uuid, now: Time)
      modifies tables`tokens
      ensures tables.tokens == Tokens.Swept(old(tables.tokens), Tokens.OfUser(old(tables.tokens), user), now)
    {
      tables.tokens := map id | id in tables.tokens ::
        if tables.tokens[id].user == user && Tokens.Revocable(tables.tokens[id])
        then Tokens.AsRevoked(tables.tokens[id], now) else tables.tokens[id];
    }

    method DeleteExpired(before: Time) returns (n: nat)
      modifies tables`tokens
      ensures tables.tokens == Tokens.Purged(old(tables.tokens), before)
      ensures n == |set id | id in old(tables.tokens) && Tokens.IsPurged(old(tables.tokens)[id], before)|
    {
      var expired := set id | id in tables.tokens && Tokens.IsPurged(tables.tokens[id], before);
      tables.tokens := tables.tokens - expired;
      assert tables.tokens == Tokens.Purged(old(tables.tokens), before);
      return |expired|;
    }
  }

  class AuthUseCase {
    const tables: Tables
    const repo: RefreshTokenRepo
    const refreshDays: int

    constructor (tables: Tables, refreshDays: int)
      ensures this.tables == tables && Valid() && this.refreshDays == refreshDays
    {
      this.tables := tables;
      this.refreshDays := refreshDays;
      repo := new RefreshTokenRepo(tables);
    }

    ghost predicate Valid() {
      repo.tables == tables
    }

    /** So many days from now. */
    function Expiry(now: Time): (t: Time)
      ensures t - now == refreshDays * 86_400_000_000_000
    {
      now + refreshDays * 24 * 3600 * SECOND
    }

    /** The session part of Login: a token opening a new family. */
    method IssueSession(user: Uuid, now: Time, id: Uuid, hash: string, family: Uuid) returns (r: Result<(), Error>)
      requires Valid()
      modifies tables`tokens
      ensures tables.tokens == Tokens.RowsAfter(old(tables.tokens), Tokens.Login(user, id, hash, family, Expiry(now)))
      ensures match Tokens.Inserted(old(tables.tokens), id, Tokens.NewToken(user, hash, family, Expiry(now)))
              case Ok(_) => r == Ok(())
              case Err(e) => r == Err(e)
    {
      r := repo.Create(id, Tokens.NewToken(user, hash, family, Expiry(now)));
    }

    /** The transaction of Login; `row` is the account row that the password was checked against, which
        may be out of date by now. */
    method LoginTransaction(user: Uuid, row: User, now: Time, id: Uuid, hash: string, family: Uuid)
      returns (r: Result<(), Error>)
      requires Valid()
      modifies tables
      ensures (tables.Value(), r) == StaleRows.LoginTx(old(tables.Value()), user, row, id, hash, family, Expiry(now))
      ensures Sessions.LoginLeaves(old(tables.Value()), tables.Value(), r, user, row, id, hash, family,
                                   now + refreshDays * 86_400_000_000_000)
    {
      Sessions.LoginOutcome(tables.Value(), user, row, id, hash, family, Expiry(now));
      var saved := tables.Value();
      tables.users := tables.users[user := row];
      r := IssueSession(user, now, id, hash, family);
      if r.Err? {
        tables.Restore(saved);
      }
    }

    method Rotate(id: Uuid, now: Time, newId: Uuid, newHash: string) returns (r: Result<(), Error>)
      requires Valid()
      modifies tables
      ensures var rotated := Tokens.Rotated(old(tables.tokens), id, LiveUsers(old(tables.users)), now,
                                            newId, newHash, Expiry(now));
              r == rotated.1 && tables.Value() == old(tables.Value()).(tokens := rotated.0)
    {
      var saved := tables.Value();
      if id !in tables.tokens || !tables.tokens[id].IsActive(now) {
        return Err(Unauthorized);
      }
      var t := tables.tokens[id];
      if t.user !in tables.users || tables.users[t.user].IsDeleted() {
        var _ := repo.Revoke(id, now);
        tables.Restore(saved);
        return Err(Unauthorized);
      }
      var created := repo.Create(newId, Tokens.NewToken(t.user, newHash, t.family, Expiry(now)));
      if created.Err? {
        return Err(created.error);
      }
      var used := repo.MarkUsed(id, now, newId);
      if used.Err? {
        tables.Restore(saved);
        return Err(used.error);
      }
      return Ok(());
    }

    /** Refresh, given the hash of the presented token and of the one to be issued. */
    method Refresh(hash: string, now: Time, newId: Uuid, newHash: string) returns (r: Result<(), Error>)
      requires Valid() && Tokens.UniqueHashes(tables.tokens)
      modifies tables
      ensures var after := Tokens.Refreshed(old(tables.tokens), hash, LiveUsers(old(tables.users)), now,
                                            newId, newHash, Expiry(now));
              r == after.1 && tables.Value() == old(tables.Value()).(tokens := after.0)
      ensures Sessions.RefreshPromise(old(tables.tokens), tables.tokens, r, hash, old(tables.users), now, newId,
                                      newHash, now + refreshDays * 86_400_000_000_000)
    {
      Sessions.RefreshKeepsPromise(tables.tokens, hash, tables.users, now, newId, newHash, Expiry(now));
      var found := repo.FindByTokenHash(hash);
      if found.None? {
        return Err(Unauthorized);
      }
      var id := found.value;
      assert forall other | other in tables.tokens && tables.tokens[other].hash == hash :: other == id;
      var stored := tables.tokens[id];
      if stored.status == TokenStatus.Revoked {
        repo.RevokeByFamilyId(stored.family, now);
        return Err(Unauthorized);
      }
      if !stored.IsActive(now) {
        var revoked := repo.Revoke(id, now);
        return Err(if revoked.Err? then revoked.error else Unauthorized);
      }
      r := Rotate(id, now, newId, newHash);
    }

    /** `jti` and `expires` come from the caller's access token. */
    method Logout(user: Uuid, now: Time, jti: string, expires: Time) returns (r: Result<(), Error>)
      requires Valid()
      modifies tables`tokens
      ensures r == if jti == "" || expires <= now then Err(Unauthorized) else Ok(())
      ensures tables.tokens == if r.Ok? then Tokens.RowsAfter(old(tables.tokens), Tokens.RevokeUser(user, now))
                               else old(tables.tokens)
      ensures r.Ok? ==> Sessions.UserRevoked(old(tables.tokens), tables.tokens, user, now)
    {
      Sessions.UserSweep(tables.tokens, user, now);
      if jti == "" || !(now < expires) {
        return Err(Unauthorized);
      }
      repo.RevokeByUserId(user, now);
      return Ok(());
    }

    method CleanupExpiredRefreshTokens(now: Time, graceDays: int)
      requires Valid()
      modifies tables`tokens
      ensures var days := if graceDays <= 0 then 7 else graceDays;
              && tables.tokens == Tokens.RowsAfter(old(tables.tokens), Tokens.Cleanup(now - days * 24 * 3600 * SECOND))
              && Sessions.CleanupLeaves(old(tables.tokens), tables.tokens, now - days * 86_400_000_000_000)
    {
      var days := graceDays;
      if days <= 0 {
        days := 7;
      }
      Sessions.CleanupOutcome(tables.tokens, now - days * 24 * 3600 * SECOND);
      var n := repo.DeleteExpired(now - days * 24 * 3600 * SECOND);
    }
  }

  class AdminUseCase {
    const tables: Tables
    const repo: RefreshTokenRepo

    constructor (tables: Tables)
      ensures this.tables == tables && Valid()
    {
      this.tables := tables;
      repo := new RefreshTokenRepo(tables);
    }

    ghost predicate Valid() {
      repo.tables == tables
    }

    method CheckDeletable(admin: Uuid, target: Uuid) returns (r: Result<User, Error>)
      ensures match DeleteChecks(tables.Value(), admin, target)
              case Ok(_) => target in tables.users && r == Ok(tables.users[target])
              case Err(e) => r == Err(e)
      ensures Sessions.DeletionReplies(tables.Value(), admin, target, if r.Ok? then Ok(()) else Err(r.error))
    {
      Sessions.DeletionChecked(tables.Value(), admin, target);
      if admin == target {
        return Err(CannotDeleteSelf);
      }
      if target !in tables.users {
        return Err(NotFound);
      }
      var user := tables.users[target];
      if user.IsDeleted() {
        return Err(UserAlreadyDeleted);
      }
      if user.IsMaster() {
        return Err(CannotDeleteMaster);
      }
      if HasActiveGame(tables.games, target) {
        return Err(UserInActiveGame);
      }
      return Ok(user);
    }

    /** The transaction; `row` is what CheckDeletable returned, which may be out of date by now. */
    method DeleteTransaction(admin: Uuid, target: Uuid, row: User, now: Time)
      requires Valid()
      modifies tables
      ensures tables.Value() == DeleteTx(old(tables.Value()), admin, target, row, now)
      ensures Sessions.DeletionLeaves(old(tables.Value()), tables.Value(), admin, target, row, now)
    {
      Sessions.DeletionOutcome(tables.Value(), admin, target, row, now);
      repo.RevokeByUserId(target, now);
      tables.queue := WithoutUser(tables.queue, target);
      tables.users := tables.users[target := row.(deletedAt := Some(now), deletedBy := Some(admin))];
    }

    method DeleteUser(admin: Uuid, target: Uuid, lockFree: bool, now: Time) returns (r: Result<(), Error>)
      requires Valid()
      modifies tables
      ensures r == if lockFree then DeleteChecks(old(tables.Value()), admin, target) else Err(RateLimitExceeded)
      ensures tables.Value() == if r.Ok? then Deleted(old(tables.Value()), admin, target, now) else old(tables.Value())
      ensures if !lockFree then r == Err(RateLimitExceeded)
              else Sessions.DeletionReplies(old(tables.Value()), admin, target, r)
      ensures if r.Err? then tables.Value() == old(tables.Value())
              else target in old(tables.users)
                   && Sessions.DeletionLeaves(old(tables.Value()), tables.Value(), admin, target,
                                              old(tables.users)[target], now)
    {
      Sessions.DeletionChecked(tables.Value(), admin, target);
      if !lockFree {
        return Err(RateLimitExceeded);
      }
      var user := CheckDeletable(admin, target);
      if user.Err? {
        return Err(user.error);
      }
      DeleteTransaction(admin, target, user.value, now);
      return Ok(());
    }
  }
}
