/** Turn timers and the use cases that set, clear and act on them (game_play.go, handle_timeout.go,
    game_recovery.go, redis/store.go). Each use case is one step that runs to completion. */
module Timers {
  import opened Common
  import opened Digits
  import opened Model
  import opened Duel
  import opened Effects
  import opened GameInvariant
  import opened Reachable
  import Ledger
  import Secrets

  /** A timer record. The key holding it disappears by itself at `goneAt`. */
  datatype Timer = Timer(turn: int, player: Uuid, startedAt: Time, expiresAt: Time, goneAt: Time)

  type Store = map<Uuid, Timer>

  /** SetTurn, reaching the store at the instant `at`: the key lives as long as the turn, but at
      least one second. */
  function NewTimer(turn: int, player: Uuid, startedAt: Time, expiresAt: Time, at: Time): Timer {
    var ttl := expiresAt - startedAt;
    Timer(turn, player, startedAt, expiresAt, at + if ttl < SECOND then SECOND else ttl)
  }

  function GetTurn(store: Store, gid: Uuid, at: Time): Option<Timer> {
    if gid in store && at < store[gid].goneAt then Some(store[gid]) else None
  }

  /** RemainingSeconds: the whole seconds left of a turn, 0 without a record or past its end. */
  function SecondsLeft(store: Store, gid: Uuid, now: Time, at: Time): (n: nat)
    ensures n > 0 ==> gid in store && n * SECOND <= store[gid].expiresAt - now < (n + 1) * SECOND
    ensures n == 0 <==> GetTurn(store, gid, at).None? || store[gid].expiresAt - now < SECOND
  {
    var seen := GetTurn(store, gid, at);
    if seen.None? || seen.value.expiresAt < now then 0 else (seen.value.expiresAt - now) / SECOND
  }

  /** The player of an expired record that can be seen at `at`. */
  predicate IsExpired(store: Store, gid: Uuid, player: Uuid, now: Time, at: Time) {
    Due(GetTurn(store, gid, at), player, now)
  }

  /** The class behind the turn-timer interface. */
  class TurnStore {
    var records: Store

    constructor ()
      ensures records == map[]
    {
      records := map[];
    }

    method SetTurn(gid: Uuid, turn: int, player: Uuid, startedAt: Time, expiresAt: Time, at: Time)
      modifies this
      ensures records == old(records)[gid := NewTimer(turn, player, startedAt, expiresAt, at)]
    {
      var ttl := expiresAt - startedAt;
      if ttl < SECOND {
        ttl := SECOND;
      }
      records := records[gid := Timer(turn, player, startedAt, expiresAt, at + ttl)];
    }

    method DeleteTurn(gid: Uuid)
      modifies this
      ensures records == old(records) - {gid}
    {
      records := records - {gid};
    }

    /** `pages` are the keys the cursor delivers, in whatever pages and however often. It delivers every
        key that does not vanish before the scan ends; each record is read at an instant of its own. */
    method ListExpiredTurns(now: Time, at: Uuid -> Time, end: Time, pages: seq<seq<Uuid>>)
      returns (out: seq<(Uuid, Uuid)>)
      requires forall gid :: at(gid) <= end
      requires forall gid | GetTurn(records, gid, end).Some? :: exists p :: 0 <= p < |pages| && gid in pages[p]
      ensures forall gid, player | (gid, player) in out :: IsExpired(records, gid, player, now, at(gid))
      ensures forall gid, player | IsExpired(records, gid, player, now, end) :: (gid, player) in out
    {
      out := [];
      for p := 0 to |pages|
        invariant forall e | e in out :: IsExpired(records, e.0, e.1, now, at(e.0))
        invariant forall q, gid, player | 0 <= q < p && gid in pages[q] && IsExpired(records, gid, player, now, end) ::
                    (gid, player) in out
      {
        var keys := pages[p];
        for i := 0 to |keys|
          invariant forall e | e in out :: IsExpired(records, e.0, e.1, now, at(e.0))
          invariant forall q, gid, player |
                      0 <= q < p && gid in pages[q] && IsExpired(records, gid, player, now, end) ::
                      (gid, player) in out
          invariant forall gid, player | gid in keys[..i] && IsExpired(records, gid, player, now, end) ::
                      (gid, player) in out
        {
          var seen := GetTurn(records, keys[i], at(keys[i]));
          if seen.Some? && seen.value.expiresAt <= now {
            out := out + [(keys[i], seen.value.player)];
          }
        }
        assert keys[..|keys|] == keys;
      }
      forall gid, player | IsExpired(records, gid, player, now, end) ensures (gid, player) in out {
        var p :| 0 <= p < |pages| && gid in pages[p];
      }
    }

    method RemainingSeconds(gid: Uuid, now: Time, at: Time) returns (n: nat)
      ensures n == SecondsLeft(records, gid, now, at)
    {
      var seen := GetTurn(records, gid, at);
      if seen.None? {
        return 0;
      }
      var left := seen.value.expiresAt - now;
      if left < 0 {
        return 0;
      }
      n := left / SECOND;
    }
  }

  /** A timer written at `at` for a turn that started at `start` can be found both present and
      expired at some instant if and only if the write came later than the start it records, or the
      turn is shorter than a second. A timer written without delay is gone the moment it expires. */
  lemma ExpiryVisibleIff(turn: int, player: Uuid, start: Time, duration: Time, at: Time, gid: Uuid, store: Store)
    requires start <= at
    ensures var after := store[gid := NewTimer(turn, player, start, start + duration, at)];
            (exists t: Time :: GetTurn(after, gid, t).Some? && after[gid].expiresAt <= t)
            <==> start < at || duration < SECOND
  {
    var after := store[gid := NewTimer(turn, player, start, start + duration, at)];
    var t := start + duration;
    if start < at || duration < SECOND {
      assert GetTurn(after, gid, t).Some? && after[gid].expiresAt <= t;
    }
  }

  // ---------- The use cases ----------

  datatype World = World(db: Db, timers: Store)

  /** The timer of the turn to be played in a game that is being played. */
  function Armed(cfg: Config, timers: Store, gid: Uuid, g: Game, now: Time, at: Time): Store {
    if g.turnPlayer.None? then timers
    else timers[gid := NewTimer(g.turn, g.turnPlayer.value, now, now + cfg.turnDuration, at)]
  }

  /** The clock readings of a use case that plays: inside the transaction, by the notification after
      it, and the instant at which the notification reaches the timer store. */
  datatype Clocks = Clocks(now: Time, later: Time, at: Time)

  /** SetSecretNumber. */
  function SecretUseCase(cfg: Config, w: World, user: Uuid, gid: Uuid, text: string, lockFree: bool, c: Clocks)
    : (World, Result<(), Error>)
  {
    if !lockFree then (w, Err(RateLimitExceeded))
    else match Parse(text)
      case Err(e) => (w, Err(e))
      case Ok(digits) =>
        if PlayerChecks(w.db, user).Err? then (w, Err(PlayerChecks(w.db, user).error))
        else match SetSecretTx(cfg, w.db, user, gid, digits, c.now)
          case (_, Err(e)) => (w, Err(e))
          case (db1, Ok(started)) =>
            if started && gid in db1.games
            then (World(db1, Armed(cfg, w.timers, gid, db1.games[gid], c.later, c.at)), Ok(()))
            else (World(db1, w.timers), Ok(()))
  }

  /** SubmitGuess. Automatic guesses do not take the lock. */
  function GuessUseCase(cfg: Config, w: World, user: Uuid, gid: Uuid, text: string, isAuto: bool, lockFree: bool,
                        ids: Ids, c: Clocks): (World, Result<(), Error>)
  {
    if !isAuto && !lockFree then (w, Err(RateLimitExceeded))
    else match Parse(text)
      case Err(e) => (w, Err(e))
      case Ok(digits) =>
        if PlayerChecks(w.db, user).Err? then (w, Err(PlayerChecks(w.db, user).error))
        else match GuessTx(cfg, w.db, user, gid, digits, isAuto, c.now, ids)
          case (_, Err(e)) => (w, Err(e))
          case (db1, Ok(reply)) =>
            if gid !in db1.games then (World(db1, w.timers), Ok(()))
            else if reply.isWin then (World(db1, w.timers - {gid}), Ok(()))
            else (World(db1, Armed(cfg, w.timers, gid, db1.games[gid], c.later, c.at)), Ok(()))
  }

  function CancelUseCase(cfg: Config, w: World, gid: Uuid, now: Time): World {
    match CancelTx(cfg, w.db, gid, now)
    case (_, false) => w
    case (db1, true) => World(db1, w.timers - {gid})
  }

  /** The check HandleTimeout makes of the game before acting: it passes on every branch. */
  function TimeoutChecks(db: Db, gid: Uuid, player: Uuid, turn: int): Result<(), Error> {
    if gid !in db.games then Ok(())
    else if db.games[gid].status != InProgress then Ok(())
    else if db.games[gid].turnPlayer != Some(player) then Ok(())
    else if db.games[gid].turn != turn then Ok(())
    else Ok(())
  }

  predicate IsTimeoutRace(e: Error) {
    e == NotYourTurn || e == GameAlreadyFinished || e == GameNotStarted || e == NotFound
  }

  predicate Due(seen: Option<Timer>, player: Uuid, now: Time) {
    seen.Some? && seen.value.player == player && seen.value.expiresAt <= now
  }

  /** What HandleTimeout is answered, whatever the store holds: by the lock, by its two reads of the
      store, and by the generator of guesses, None where there is none. */
  datatype Answers = Answers(lockFree: bool, seen: Option<Timer>, again: Option<Timer>, text: Option<string>) {
    /** The lock is free and both reads say that the player's time is up. */
    predicate SayDue(player: Uuid, now: Time) {
      lockFree && Due(seen, player, now) && Due(again, player, now)
    }
  }

  /** HandleTimeout, starting at `now`. */
  function TimeoutUseCase(cfg: Config, w: World, gid: Uuid, player: Uuid, a: Answers, now: Time, ids: Ids, c: Clocks)
    : (World, Result<(), Error>)
  {
    if !a.lockFree || !Due(a.seen, player, now) then (w, Ok(()))
    else match TimeoutChecks(w.db, gid, player, a.seen.value.turn)
      case Err(e) => (w, Err(e))
      case Ok(_) =>
        if !Due(a.again, player, now) then (w, Ok(()))
        else if a.text.None? then (w, Err(NoRandomSource))
        else match GuessUseCase(cfg, w, player, gid, a.text.value, true, true, ids, c)
          case (w1, Err(e)) => (w1, if IsTimeoutRace(e) then Ok(()) else Err(e))
          case (w1, Ok(_)) => (w1, Ok(()))
  }

  /** recoverInProgressGameTurn. */
  function RecoverTurn(cfg: Config, timers: Store, gid: Uuid, g: Game, now: Time, at: Time): Store {
    if g.turnPlayer.None? then timers
    else
      var seen := GetTurn(timers, gid, at);
      if seen.Some? && seen.value.expiresAt > now then timers else Armed(cfg, timers, gid, g, now, at)
  }

  function RecoverTurns(cfg: Config, db: Db, timers: Store, gids: seq<Uuid>, now: Time, at: Uuid -> Time): Store
    requires forall i | 0 <= i < |gids| :: gids[i] in db.games
    decreases |gids|
  {
    if gids == [] then timers
    else
      var timers1 := RecoverTurn(cfg, timers, gids[0], db.games[gids[0]], now, at(gids[0]));
      RecoverTurns(cfg, db, timers1, gids[1..], now, at)
  }

  function CancelAll(cfg: Config, w: World, gids: seq<Uuid>, clock: Uuid -> Time): World
    decreases |gids|
  {
    if gids == [] then w else CancelAll(cfg, CancelUseCase(cfg, w, gids[0], clock(gids[0])), gids[1..], clock)
  }

  /** The listings RecoverActiveGames asks for, in whatever order they come. */
  ghost predicate ListsInProgress(db: Db, gids: seq<Uuid>) {
    && (forall i | 0 <= i < |gids| :: gids[i] in db.games && db.games[gids[i]].status == InProgress)
    && (forall gid | gid in db.games && db.games[gid].status == InProgress :: gid in gids)
  }

  predicate Overdue(cfg: Config, g: Game, now: Time) {
    g.status == WaitingSecret && g.createdAt < now - cfg.secretSetup
  }

  ghost predicate ListsOverdue(cfg: Config, db: Db, gids: seq<Uuid>, now: Time) {
    && (forall i | 0 <= i < |gids| :: gids[i] in db.games && Overdue(cfg, db.games[gids[i]], now))
    && (forall gid | gid in db.games && Overdue(cfg, db.games[gid], now) :: gid in gids)
  }

  /** RecoverActiveGames: `now` is its clock reading, `at` the instants at which the store is reached
      and `later` the clock readings of the cancellations, each depending on the game. */
  function RecoverUseCase(cfg: Config, w: World, playing: seq<Uuid>, overdue: seq<Uuid>,
                          now: Time, at: Uuid -> Time, later: Uuid -> Time): World
    requires forall i | 0 <= i < |playing| :: playing[i] in w.db.games
  {
    CancelAll(cfg, World(w.db, RecoverTurns(cfg, w.db, w.timers, playing, now, at)), overdue, later)
  }

  // ---------- Timeout safety ----------

  lemma GuessUseCaseCommit(cfg: Config, w: World, user: Uuid, gid: Uuid, text: string, isAuto: bool, lockFree: bool,
                           ids: Ids, c: Clocks)
    ensures var (w1, r) := GuessUseCase(cfg, w, user, gid, text, isAuto, lockFree, ids, c);
            && (r.Err? ==> w1 == w)
            && (r.Ok? ==>
                  && Parse(text).Ok? && PlayerChecks(w.db, user).Ok?
                  && var (db1, reply) := GuessTx(cfg, w.db, user, gid, Parse(text).value, isAuto, c.now, ids);
                     reply.Ok? && w1.db == db1)
  {
  }

  /** Whatever the timer store answers, a timeout keeps the invariant. */
  lemma TimeoutKeepsInv(cfg: Config, w: World, gid: Uuid, player: Uuid, a: Answers, now: Time, ids: Ids, c: Clocks)
    requires Inv(cfg, w.db)
    ensures Inv(cfg, TimeoutUseCase(cfg, w, gid, player, a, now, ids, c).0.db)
  {
    var w1 := TimeoutUseCase(cfg, w, gid, player, a, now, ids, c).0;
    if w1 != w {
      GuessUseCaseCommit(cfg, w, player, gid, a.text.value, true, true, ids, c);
      GuessKeepsInv(cfg, w.db, player, gid, Parse(a.text.value).value, true, c.now, ids);
    }
  }

  /** The commit entered guess `ids.guess`: automatic, of `player`, for the turn `gid` was at. The
      game's row moved on as its verdict says, a win was recorded exactly if the guess hits the
      secret, and nothing else changed. */
  ghost predicate OneAutoGuess(db: Db, db1: Db, gid: Uuid, player: Uuid, ids: Ids, now: Time) {
    && gid in db.games && ids.guess !in db.guesses && ids.guess in db1.guesses
    && var row := db1.guesses[ids.guess];
       && row.isAuto && row.game == gid && row.player == player && row.turn == db.games[gid].turn
       && db1.guesses == db.guesses[ids.guess := row]
       && db1.games == db.games[gid := GuessedRow(db.games[gid], player, row.results, now)]
       && WinRecorded(db, db1, gid, player, row.results, now, ids.history)
       && db1.queue == db.queue && db1.tokens == db.tokens
  }

  lemma AutoGuessIsOne(cfg: Config, db: Db, gid: Uuid, player: Uuid, digits: Number, now: Time, ids: Ids)
    requires GamesInv(cfg, db) && GuessTx(cfg, db, player, gid, digits, true, now, ids).1.Ok?
    ensures OneAutoGuess(db, GuessTx(cfg, db, player, gid, digits, true, now, ids).0, gid, player, ids, now)
    ensures db.games[gid].CanGuess(player)
  {
    AcceptedGuess(cfg, db, player, gid, digits, true, now, ids);
    assert GameOk(cfg, db.users.Keys, db.guesses, gid, db.games[gid]);
  }

  /** Whatever the timer store answers, a timeout either changes nothing at all or enters exactly one
      guess, marked automatic, for the player to move in the locked game row. */
  lemma TimeoutIsSafe(cfg: Config, w: World, gid: Uuid, player: Uuid, a: Answers, now: Time, ids: Ids, c: Clocks)
    requires GamesInv(cfg, w.db)
    ensures var w1 := TimeoutUseCase(cfg, w, gid, player, a, now, ids, c).0;
            w1 == w || (OneAutoGuess(w.db, w1.db, gid, player, ids, c.now) && w.db.games[gid].CanGuess(player))
  {
    var w1 := TimeoutUseCase(cfg, w, gid, player, a, now, ids, c).0;
    if w1 != w {
      GuessUseCaseCommit(cfg, w, player, gid, a.text.value, true, true, ids, c);
      AutoGuessIsOne(cfg, w.db, gid, player, Parse(a.text.value).value, c.now, ids);
    }
  }

  /** A timeout is an automatic guess, made when both reads of the store say the player's time is up. */
  lemma TimeoutIsGuess(cfg: Config, w: World, gid: Uuid, player: Uuid, a: Answers, now: Time, ids: Ids, c: Clocks)
    requires a.text.Some?
    ensures TimeoutUseCase(cfg, w, gid, player, a, now, ids, c).0
            == if a.SayDue(player, now)
               then GuessUseCase(cfg, w, player, gid, a.text.value, true, true, ids, c).0
               else w
  {
  }

  /** Exactly when a timeout enters a guess. The turn number in the timer record is not among the
      conditions: the check that reads it cannot fail. */
  lemma TimeoutActsIff(cfg: Config, w: World, gid: Uuid, player: Uuid, a: Answers, now: Time, ids: Ids, c: Clocks)
    requires Secrets.HexDigests(cfg.hasher) && GamesInv(cfg, w.db)
    requires Ledger.HistoriesOk(w.db.games, w.db.histories)
    requires ids.guess !in w.db.guesses && ids.history !in w.db.histories
    requires a.text.Some? && Parse(a.text.value).Ok?
    ensures ids.guess in TimeoutUseCase(cfg, w, gid, player, a, now, ids, c).0.db.guesses
            <==> a.SayDue(player, now) && PlayerChecks(w.db, player).Ok?
                 && gid in w.db.games && w.db.games[gid].CanGuess(player)
  {
    OpenGameHasNoHistory(cfg, w.db, gid);
    TimeoutIsGuess(cfg, w, gid, player, a, now, ids, c);
    AutoGuessEntered(cfg, w, gid, player, a.text.value, ids, c);
  }

  lemma AutoGuessEntered(cfg: Config, w: World, gid: Uuid, player: Uuid, text: string, ids: Ids, c: Clocks)
    requires Secrets.HexDigests(cfg.hasher) && GamesInv(cfg, w.db)
    requires ids.guess !in w.db.guesses && ids.history !in w.db.histories && Parse(text).Ok?
    requires gid in w.db.games && w.db.games[gid].status == InProgress ==> !HasHistory(w.db.histories, gid)
    ensures ids.guess in GuessUseCase(cfg, w, player, gid, text, true, true, ids, c).0.db.guesses
            <==> PlayerChecks(w.db, player).Ok? && gid in w.db.games && w.db.games[gid].CanGuess(player)
  {
    ParseAccepts(text);
    var digits := Parse(text).value;
    GuessUseCaseCommit(cfg, w, player, gid, text, true, true, ids, c);
    GuessFailsOnlyVisibly(cfg, w.db, player, gid, digits, true, c.now, ids);
    if GuessTx(cfg, w.db, player, gid, digits, true, c.now, ids).1.Ok? {
      AutoGuessIsOne(cfg, w.db, gid, player, digits, c.now, ids);
    }
    if gid in w.db.games && w.db.games[gid].CanGuess(player) {
      MoverHasTarget(cfg, w.db, gid, player);
    }
  }

  lemma MoverHasTarget(cfg: Config, db: Db, gid: Uuid, player: Uuid)
    requires GamesInv(cfg, db) && gid in db.games && db.games[gid].CanGuess(player)
    ensures db.games[gid].IsParticipant(player) && TargetSecret(db.games[gid], player) != ""
    ensures Refusal(db, player, gid) == None
  {
    assert GameOk(cfg, db.users.Keys, db.guesses, gid, db.games[gid]);
  }

  // ---------- Timers agree with games ----------

  /** Every stored timer names the current turn and the player to move of a game in progress. */
  ghost predicate TimersAgree(w: World) {
    forall gid | gid in w.timers ::
      && gid in w.db.games && w.db.games[gid].status == InProgress
      && w.timers[gid].turn == w.db.games[gid].turn
      && w.db.games[gid].turnPlayer == Some(w.timers[gid].player)
  }

  ghost predicate WorldInv(cfg: Config, w: World) {
    Inv(cfg, w.db) && TimersAgree(w)
  }

  /** The steps of the whole server: commits that do not play, complete use cases that do, and the
      store dropping a key. */
  datatype WStep =
    | Commit(s: Step)
    | Secret(user: Uuid, gid: Uuid, text: string, lockFree: bool, c: Clocks)
    | Guess(player: Uuid, game: Uuid, guess: string, guessLock: bool, ids: Ids, gc: Clocks)
    | Cancel(waiting: Uuid, cancelledAt: Time)
    | Timeout(late: Uuid, latePlayer: Uuid, a: Answers, noticedAt: Time, autoIds: Ids, ac: Clocks)
    | Recover(playing: seq<Uuid>, overdue: seq<Uuid>, startedAt: Time, restoredAt: Uuid -> Time,
              clearedAt: Uuid -> Time)
    | Vanish(gone: Uuid)

  ghost function After(cfg: Config, w: World, s: WStep): World {
    match s
    case Commit(c) =>
      if c.SetSecret? || c.SubmitGuess? || c.CancelGame? then w else World(Apply(cfg, w.db, c), w.timers)
    case Secret(user, gid, text, free, c) => SecretUseCase(cfg, w, user, gid, text, free, c).0
    case Guess(user, gid, text, free, ids, c) =>
      GuessUseCase(cfg, w, user, gid, text, false, free, ids, c).0
    case Cancel(gid, now) => CancelUseCase(cfg, w, gid, now)
    case Timeout(gid, player, a, now, ids, c) =>
      TimeoutUseCase(cfg, w, gid, player, a, now, ids, c).0
    case Recover(playing, overdue, now, at, later) =>
      if ListsInProgress(w.db, playing) && ListsOverdue(cfg, w.db, overdue, now)
      then RecoverUseCase(cfg, w, playing, overdue, now, at, later) else w
    case Vanish(gid) => World(w.db, w.timers - {gid})
  }

  ghost function Life(cfg: Config, w: World, steps: seq<WStep>): World
    decreases |steps|
  {
    if steps == [] then w else Life(cfg, After(cfg, w, steps[0]), steps[1..])
  }

  /** A commit that does not play leaves every game in progress as it is. */
  lemma CommitKeepsTimers(cfg: Config, w: World, s: Step)
    requires TimersAgree(w) && !s.SetSecret? && !s.SubmitGuess? && !s.CancelGame?
    ensures TimersAgree(World(Apply(cfg, w.db, s), w.timers))
  {
    match s
    case Register(_, _, _) =>
    case DeleteUser(admin, target, now) => DeleteUserEffect(w.db, admin, target, now);
    case StartMatching(user, now, entryId, picked, later, gameId) =>
      var mid := Queued(w.db, user, now, entryId);
      if entryId !in w.db.queue && OldestFirst(mid.queue, 2, picked) {
        MatchEffect(w.db, mid, picked, later, gameId);
      }
    case LeaveQueue(_) =>
    case TokenStep(_) =>
  }

  lemma SecretKeepsTimers(cfg: Config, w: World, user: Uuid, gid: Uuid, text: string, lockFree: bool, c: Clocks)
    requires TimersAgree(w)
    ensures TimersAgree(SecretUseCase(cfg, w, user, gid, text, lockFree, c).0)
  {
    if SecretUseCase(cfg, w, user, gid, text, lockFree, c).1.Ok? {
      SetSecretEffect(cfg, w.db, user, gid, Parse(text).value, c.now);
      assert gid !in w.timers;
    }
  }

  lemma SecretKeepsWorld(cfg: Config, w: World, user: Uuid, gid: Uuid, text: string, lockFree: bool, c: Clocks)
    requires WorldInv(cfg, w)
    ensures WorldInv(cfg, SecretUseCase(cfg, w, user, gid, text, lockFree, c).0)
  {
    SecretKeepsTimers(cfg, w, user, gid, text, lockFree, c);
    if SecretUseCase(cfg, w, user, gid, text, lockFree, c).1.Ok? {
      SecretKeepsInv(cfg, w.db, user, gid, Parse(text).value, c.now);
    }
  }

  lemma GuessKeepsTimers(cfg: Config, w: World, user: Uuid, gid: Uuid, text: string, isAuto: bool, lockFree: bool,
                         ids: Ids, c: Clocks)
    requires GamesInv(cfg, w.db) && TimersAgree(w)
    ensures TimersAgree(GuessUseCase(cfg, w, user, gid, text, isAuto, lockFree, ids, c).0)
  {
    if GuessUseCase(cfg, w, user, gid, text, isAuto, lockFree, ids, c).1.Ok? {
      GuessUseCaseCommit(cfg, w, user, gid, text, isAuto, lockFree, ids, c);
      AcceptedGuess(cfg, w.db, user, gid, Parse(text).value, isAuto, c.now, ids);
      GuessEffect(cfg, w.db, user, gid, Parse(text).value, isAuto, c.now, ids);
      TimersAfterGuess(cfg, w, GuessTx(cfg, w.db, user, gid, Parse(text).value, isAuto, c.now, ids).0, gid, user,
                       Verdict(cfg, w.db.games[gid], gid, user, Parse(text).value).value, c);
    }
  }

  lemma TimersAfterGuess(cfg: Config, w: World, db1: Db, gid: Uuid, user: Uuid, results: FourResults, c: Clocks)
    requires TimersAgree(w) && gid in w.db.games && w.db.games[gid].status == InProgress
    requires db1.games == w.db.games[gid := GuessedRow(w.db.games[gid], user, results, c.now)]
    ensures gid in db1.games
    ensures TimersAgree(World(db1, if FullHit(results) then w.timers - {gid}
                                   else Armed(cfg, w.timers, gid, db1.games[gid], c.later, c.at)))
  {
  }

  lemma GuessKeepsWorld(cfg: Config, w: World, user: Uuid, gid: Uuid, text: string, isAuto: bool, lockFree: bool,
                        ids: Ids, c: Clocks)
    requires WorldInv(cfg, w)
    ensures WorldInv(cfg, GuessUseCase(cfg, w, user, gid, text, isAuto, lockFree, ids, c).0)
  {
    GuessKeepsTimers(cfg, w, user, gid, text, isAuto, lockFree, ids, c);
    GuessUseCaseCommit(cfg, w, user, gid, text, isAuto, lockFree, ids, c);
    if GuessUseCase(cfg, w, user, gid, text, isAuto, lockFree, ids, c).1.Ok? {
      GuessKeepsInv(cfg, w.db, user, gid, Parse(text).value, isAuto, c.now, ids);
    }
  }

  lemma CancelKeepsTimers(cfg: Config, w: World, gid: Uuid, now: Time)
    requires TimersAgree(w)
    ensures TimersAgree(CancelUseCase(cfg, w, gid, now))
    ensures CancelUseCase(cfg, w, gid, now).db == CancelTx(cfg, w.db, gid, now).0
  {
    CancelEffect(cfg, w.db, gid, now);
  }

  lemma CancelKeepsWorld(cfg: Config, w: World, gid: Uuid, now: Time)
    requires WorldInv(cfg, w)
    ensures WorldInv(cfg, CancelUseCase(cfg, w, gid, now))
  {
    CancelKeepsTimers(cfg, w, gid, now);
    CancelKeepsInv(cfg, w.db, gid, now);
    SameDbSameInv(cfg, CancelTx(cfg, w.db, gid, now).0, CancelUseCase(cfg, w, gid, now).db);
  }

  lemma TimeoutKeepsWorld(cfg: Config, w: World, s: WStep)
    requires WorldInv(cfg, w) && s.Timeout?
    ensures WorldInv(cfg, After(cfg, w, s))
  {
    if After(cfg, w, s) != w {
      GuessKeepsWorld(cfg, w, s.latePlayer, s.late, s.a.text.value, true, true, s.autoIds, s.ac);
    }
  }

  lemma {:induction false} RecoverTurnsKeepsTimers(cfg: Config, db: Db, timers: Store, gids: seq<Uuid>, now: Time,
                                                   at: Uuid -> Time)
    requires TimersAgree(World(db, timers))
    requires forall i | 0 <= i < |gids| :: gids[i] in db.games && db.games[gids[i]].status == InProgress
    ensures TimersAgree(World(db, RecoverTurns(cfg, db, timers, gids, now, at)))
    decreases |gids|
  {
    if gids != [] {
      var timers1 := RecoverTurn(cfg, timers, gids[0], db.games[gids[0]], now, at(gids[0]));
      RecoverTurnsKeepsTimers(cfg, db, timers1, gids[1..], now, at);
    }
  }

  lemma {:induction false} CancelAllKeepsWorld(cfg: Config, w: World, gids: seq<Uuid>, clock: Uuid -> Time)
    requires WorldInv(cfg, w)
    ensures WorldInv(cfg, CancelAll(cfg, w, gids, clock))
    decreases |gids|
  {
    if gids != [] {
      CancelKeepsWorld(cfg, w, gids[0], clock(gids[0]));
      CancelAllKeepsWorld(cfg, CancelUseCase(cfg, w, gids[0], clock(gids[0])), gids[1..], clock);
    }
  }

  lemma RecoverKeepsWorld(cfg: Config, w: World, playing: seq<Uuid>, overdue: seq<Uuid>, now: Time, at: Uuid -> Time,
                          later: Uuid -> Time)
    requires WorldInv(cfg, w) && ListsInProgress(w.db, playing)
    ensures WorldInv(cfg, RecoverUseCase(cfg, w, playing, overdue, now, at, later))
  {
    RecoverTurnsKeepsTimers(cfg, w.db, w.timers, playing, now, at);
    CancelAllKeepsWorld(cfg, World(w.db, RecoverTurns(cfg, w.db, w.timers, playing, now, at)), overdue, later);
  }

  lemma CommitKeepsWorld(cfg: Config, w: World, s: WStep)
    requires WorldInv(cfg, w) && s.Commit?
    ensures WorldInv(cfg, After(cfg, w, s))
  {
    if !s.s.SetSecret? && !s.s.SubmitGuess? && !s.s.CancelGame? {
      StepKeepsInv(cfg, w.db, s.s);
      CommitKeepsTimers(cfg, w, s.s);
    }
  }

  /** SetSecretNumber and SubmitGuess. */
  lemma PlayKeepsWorld(cfg: Config, w: World, s: WStep)
    requires WorldInv(cfg, w) && (s.Secret? || s.Guess?)
    ensures WorldInv(cfg, After(cfg, w, s))
  {
    if s.Secret? {
      SecretKeepsWorld(cfg, w, s.user, s.gid, s.text, s.lockFree, s.c);
    } else {
      GuessKeepsWorld(cfg, w, s.player, s.game, s.guess, false, s.guessLock, s.ids, s.gc);
    }
  }

  lemma CancelStep(cfg: Config, w: World, s: WStep)
    requires s.Cancel?
    ensures After(cfg, w, s) == CancelUseCase(cfg, w, s.waiting, s.cancelledAt)
  {
  }

  lemma RecoverStepKeepsWorld(cfg: Config, w: World, s: WStep)
    requires WorldInv(cfg, w) && s.Recover?
    ensures WorldInv(cfg, After(cfg, w, s))
  {
    if ListsInProgress(w.db, s.playing) {
      RecoverKeepsWorld(cfg, w, s.playing, s.overdue, s.startedAt, s.restoredAt, s.clearedAt);
    }
  }

  lemma VanishKeepsTimers(w: World, gid: Uuid)
    requires TimersAgree(w)
    ensures TimersAgree(World(w.db, w.timers - {gid}))
  {
  }

  lemma VanishKeepsWorld(cfg: Config, w: World, s: WStep)
    requires WorldInv(cfg, w) && s.Vanish?
    ensures WorldInv(cfg, After(cfg, w, s))
  {
    VanishKeepsTimers(w, s.gone);
    SameDbSameInv(cfg, w.db, After(cfg, w, s).db);
  }

  lemma WStepKeepsWorld(cfg: Config, w: World, s: WStep)
    requires WorldInv(cfg, w)
    ensures WorldInv(cfg, After(cfg, w, s))
  {
    if s.Commit? {
      CommitKeepsWorld(cfg, w, s);
    } else if s.Timeout? {
      TimeoutKeepsWorld(cfg, w, s);
    } else if s.Secret? || s.Guess? {
      PlayKeepsWorld(cfg, w, s);
    } else if s.Cancel? {
      CancelKeepsWorld(cfg, w, s.waiting, s.cancelledAt);
      CancelStep(cfg, w, s);
    } else if s.Recover? {
      RecoverStepKeepsWorld(cfg, w, s);
    } else {
      VanishKeepsWorld(cfg, w, s);
    }
  }

  /** Over any life of the server, with use cases run to completion, every stored timer names the
      current turn and player of a game in progress. */
  lemma {:induction false} LifeKeepsWorld(cfg: Config, w: World, steps: seq<WStep>)
    requires WorldInv(cfg, w)
    ensures WorldInv(cfg, Life(cfg, w, steps))
    decreases |steps|
  {
    if steps != [] {
      WStepKeepsWorld(cfg, w, steps[0]);
      LifeKeepsWorld(cfg, After(cfg, w, steps[0]), steps[1..]);
    }
  }

  /** So a timeout that reads the store as it is acts on the very turn the record names. */
  lemma TimeoutActsOnNamedTurn(cfg: Config, w: World, gid: Uuid, player: Uuid, a: Answers, read: Time,
                               now: Time, ids: Ids, c: Clocks)
    requires WorldInv(cfg, w) && ids.guess !in w.db.guesses && a.seen == GetTurn(w.timers, gid, read)
    ensures var w1 := TimeoutUseCase(cfg, w, gid, player, a, now, ids, c).0;
            ids.guess in w1.db.guesses ==> a.seen.Some? && w1.db.guesses[ids.guess].turn == a.seen.value.turn
  {
    TimeoutIsSafe(cfg, w, gid, player, a, now, ids, c);
  }

  /** A record the listing of expired turns delivers is acted on: if it can still be seen, the lock
      is free and the player may play, the timeout enters a guess for the turn the record names. */
  lemma ListedTurnIsPlayed(cfg: Config, w: World, gid: Uuid, player: Uuid, scanned: Time, at: Time,
                           a: Answers, first: Time, second: Time, now: Time, ids: Ids, c: Clocks)
    requires Secrets.HexDigests(cfg.hasher) && WorldInv(cfg, w)
    requires ids.guess !in w.db.guesses && ids.history !in w.db.histories && PlayerChecks(w.db, player).Ok?
    requires IsExpired(w.timers, gid, player, scanned, at) && scanned <= now
    requires a.lockFree && a.text.Some? && Parse(a.text.value).Ok?
    requires a.seen.Some? && a.seen == GetTurn(w.timers, gid, first)
    requires a.again.Some? && a.again == GetTurn(w.timers, gid, second)
    ensures var w1 := TimeoutUseCase(cfg, w, gid, player, a, now, ids, c).0;
            && OneAutoGuess(w.db, w1.db, gid, player, ids, c.now)
            && w1.db.guesses[ids.guess].turn == w.timers[gid].turn
  {
    TimeoutActsIff(cfg, w, gid, player, a, now, ids, c);
    TimeoutIsSafe(cfg, w, gid, player, a, now, ids, c);
  }

  // ---------- Recovery ----------

  predicate Live(timers: Store, gid: Uuid, now: Time, at: Time) {
    GetTurn(timers, gid, at).Some? && timers[gid].expiresAt > now
  }

  /** The record recovery leaves for a game: a live one is kept, whatever it names. */
  function Rearmed(cfg: Config, timers: Store, gid: Uuid, g: Game, now: Time, at: Time): Timer
    requires g.turnPlayer.Some?
  {
    if Live(timers, gid, now, at) then timers[gid]
    else NewTimer(g.turn, g.turnPlayer.value, now, now + cfg.turnDuration, at)
  }

  lemma {:induction false} RecoverTurnsOutcome(cfg: Config, db: Db, timers: Store, gids: seq<Uuid>, now: Time,
                                               at: Uuid -> Time, gid: Uuid)
    requires cfg.turnDuration > 0
    requires forall i | 0 <= i < |gids| :: gids[i] in db.games && db.games[gids[i]].turnPlayer.Some?
    ensures var after := RecoverTurns(cfg, db, timers, gids, now, at);
            if gid in gids
            then gid in after && after[gid] == Rearmed(cfg, timers, gid, db.games[gid], now, at(gid))
            else (gid in after <==> gid in timers) && (gid in timers ==> after[gid] == timers[gid])
    decreases |gids|
  {
    if gids != [] {
      var timers1 := RecoverTurn(cfg, timers, gids[0], db.games[gids[0]], now, at(gids[0]));
      RecoverTurnsOutcome(cfg, db, timers1, gids[1..], now, at, gid);
      assert gid in gids <==> gid == gids[0] || gid in gids[1..];
    }
  }

  /** Cancelling one game, whatever the store holds: it is finished without a winner if it is overdue,
      and then its record is removed; nothing else changes. */
  lemma CancelOutcome(cfg: Config, w: World, gid: Uuid, now: Time)
    requires GamesInv(cfg, w.db)
    ensures CancelUseCase(cfg, w, gid, now)
            == if gid in w.db.games && Overdue(cfg, w.db.games[gid], now)
               then World(w.db.(games := w.db.games[gid := Expired(w.db.games[gid], now)]), w.timers - {gid})
               else w
  {
    if gid in w.db.games && w.db.games[gid].status == WaitingSecret {
      assert GameOk(cfg, w.db.users.Keys, w.db.guesses, gid, w.db.games[gid]);
    }
  }

  /** The games after the listed overdue ones have been cancelled. */
  function Cleared(cfg: Config, games: map<Uuid, Game>, gids: seq<Uuid>, clock: Uuid -> Time): map<Uuid, Game> {
    map gid | gid in games ::
      if gid in gids && Overdue(cfg, games[gid], clock(gid))
      then Expired(games[gid], clock(gid))
      else games[gid]
  }

  lemma ClearedOneByOne(cfg: Config, games: map<Uuid, Game>, games0: map<Uuid, Game>, gids: seq<Uuid>,
                        clock: Uuid -> Time)
    requires gids != []
    requires games0 == if gids[0] in games && Overdue(cfg, games[gids[0]], clock(gids[0]))
                       then games[gids[0] := Expired(games[gids[0]], clock(gids[0]))]
                       else games
    ensures Cleared(cfg, games0, gids[1..], clock) == Cleared(cfg, games, gids, clock)
  {
    assert forall gid :: gid in gids <==> gid == gids[0] || gid in gids[1..];
  }

  /** Records of games that are not waiting stay. */
  ghost predicate SameForPlaying(db: Db, timers: Store, timers1: Store) {
    forall gid | gid in db.games && db.games[gid].status != WaitingSecret ::
      (gid in timers1 <==> gid in timers) && (gid in timers ==> timers1[gid] == timers[gid])
  }

  lemma {:induction false} CancelAllOutcome(cfg: Config, w: World, gids: seq<Uuid>, clock: Uuid -> Time)
    requires GamesInv(cfg, w.db)
    ensures CancelAll(cfg, w, gids, clock).db == w.db.(games := Cleared(cfg, w.db.games, gids, clock))
    ensures SameForPlaying(w.db, w.timers, CancelAll(cfg, w, gids, clock).timers)
    decreases |gids|
  {
    if gids == [] {
      assert Cleared(cfg, w.db.games, gids, clock) == w.db.games;
    } else {
      var w0 := CancelUseCase(cfg, w, gids[0], clock(gids[0]));
      CancelOutcome(cfg, w, gids[0], clock(gids[0]));
      CancelKeepsGames(cfg, w.db, gids[0], clock(gids[0]));
      CancelAllOutcome(cfg, w0, gids[1..], clock);
      ClearedOneByOne(cfg, w.db.games, w0.db.games, gids, clock);
    }
  }

  /** The record names the turn and the player to move. */
  predicate Names(r: Timer, g: Game) {
    r.turn == g.turn && g.turnPlayer == Some(r.player)
  }

  lemma PlayingHaveMovers(cfg: Config, db: Db, playing: seq<Uuid>)
    requires GamesInv(cfg, db) && ListsInProgress(db, playing)
    ensures forall i | 0 <= i < |playing| :: db.games[playing[i]].turnPlayer.Some?
  {
    forall i | 0 <= i < |playing| ensures db.games[playing[i]].turnPlayer.Some? {
      assert GameOk(cfg, db.users.Keys, db.guesses, playing[i], db.games[playing[i]]);
    }
  }

  lemma RecoveredRecord(cfg: Config, w: World, playing: seq<Uuid>, overdue: seq<Uuid>, now: Time,
                        at: Uuid -> Time, later: Uuid -> Time, gid: Uuid)
    requires GamesInv(cfg, w.db) && cfg.turnDuration > 0 && ListsInProgress(w.db, playing)
    requires gid in w.db.games && w.db.games[gid].status == InProgress
    ensures w.db.games[gid].turnPlayer.Some?
    ensures var timers := RecoverUseCase(cfg, w, playing, overdue, now, at, later).timers;
            gid in timers && timers[gid] == Rearmed(cfg, w.timers, gid, w.db.games[gid], now, at(gid))
  {
    PlayingHaveMovers(cfg, w.db, playing);
    RecoverTurnsOutcome(cfg, w.db, w.timers, playing, now, at, gid);
    CancelAllOutcome(cfg, World(w.db, RecoverTurns(cfg, w.db, w.timers, playing, now, at)), overdue, later);
  }

  /** After RecoverActiveGames, whatever the store held before, every game in progress has a record that
      expires later than now. It names the turn of the game unless a live record of another turn was
      there already: that one is kept. */
  lemma RecoveryNamesTurnIff(cfg: Config, w: World, playing: seq<Uuid>, overdue: seq<Uuid>, now: Time,
                             at: Uuid -> Time, later: Uuid -> Time, gid: Uuid)
    requires GamesInv(cfg, w.db) && cfg.turnDuration > 0 && ListsInProgress(w.db, playing)
    requires gid in w.db.games && w.db.games[gid].status == InProgress
    ensures var timers, g := RecoverUseCase(cfg, w, playing, overdue, now, at, later).timers, w.db.games[gid];
            && Live(timers, gid, now, at(gid))
            && (Names(timers[gid], g) <==> !(Live(w.timers, gid, now, at(gid)) && !Names(w.timers[gid], g)))
  {
    RecoveredRecord(cfg, w, playing, overdue, now, at, later, gid);
  }

  /** After RecoverActiveGames, whatever the store held before, every game whose secret deadline has
      passed is finished without a winner; and every other row, in particular of a game at or before
      its deadline, is as it was. */
  lemma RecoveryClears(cfg: Config, w: World, playing: seq<Uuid>, overdue: seq<Uuid>, now: Time, at: Uuid -> Time,
                       later: Uuid -> Time)
    requires GamesInv(cfg, w.db) && (forall gid :: now <= later(gid))
    requires ListsInProgress(w.db, playing) && ListsOverdue(cfg, w.db, overdue, now)
    ensures var w1 := RecoverUseCase(cfg, w, playing, overdue, now, at, later);
            && w1.db == w.db.(games := w1.db.games) && w1.db.games.Keys == w.db.games.Keys
            && forall gid | gid in w.db.games ::
                 w1.db.games[gid] == if Overdue(cfg, w.db.games[gid], now)
                                     then Expired(w.db.games[gid], later(gid))
                                     else w.db.games[gid]
  {
    CancelAllOutcome(cfg, World(w.db, RecoverTurns(cfg, w.db, w.timers, playing, now, at)), overdue, later);
    ClearedOverdue(cfg, w.db, overdue, now, later);
  }

  lemma AllNamed(cfg: Config, w: World, playing: seq<Uuid>, overdue: seq<Uuid>, now: Time, at: Uuid -> Time,
                 later: Uuid -> Time)
    requires GamesInv(cfg, w.db) && TimersAgree(w) && cfg.turnDuration > 0 && ListsInProgress(w.db, playing)
    ensures var timers := RecoverUseCase(cfg, w, playing, overdue, now, at, later).timers;
            forall gid | gid in w.db.games && w.db.games[gid].status == InProgress ::
              Live(timers, gid, now, at(gid)) && Names(timers[gid], w.db.games[gid])
  {
    forall gid | gid in w.db.games && w.db.games[gid].status == InProgress
      ensures var timers := RecoverUseCase(cfg, w, playing, overdue, now, at, later).timers;
              Live(timers, gid, now, at(gid)) && Names(timers[gid], w.db.games[gid])
    {
      RecoveryNamesTurnIff(cfg, w, playing, overdue, now, at, later, gid);
    }
  }

  /** Where the timers agreed with the games before, they agree after RecoverActiveGames; every game in
      progress has a timer that names its turn and expires later than now; every game whose secret
      deadline has passed is finished without a winner; and every other row is as it was. */
  lemma RecoveryIsComplete(cfg: Config, w: World, playing: seq<Uuid>, overdue: seq<Uuid>, now: Time, at: Uuid -> Time,
                           later: Uuid -> Time)
    requires WorldInv(cfg, w) && cfg.turnDuration > 0 && (forall gid :: now <= later(gid))
    requires ListsInProgress(w.db, playing) && ListsOverdue(cfg, w.db, overdue, now)
    ensures var w1 := RecoverUseCase(cfg, w, playing, overdue, now, at, later);
            && WorldInv(cfg, w1)
            && w1.db == w.db.(games := w1.db.games) && w1.db.games.Keys == w.db.games.Keys
            && forall gid | gid in w.db.games ::
                 && (w.db.games[gid].status == InProgress ==>
                       Live(w1.timers, gid, now, at(gid)) && Names(w1.timers[gid], w.db.games[gid]))
                 && w1.db.games[gid] == if Overdue(cfg, w.db.games[gid], now)
                                        then Expired(w.db.games[gid], later(gid))
                                        else w.db.games[gid]
  {
    RecoverKeepsWorld(cfg, w, playing, overdue, now, at, later);
    AllNamed(cfg, w, playing, overdue, now, at, later);
    RecoveryClears(cfg, w, playing, overdue, now, at, later);
  }

  lemma ClearedOverdue(cfg: Config, db: Db, overdue: seq<Uuid>, now: Time, later: Uuid -> Time)
    requires ListsOverdue(cfg, db, overdue, now) && (forall gid :: now <= later(gid))
    ensures forall gid | gid in db.games ::
              Cleared(cfg, db.games, overdue, later)[gid] ==
              if Overdue(cfg, db.games[gid], now)
              then Expired(db.games[gid], later(gid))
              else db.games[gid]
  {
    forall gid | gid in db.games && gid in overdue ensures Overdue(cfg, db.games[gid], now) {
      var i :| 0 <= i < |overdue| && overdue[i] == gid;
    }
  }
}
