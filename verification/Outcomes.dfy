/** What each use case of the game leaves behind, written out field by field (usecase/game_play.go,
    game_recovery.go, handle_timeout.go, matching.go). Nothing here is said through the functions that
    compute it. */
module Outcomes {
  import opened Common
  import opened Digits
  import opened Model
  import opened Duel
  import opened Effects
  import opened GameInvariant
  import opened Reachable
  import opened Timers
  import Ledger
  import Secrets

  // ---------- Play ----------

  /** The record of a turn: who is to play it, when its time began and ends, and when the key vanishes,
      which is as long after the write as the turn takes, but at least a second. */
  predicate TurnRecord(r: Timer, turn: int, player: Uuid, began: Time, written: Time, duration: Time) {
    && r.turn == turn && r.player == player
    && r.startedAt == began && r.expiresAt == began + duration
    && r.goneAt == if duration < 1_000_000_000 then written + 1_000_000_000 else written + duration
  }

  /** The records of all other games stay. */
  ghost predicate OtherTimersStay(before: Store, after: Store, gid: Uuid) {
    forall k | k != gid :: (k in after <==> k in before) && (k in before ==> after[k] == before[k])
  }

  predicate AllHit(results: FourResults) {
    results[0] == Hit && results[1] == Hit && results[2] == Hit && results[3] == Hit
  }

  /** After an accepted guess the log has one more row, the game has moved on, a win is on record exactly
      if every digit was hit, and no other row changed. */
  ghost predicate GuessLeavesRows(db: Db, db1: Db, user: Uuid, gid: Uuid, text: string, isAuto: bool, now: Time,
                                  ids: Ids)
  {
    && gid in db.games && ids.guess !in db.guesses && ids.guess in db1.guesses && user in db.users
    && var g, row := db.games[gid], db1.guesses[ids.guess];
       var other := if user == g.player1 then g.player2 else g.player1;
       && db1.guesses == db.guesses[ids.guess := row]
       && row.game == gid && row.player == user && row.turn == g.turn && row.number == text && row.isAuto == isAuto
       && row.hitCount == |set i | 0 <= i < 4 && row.results[i] == Hit|
       && db1.queue == db.queue && db1.tokens == db.tokens
       && if AllHit(row.results) then
            && db1.games == db.games[gid := g.(turn := g.turn + 1, turnPlayer := Some(other), status := Finished,
                                               winner := Some(user), finishedAt := Some(now))]
            && other in db.users && ids.history !in db.histories
            && db1.histories == db.histories[ids.history := History(gid, user, other, db.users[user].username,
                                                                    db.users[other].username, now)]
            && db1.users == db.users[user := db.users[user].(winCount := db.users[user].winCount + 1)]
          else
            && db1.games == db.games[gid := g.(turn := g.turn + 1, turnPlayer := Some(other))]
            && db1.histories == db.histories && db1.users == db.users
  }

  /** And the timer of the game is that of the opponent's turn, or gone if the game is won. */
  ghost predicate GuessLeavesTimers(cfg: Config, w: World, w1: World, user: Uuid, gid: Uuid, ids: Ids, c: Clocks) {
    && gid in w.db.games && ids.guess in w1.db.guesses && OtherTimersStay(w.timers, w1.timers, gid)
    && var g := w.db.games[gid];
       var other := if user == g.player1 then g.player2 else g.player1;
       if AllHit(w1.db.guesses[ids.guess].results) then gid !in w1.timers
       else gid in w1.timers && TurnRecord(w1.timers[gid], g.turn + 1, other, c.later, c.at, cfg.turnDuration)
  }

  lemma FourHits(results: FourResults)
    ensures FullHit(results) <==> AllHit(results)
    ensures Hits(results) == |set i | 0 <= i < 4 && results[i] == Hit|
  {
    HitsCounted(results);
    assert (set i | 0 <= i < |results| && results[i] == Hit) == set i | 0 <= i < 4 && results[i] == Hit;
  }

  lemma OtherMoves(cfg: Config, db: Db, user: Uuid, gid: Uuid)
    requires GamesInv(cfg, db) && gid in db.games
    requires db.games[gid].status == InProgress && user == Mover(db.games[gid], db.games[gid].turn)
    ensures var g := db.games[gid];
            var other := if user == g.player1 then g.player2 else g.player1;
            && Mover(g, g.turn + 1) == other && OpponentOf(g, user) == Ok(other)
            && user in db.users && other in db.users && g.player1 != g.player2
  {
    assert GameOk(cfg, db.users.Keys, db.guesses, gid, db.games[gid]);
  }

  lemma GuessTxLeavesRows(cfg: Config, db: Db, user: Uuid, gid: Uuid, digits: Number, isAuto: bool, now: Time, ids: Ids)
    requires GamesInv(cfg, db) && GuessTx(cfg, db, user, gid, digits, isAuto, now, ids).1.Ok?
    ensures var db1 := GuessTx(cfg, db, user, gid, digits, isAuto, now, ids).0;
            GuessLeavesRows(db, db1, user, gid, Format(digits), isAuto, now, ids)
  {
    AcceptedGuess(cfg, db, user, gid, digits, isAuto, now, ids);
    OtherMoves(cfg, db, user, gid);
    FourHits(Verdict(cfg, db.games[gid], gid, user, digits).value);
  }

  lemma ArmedRecord(cfg: Config, timers: Store, gid: Uuid, g: Game, now: Time, at: Time)
    requires g.turnPlayer.Some?
    ensures var after := Armed(cfg, timers, gid, g, now, at);
            && gid in after && TurnRecord(after[gid], g.turn, g.turnPlayer.value, now, at, cfg.turnDuration)
            && OtherTimersStay(timers, after, gid)
  {
  }

  /** The timer step of an accepted guess. */
  lemma GuessTimerStep(cfg: Config, w: World, user: Uuid, gid: Uuid, text: string, isAuto: bool, lockFree: bool,
                       ids: Ids, c: Clocks)
    requires Parse(text).Ok? && GuessUseCase(cfg, w, user, gid, text, isAuto, lockFree, ids, c).1.Ok?
    ensures var w1 := GuessUseCase(cfg, w, user, gid, text, isAuto, lockFree, ids, c).0;
            var (db1, reply) := GuessTx(cfg, w.db, user, gid, Parse(text).value, isAuto, c.now, ids);
            && w1.db == db1 && reply.Ok?
            && (gid in db1.games ==>
                  w1.timers == if reply.value.isWin then w.timers - {gid}
                               else Armed(cfg, w.timers, gid, db1.games[gid], c.later, c.at))
  {
  }

  /** What SubmitGuess leaves when it accepts a guess. */
  lemma SubmitGuessLeaves(cfg: Config, w: World, user: Uuid, gid: Uuid, text: string, isAuto: bool, lockFree: bool,
                          ids: Ids, c: Clocks)
    requires GamesInv(cfg, w.db) && GuessUseCase(cfg, w, user, gid, text, isAuto, lockFree, ids, c).1.Ok?
    ensures var w1 := GuessUseCase(cfg, w, user, gid, text, isAuto, lockFree, ids, c).0;
            && GuessLeavesRows(w.db, w1.db, user, gid, text, isAuto, c.now, ids)
            && GuessLeavesTimers(cfg, w, w1, user, gid, ids, c)
  {
    GuessUseCaseCommit(cfg, w, user, gid, text, isAuto, lockFree, ids, c);
    ParseAccepts(text);
    var digits := Parse(text).value;
    GuessTimerStep(cfg, w, user, gid, text, isAuto, lockFree, ids, c);
    GuessTxLeavesRows(cfg, w.db, user, gid, digits, isAuto, c.now, ids);
    GuessTimers(cfg, w, user, gid, digits, isAuto, ids, c);
  }

  lemma GuessTimers(cfg: Config, w: World, user: Uuid, gid: Uuid, digits: Number, isAuto: bool, ids: Ids, c: Clocks)
    requires GamesInv(cfg, w.db) && GuessTx(cfg, w.db, user, gid, digits, isAuto, c.now, ids).1.Ok?
    ensures var (db1, reply) := GuessTx(cfg, w.db, user, gid, digits, isAuto, c.now, ids);
            && gid in db1.games
            && var timers1 := if reply.value.isWin then w.timers - {gid}
                              else Armed(cfg, w.timers, gid, db1.games[gid], c.later, c.at);
               GuessLeavesTimers(cfg, w, World(db1, timers1), user, gid, ids, c)
  {
    var (db1, reply) := GuessTx(cfg, w.db, user, gid, digits, isAuto, c.now, ids);
    AcceptedGuess(cfg, w.db, user, gid, digits, isAuto, c.now, ids);
    GuessEffect(cfg, w.db, user, gid, digits, isAuto, c.now, ids);
    OtherMoves(cfg, w.db, user, gid);
    FourHits(Verdict(cfg, w.db.games[gid], gid, user, digits).value);
    ArmedRecord(cfg, w.timers, gid, db1.games[gid], c.later, c.at);
  }

  /** Each digit of an accepted guess is judged against the secret whose stored form the opponent has. */
  lemma GuessJudgesSecret(cfg: Config, db: Db, user: Uuid, gid: Uuid, secret: Number, digits: Number, isAuto: bool,
                          now: Time, ids: Ids)
    requires Secrets.HexDigests(cfg.hasher) && Secrets.DigestsDistinct(cfg.hasher) && GamesInv(cfg, db)
    requires GuessTx(cfg, db, user, gid, digits, isAuto, now, ids).1.Ok? && gid in db.games
    requires var g := db.games[gid];
             if user == g.player2 then g.secret1 == Secrets.Hashed(cfg.hasher, secret, gid, 1)
             else g.secret2 == Secrets.Hashed(cfg.hasher, secret, gid, 2)
    ensures var db1 := GuessTx(cfg, db, user, gid, digits, isAuto, now, ids).0;
            ids.guess in db1.guesses
            && forall i | 0 <= i < 4 :: db1.guesses[ids.guess].results[i] == Hit <==> secret[i] == digits[i]
  {
    AcceptedGuess(cfg, db, user, gid, digits, isAuto, now, ids);
    Secrets.VerifyAgreesWithJudge(cfg.hasher, secret, digits, gid, if user == db.games[gid].player2 then 1 else 2);
  }

  /** Who may play at all: a user who exists, is not deleted and is no administrator. */
  ghost predicate MayPlay(users: map<Uuid, User>, user: Uuid) {
    user in users && users[user].deletedAt.None? && users[user].role == RegularUser
  }

  ghost predicate RefusesPlayer(users: map<Uuid, User>, user: Uuid, r: Result<(), Error>) {
    if user !in users || users[user].deletedAt.Some? then r == Err(Unauthorized)
    else users[user].role == Master && r == Err(Forbidden)
  }

  /** The reply to a guess of four valid digits, with the reasons in the order in which they are found. */
  ghost predicate GuessReplies(db: Db, user: Uuid, gid: Uuid, r: Result<(), Error>) {
    if !MayPlay(db.users, user) then RefusesPlayer(db.users, user, r)
    else if gid !in db.games then r == Err(NotFound)
    else
      var g := db.games[gid];
      if user != g.player1 && user != g.player2 then r == Err(Forbidden)
      else if (if user == g.player2 then g.secret1 else g.secret2) == "" then r == Err(BadRequest)
      else if g.status != InProgress then r == Err(GameNotStarted)
      else if g.turnPlayer != Some(user) then r == Err(NotYourTurn)
      else r == Ok(())
  }

  lemma PlayerChecksMean(db: Db, user: Uuid)
    ensures PlayerChecks(db, user).Ok? <==> MayPlay(db.users, user)
    ensures PlayerChecks(db, user).Err? ==> RefusesPlayer(db.users, user, PlayerChecks(db, user))
  {
  }

  lemma RefusalMeans(db: Db, user: Uuid, gid: Uuid)
    requires MayPlay(db.users, user)
    ensures match Refusal(db, user, gid)
            case Some(e) => GuessReplies(db, user, gid, Err(e))
            case None => GuessReplies(db, user, gid, Ok(()))
  {
  }

  lemma GuessTxReplies(cfg: Config, db: Db, user: Uuid, gid: Uuid, digits: Number, isAuto: bool, now: Time, ids: Ids)
    requires Secrets.HexDigests(cfg.hasher) && GamesInv(cfg, db) && Ledger.HistoriesOk(db.games, db.histories)
    requires ids.guess !in db.guesses && ids.history !in db.histories && MayPlay(db.users, user)
    ensures match GuessTx(cfg, db, user, gid, digits, isAuto, now, ids).1
            case Ok(_) => GuessReplies(db, user, gid, Ok(()))
            case Err(e) => GuessReplies(db, user, gid, Err(e))
  {
    GuessOutcome(cfg, db, user, gid, digits, isAuto, now, ids);
    RefusalMeans(db, user, gid);
  }

  /** What SubmitGuess replies, and that a refused guess changes nothing. */
  lemma SubmitGuessReplies(cfg: Config, w: World, user: Uuid, gid: Uuid, text: string, isAuto: bool, lockFree: bool,
                           ids: Ids, c: Clocks)
    requires Secrets.HexDigests(cfg.hasher) && GamesInv(cfg, w.db) && Ledger.HistoriesOk(w.db.games, w.db.histories)
    requires ids.guess !in w.db.guesses && ids.history !in w.db.histories
    ensures var (w1, r) := GuessUseCase(cfg, w, user, gid, text, isAuto, lockFree, ids, c);
            && (r.Err? ==> w1 == w)
            && if !isAuto && !lockFree then r == Err(RateLimitExceeded)
               else if Parse(text).Err? then r == Err(Parse(text).error)
               else GuessReplies(w.db, user, gid, r)
  {
    PlayerChecksMean(w.db, user);
    if Parse(text).Ok? && PlayerChecks(w.db, user).Ok? {
      GuessTxReplies(cfg, w.db, user, gid, Parse(text).value, isAuto, c.now, ids);
    }
  }

  /** What SubmitGuess replies and leaves. */
  ghost predicate SubmitLeaves(cfg: Config, w: World, w1: World, r: Result<(), Error>, user: Uuid, gid: Uuid,
                               text: string, isAuto: bool, lockFree: bool, ids: Ids, c: Clocks)
  {
    && (if !isAuto && !lockFree then r == Err(RateLimitExceeded)
        else if Parse(text).Err? then r == Err(Parse(text).error)
        else GuessReplies(w.db, user, gid, r))
    && if r.Err? then w1 == w
       else
         && GuessLeavesRows(w.db, w1.db, user, gid, text, isAuto, c.now, ids)
         && GuessLeavesTimers(cfg, w, w1, user, gid, ids, c)
  }

  lemma SubmitGuessOutcome(cfg: Config, w: World, user: Uuid, gid: Uuid, text: string, isAuto: bool, lockFree: bool,
                           ids: Ids, c: Clocks)
    requires Secrets.HexDigests(cfg.hasher) && GamesInv(cfg, w.db) && Ledger.HistoriesOk(w.db.games, w.db.histories)
    requires ids.guess !in w.db.guesses && ids.history !in w.db.histories
    ensures var (w1, r) := GuessUseCase(cfg, w, user, gid, text, isAuto, lockFree, ids, c);
            SubmitLeaves(cfg, w, w1, r, user, gid, text, isAuto, lockFree, ids, c)
  {
    SubmitGuessReplies(cfg, w, user, gid, text, isAuto, lockFree, ids, c);
    if GuessUseCase(cfg, w, user, gid, text, isAuto, lockFree, ids, c).1.Ok? {
      SubmitGuessLeaves(cfg, w, user, gid, text, isAuto, lockFree, ids, c);
    }
  }

  /** What SubmitGuess promises in a sound database with unused identifiers. */
  ghost predicate SubmitPromise(cfg: Config, w: World, w1: World, r: Result<(), Error>, user: Uuid, gid: Uuid,
                                text: string, isAuto: bool, lockFree: bool, ids: Ids, c: Clocks)
  {
    Sound(cfg, w.db) && ids.guess !in w.db.guesses && ids.history !in w.db.histories ==>
      SubmitLeaves(cfg, w, w1, r, user, gid, text, isAuto, lockFree, ids, c)
  }

  lemma SubmitKeepsPromise(cfg: Config, w: World, user: Uuid, gid: Uuid, text: string, isAuto: bool, lockFree: bool,
                           ids: Ids, c: Clocks)
    ensures var (w1, r) := GuessUseCase(cfg, w, user, gid, text, isAuto, lockFree, ids, c);
            SubmitPromise(cfg, w, w1, r, user, gid, text, isAuto, lockFree, ids, c)
  {
    if Sound(cfg, w.db) && ids.guess !in w.db.guesses && ids.history !in w.db.histories {
      SubmitGuessOutcome(cfg, w, user, gid, text, isAuto, lockFree, ids, c);
    }
  }

  /** What the use cases rely on: the digests are hexadecimal, games and histories keep their invariants. */
  ghost predicate Sound(cfg: Config, db: Db) {
    Secrets.HexDigests(cfg.hasher) && GamesInv(cfg, db) && Ledger.HistoriesOk(db.games, db.histories)
  }

  // ---------- Secrets ----------

  ghost predicate SecretReplies(cfg: Config, db: Db, user: Uuid, gid: Uuid, r: Result<(), Error>) {
    if !MayPlay(db.users, user) then RefusesPlayer(db.users, user, r)
    else if gid !in db.games then r == Err(NotFound)
    else
      var g := db.games[gid];
      if user != g.player1 && user != g.player2 then r == Err(Forbidden)
      else if g.status == InProgress then r == Err(GameAlreadyStarted)
      else if g.status == Finished then r == Err(GameAlreadyFinished)
      else if (if user == g.player1 then g.secret1 else g.secret2) != "" then r == Err(BadRequest)
      else if cfg.secretColumn.Some? && cfg.secretColumn.value < 259 then r == Err(ColumnOverflow)
      else r == Ok(())
  }

  /** The caller's secret is stored under the caller's slot. With the other one there already, the game
      starts at turn 1 with player 1, and the timer of that turn is written. Nothing else changes. */
  ghost predicate SecretLeaves(cfg: Config, w: World, w1: World, user: Uuid, gid: Uuid, digits: Number, c: Clocks) {
    && gid in w.db.games
    && var g := w.db.games[gid];
       var slot := if user == g.player1 then 1 else 2;
       var stored := Secrets.Hashed(cfg.hasher, digits, gid, slot);
       var g1 := if slot == 1 then g.(secret1 := stored) else g.(secret2 := stored);
       if (if slot == 1 then g.secret2 else g.secret1) == "" then
         w1 == World(w.db.(games := w.db.games[gid := g1]), w.timers)
       else
         && w1.db == w.db.(games := w.db.games[gid := g1.(status := InProgress, turn := 1,
                                                          turnPlayer := Some(g.player1), startedAt := Some(c.now))])
         && OtherTimersStay(w.timers, w1.timers, gid)
         && gid in w1.timers && TurnRecord(w1.timers[gid], 1, g.player1, c.later, c.at, cfg.turnDuration)
  }

  lemma SecretTxReplies(cfg: Config, db: Db, user: Uuid, gid: Uuid, digits: Number, now: Time)
    requires Secrets.HexDigests(cfg.hasher) && GamesInv(cfg, db) && MayPlay(db.users, user)
    ensures match SetSecretTx(cfg, db, user, gid, digits, now).1
            case Ok(_) => SecretReplies(cfg, db, user, gid, Ok(()))
            case Err(e) => SecretReplies(cfg, db, user, gid, Err(e))
  {
    if gid in db.games {
      assert GameOk(cfg, db.users.Keys, db.guesses, gid, db.games[gid]);
      Secrets.HashedLength(cfg.hasher, digits, gid, if user == db.games[gid].player2 then 2 else 1);
    }
  }

  lemma SecretTxLeaves(cfg: Config, w: World, user: Uuid, gid: Uuid, digits: Number, c: Clocks)
    requires GamesInv(cfg, w.db) && Secrets.HexDigests(cfg.hasher)
    requires SetSecretTx(cfg, w.db, user, gid, digits, c.now).1.Ok?
    ensures var (db1, r) := SetSecretTx(cfg, w.db, user, gid, digits, c.now);
            && gid in db1.games
            && var timers1 := if r.value then Armed(cfg, w.timers, gid, db1.games[gid], c.later, c.at) else w.timers;
               SecretLeaves(cfg, w, World(db1, timers1), user, gid, digits, c)
  {
    SetSecretEffect(cfg, w.db, user, gid, digits, c.now);
    var db1 := SetSecretTx(cfg, w.db, user, gid, digits, c.now).0;
    assert GameOk(cfg, w.db.users.Keys, w.db.guesses, gid, w.db.games[gid]);
    Secrets.HashedLength(cfg.hasher, digits, gid, 1);
    Secrets.HashedLength(cfg.hasher, digits, gid, 2);
    if db1.games[gid].turnPlayer.Some? {
      ArmedRecord(cfg, w.timers, gid, db1.games[gid], c.later, c.at);
    }
  }

  /** What SetSecretNumber replies and leaves. */
  ghost predicate SetSecretLeaves(cfg: Config, w: World, w1: World, r: Result<(), Error>, user: Uuid, gid: Uuid,
                                  text: string, lockFree: bool, c: Clocks)
  {
    && (if !lockFree then r == Err(RateLimitExceeded)
        else if Parse(text).Err? then r == Err(Parse(text).error)
        else SecretReplies(cfg, w.db, user, gid, r))
    && if r.Err? then w1 == w
       else Parse(text).Ok? && SecretLeaves(cfg, w, w1, user, gid, Parse(text).value, c)
  }

  lemma SetSecretOutcome(cfg: Config, w: World, user: Uuid, gid: Uuid, text: string, lockFree: bool, c: Clocks)
    requires Secrets.HexDigests(cfg.hasher) && GamesInv(cfg, w.db)
    ensures var (w1, r) := SecretUseCase(cfg, w, user, gid, text, lockFree, c);
            SetSecretLeaves(cfg, w, w1, r, user, gid, text, lockFree, c)
  {
    PlayerChecksMean(w.db, user);
    if lockFree && Parse(text).Ok? && PlayerChecks(w.db, user).Ok? {
      var digits := Parse(text).value;
      SecretTxReplies(cfg, w.db, user, gid, digits, c.now);
      if SetSecretTx(cfg, w.db, user, gid, digits, c.now).1.Ok? {
        SecretTxLeaves(cfg, w, user, gid, digits, c);
      }
    }
  }

  // ---------- Cancelling ----------

  /** A game is cancelled exactly while it waits and later than its deadline; the row says so, its timer
      goes, and nothing else changes. */
  ghost predicate CancelLeaves(cfg: Config, w: World, w1: World, gid: Uuid, now: Time) {
    if gid in w.db.games && w.db.games[gid].status == WaitingSecret
       && w.db.games[gid].createdAt + cfg.secretSetup < now
    then
      && w1.db == w.db.(games := w.db.games[gid := w.db.games[gid].(status := Finished, finishedAt := Some(now))])
      && w1.timers == w.timers - {gid}
    else w1 == w
  }

  lemma CancelTimeoutOutcome(cfg: Config, w: World, gid: Uuid, now: Time)
    requires GamesInv(cfg, w.db)
    ensures CancelLeaves(cfg, w, CancelUseCase(cfg, w, gid, now), gid, now)
  {
    CancelOutcome(cfg, w, gid, now);
  }

  // ---------- Timeouts ----------

  /** What a read of the store at `at` can see. */
  lemma ReadMeans(store: Store, gid: Uuid, at: Time)
    ensures GetTurn(store, gid, at)
            == if gid in store && at < store[gid].goneAt then Some(store[gid]) else None
  {
  }

  predicate TimeIsUp(seen: Option<Timer>, player: Uuid, now: Time) {
    seen.Some? && seen.value.player == player && seen.value.expiresAt <= now
  }

  /** A timeout that comes too late to matter is no error. */
  ghost predicate TimeoutReplies(db: Db, player: Uuid, gid: Uuid, r: Result<(), Error>) {
    exists g: Result<(), Error> :: GuessReplies(db, player, gid, g)
      && r == if g == Err(NotFound) || g == Err(GameNotStarted) || g == Err(NotYourTurn) then Ok(()) else g
  }

  /** What HandleTimeout replies and leaves: nothing unless the lock is free and both reads say that the
      player's time is up, and otherwise what an automatic guess leaves. */
  ghost predicate TimeoutLeaves(cfg: Config, w: World, w1: World, r: Result<(), Error>, gid: Uuid, player: Uuid,
                                a: Answers, now: Time, ids: Ids, c: Clocks)
  {
    if !a.lockFree || !TimeIsUp(a.seen, player, now) || !TimeIsUp(a.again, player, now) then w1 == w && r == Ok(())
    else if a.text.None? then w1 == w && r == Err(NoRandomSource)
    else if Parse(a.text.value).Err? then w1 == w && r == Err(Parse(a.text.value).error)
    else
      && TimeoutReplies(w.db, player, gid, r)
      && if GuessReplies(w.db, player, gid, Ok(())) then
           && GuessLeavesRows(w.db, w1.db, player, gid, a.text.value, true, c.now, ids)
           && GuessLeavesTimers(cfg, w, w1, player, gid, ids, c)
         else w1 == w
  }

  predicate IsLate(g: Result<(), Error>) {
    g.Err? && g.error in {NotYourTurn, GameAlreadyFinished, GameNotStarted, NotFound}
  }

  /** Where both reads say so, a timeout is an automatic guess whose lateness is no error. */
  lemma DueTimeoutIsGuess(cfg: Config, w: World, gid: Uuid, player: Uuid, a: Answers, now: Time, ids: Ids, c: Clocks)
    requires a.lockFree && TimeIsUp(a.seen, player, now) && TimeIsUp(a.again, player, now) && a.text.Some?
    ensures var (w1, r) := TimeoutUseCase(cfg, w, gid, player, a, now, ids, c);
            var (w2, g) := GuessUseCase(cfg, w, player, gid, a.text.value, true, true, ids, c);
            && w1 == w2
            && r == if IsLate(g) then Ok(()) else g
  {
  }

  lemma TimeoutIdle(cfg: Config, w: World, gid: Uuid, player: Uuid, a: Answers, now: Time, ids: Ids, c: Clocks)
    requires !a.lockFree || !TimeIsUp(a.seen, player, now) || !TimeIsUp(a.again, player, now) || a.text.None?
    ensures var (w1, r) := TimeoutUseCase(cfg, w, gid, player, a, now, ids, c);
            && w1 == w
            && r == if !a.lockFree || !TimeIsUp(a.seen, player, now) || !TimeIsUp(a.again, player, now) then Ok(())
                    else Err(NoRandomSource)
  {
  }

  /** The reply of a guess, seen by a timeout. */
  lemma LateReply(db: Db, player: Uuid, gid: Uuid, g: Result<(), Error>, r: Result<(), Error>)
    requires GuessReplies(db, player, gid, g)
    requires r == if IsLate(g) then Ok(()) else g
    ensures TimeoutReplies(db, player, gid, r) && (GuessReplies(db, player, gid, Ok(())) <==> g == Ok(()))
  {
    OneReply(db, player, gid);
    assert g != Err(GameAlreadyFinished);
  }

  lemma TimeoutOutcome(cfg: Config, w: World, gid: Uuid, player: Uuid, a: Answers, now: Time, ids: Ids, c: Clocks)
    requires Secrets.HexDigests(cfg.hasher) && GamesInv(cfg, w.db) && Ledger.HistoriesOk(w.db.games, w.db.histories)
    requires ids.guess !in w.db.guesses && ids.history !in w.db.histories
    ensures var (w1, r) := TimeoutUseCase(cfg, w, gid, player, a, now, ids, c);
            TimeoutLeaves(cfg, w, w1, r, gid, player, a, now, ids, c)
  {
    if !a.lockFree || !TimeIsUp(a.seen, player, now) || !TimeIsUp(a.again, player, now) || a.text.None? {
      TimeoutIdle(cfg, w, gid, player, a, now, ids, c);
    } else {
      var g := GuessUseCase(cfg, w, player, gid, a.text.value, true, true, ids, c).1;
      DueTimeoutIsGuess(cfg, w, gid, player, a, now, ids, c);
      SubmitGuessOutcome(cfg, w, player, gid, a.text.value, true, true, ids, c);
      ParseReplies(a.text.value, 0);
      if Parse(a.text.value).Ok? {
        LateReply(w.db, player, gid, g, TimeoutUseCase(cfg, w, gid, player, a, now, ids, c).1);
      }
    }
  }

  lemma OneReply(db: Db, user: Uuid, gid: Uuid)
    ensures forall r, s | GuessReplies(db, user, gid, r) && GuessReplies(db, user, gid, s) :: r == s
  {
  }

  // ---------- Recovery ----------

  /** After recovery: a waiting game past its deadline is finished without a winner, and no other row of
      the database changes. */
  ghost predicate GamesRecovered(cfg: Config, db: Db, db1: Db, now: Time, later: Uuid -> Time) {
    && db1 == db.(games := db1.games) && db1.games.Keys == db.games.Keys
    && forall gid | gid in db.games ::
         db1.games[gid] ==
         if db.games[gid].status == WaitingSecret && db.games[gid].createdAt < now - cfg.secretSetup
         then db.games[gid].(status := Finished, finishedAt := Some(later(gid)))
         else db.games[gid]
  }

  /** A record that can be seen and has time left is kept, whatever it names; otherwise there is one for
      the game's turn, beginning now. */
  ghost predicate RecordKeptOrSet(cfg: Config, g: Game, before: Store, after: Store, gid: Uuid, now: Time, at: Time) {
    && gid in after
    && if gid in before && at < before[gid].goneAt && now < before[gid].expiresAt then after[gid] == before[gid]
       else g.turnPlayer.Some? && TurnRecord(after[gid], g.turn, g.turnPlayer.value, now, at, cfg.turnDuration)
  }

  /** What recovery leaves of the rows, and of the records of the games in progress. */
  ghost predicate RecoveryLeaves(cfg: Config, w: World, w1: World, now: Time, at: Uuid -> Time, later: Uuid -> Time) {
    && GamesRecovered(cfg, w.db, w1.db, now, later)
    && forall gid | gid in w.db.games && w.db.games[gid].status == InProgress ::
         RecordKeptOrSet(cfg, w.db.games[gid], w.timers, w1.timers, gid, now, at(gid))
  }

  lemma RearmedMeans(cfg: Config, g: Game, before: Store, after: Store, gid: Uuid, now: Time, at: Time)
    requires g.turnPlayer.Some? && gid in after && after[gid] == Rearmed(cfg, before, gid, g, now, at)
    ensures RecordKeptOrSet(cfg, g, before, after, gid, now, at)
  {
  }

  lemma RecordsRecovered(cfg: Config, w: World, playing: seq<Uuid>, overdue: seq<Uuid>, now: Time, at: Uuid -> Time,
                         later: Uuid -> Time, gid: Uuid)
    requires GamesInv(cfg, w.db) && cfg.turnDuration > 0 && ListsInProgress(w.db, playing)
    requires gid in w.db.games && w.db.games[gid].status == InProgress
    ensures RecordKeptOrSet(cfg, w.db.games[gid], w.timers,
                            RecoverUseCase(cfg, w, playing, overdue, now, at, later).timers, gid, now, at(gid))
  {
    RecoveredRecord(cfg, w, playing, overdue, now, at, later, gid);
    RearmedMeans(cfg, w.db.games[gid], w.timers, RecoverUseCase(cfg, w, playing, overdue, now, at, later).timers, gid,
                 now, at(gid));
  }

  lemma RowsRecovered(cfg: Config, w: World, playing: seq<Uuid>, overdue: seq<Uuid>, now: Time, at: Uuid -> Time,
                      later: Uuid -> Time)
    requires GamesInv(cfg, w.db) && (forall gid :: now <= later(gid))
    requires ListsInProgress(w.db, playing) && ListsOverdue(cfg, w.db, overdue, now)
    ensures GamesRecovered(cfg, w.db, RecoverUseCase(cfg, w, playing, overdue, now, at, later).db, now, later)
  {
    RecoveryClears(cfg, w, playing, overdue, now, at, later);
  }

  lemma RecoveryOutcome(cfg: Config, w: World, playing: seq<Uuid>, overdue: seq<Uuid>, now: Time, at: Uuid -> Time,
                        later: Uuid -> Time)
    requires GamesInv(cfg, w.db) && cfg.turnDuration > 0 && (forall gid :: now <= later(gid))
    requires ListsInProgress(w.db, playing) && ListsOverdue(cfg, w.db, overdue, now)
    ensures RecoveryLeaves(cfg, w, RecoverUseCase(cfg, w, playing, overdue, now, at, later), now, at, later)
  {
    RowsRecovered(cfg, w, playing, overdue, now, at, later);
    var w1 := RecoverUseCase(cfg, w, playing, overdue, now, at, later);
    forall gid | gid in w.db.games && w.db.games[gid].status == InProgress
      ensures RecordKeptOrSet(cfg, w.db.games[gid], w.timers, w1.timers, gid, now, at(gid))
    {
      RecordsRecovered(cfg, w, playing, overdue, now, at, later, gid);
    }
  }

  // ---------- Promises of the other use cases ----------

  ghost predicate SecretPromise(cfg: Config, w: World, w1: World, r: Result<(), Error>, user: Uuid, gid: Uuid,
                                text: string, lockFree: bool, c: Clocks)
  {
    Sound(cfg, w.db) ==> SetSecretLeaves(cfg, w, w1, r, user, gid, text, lockFree, c)
  }

  lemma SecretKeepsPromise(cfg: Config, w: World, user: Uuid, gid: Uuid, text: string, lockFree: bool, c: Clocks)
    ensures var (w1, r) := SecretUseCase(cfg, w, user, gid, text, lockFree, c);
            SecretPromise(cfg, w, w1, r, user, gid, text, lockFree, c)
  {
    if Sound(cfg, w.db) {
      SetSecretOutcome(cfg, w, user, gid, text, lockFree, c);
    }
  }

  ghost predicate CancelPromise(cfg: Config, w: World, w1: World, gid: Uuid, now: Time) {
    Sound(cfg, w.db) ==> CancelLeaves(cfg, w, w1, gid, now)
  }

  lemma CancelKeepsPromise(cfg: Config, w: World, gid: Uuid, now: Time)
    ensures CancelPromise(cfg, w, CancelUseCase(cfg, w, gid, now), gid, now)
  {
    if Sound(cfg, w.db) {
      CancelTimeoutOutcome(cfg, w, gid, now);
    }
  }

  ghost predicate TimeoutPromise(cfg: Config, w: World, w1: World, r: Result<(), Error>, gid: Uuid, player: Uuid,
                                 a: Answers, now: Time, ids: Ids, c: Clocks)
  {
    Sound(cfg, w.db) && ids.guess !in w.db.guesses && ids.history !in w.db.histories ==>
      TimeoutLeaves(cfg, w, w1, r, gid, player, a, now, ids, c)
  }

  lemma TimeoutKeepsPromise(cfg: Config, w: World, gid: Uuid, player: Uuid, a: Answers, now: Time, ids: Ids, c: Clocks)
    ensures var (w1, r) := TimeoutUseCase(cfg, w, gid, player, a, now, ids, c);
            TimeoutPromise(cfg, w, w1, r, gid, player, a, now, ids, c)
  {
    if Sound(cfg, w.db) && ids.guess !in w.db.guesses && ids.history !in w.db.histories {
      TimeoutOutcome(cfg, w, gid, player, a, now, ids, c);
    }
  }

  ghost predicate RecoveryPromise(cfg: Config, w: World, w1: World, now: Time, at: Uuid -> Time, later: Uuid -> Time) {
    Sound(cfg, w.db) && cfg.turnDuration > 0 && (forall gid :: now <= later(gid)) ==>
      RecoveryLeaves(cfg, w, w1, now, at, later)
  }

  lemma RecoveryKeepsPromise(cfg: Config, w: World, playing: seq<Uuid>, overdue: seq<Uuid>, now: Time,
                             at: Uuid -> Time, later: Uuid -> Time)
    requires ListsInProgress(w.db, playing) && ListsOverdue(cfg, w.db, overdue, now)
    ensures RecoveryPromise(cfg, w, RecoverUseCase(cfg, w, playing, overdue, now, at, later), now, at, later)
  {
    if Sound(cfg, w.db) && cfg.turnDuration > 0 && (forall gid :: now <= later(gid)) {
      RecoveryOutcome(cfg, w, playing, overdue, now, at, later);
    }
  }
}
