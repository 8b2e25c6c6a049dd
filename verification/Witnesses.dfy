/** Runs that reach the states the other modules speak of: a game that is played and won, and one input
    for each promise that does not hold as it stands. */
module Witnesses {
  import opened Common
  import opened Digits
  import opened Model
  import opened Secrets
  import opened Duel
  import opened Effects
  import opened GameInvariant
  import opened Reachable
  import opened Accounts
  import Backup
  import GameState
  import LateTimers
  import Ledger
  import StaleRows
  import Timers
  import Tokens

  lemma {:induction false} RunOneMore(cfg: Config, db: Db, steps: seq<Step>, s: Step)
    ensures Run(cfg, db, steps + [s]) == Apply(cfg, Run(cfg, db, steps), s)
    decreases |steps|
  {
    if steps != [] {
      assert (steps + [s])[1..] == steps[1..] + [s];
      RunOneMore(cfg, Apply(cfg, db, steps[0]), steps[1..], s);
    } else {
      assert (steps + [s])[1..] == [];
    }
  }

  /** Reached without a deletion or a login, so in module StaleRows too. */
  ghost predicate Plain(cfg: Config, db: Db) {
    exists steps :: Run(cfg, EMPTY_DB, steps) == db && forall s | s in steps :: !StaleRows.Replaced(s)
  }

  lemma PlainReached(cfg: Config, db: Db)
    requires Plain(cfg, db)
    ensures Reached(cfg, db)
  {
  }

  lemma PlainGames(cfg: Config, db: Db)
    requires Plain(cfg, db)
    ensures GamesInv(cfg, db)
  {
    ReachedInv(cfg, db);
  }

  /** What a commit makes of a reachable state is reachable. */
  lemma Reach(cfg: Config, db: Db, s: Step)
    requires Reached(cfg, db)
    ensures Reached(cfg, Apply(cfg, db, s))
  {
    var steps :| Run(cfg, EMPTY_DB, steps) == db;
    RunOneMore(cfg, EMPTY_DB, steps, s);
  }

  lemma ReachPlainly(cfg: Config, db: Db, s: Step)
    requires Plain(cfg, db) && !StaleRows.Replaced(s)
    ensures Plain(cfg, Apply(cfg, db, s))
  {
    var steps :| Run(cfg, EMPTY_DB, steps) == db && forall p | p in steps :: !StaleRows.Replaced(p);
    RunOneMore(cfg, EMPTY_DB, steps, s);
  }

  // ---------- A game ----------

  const ANN: NewUuid := 1
  const BOB: NewUuid := 2
  const CHIEF: NewUuid := 3
  const GAME: NewUuid := 4

  /** Two users and an administrator. */
  function Enrolled(): Db {
    EMPTY_DB.(users := map[ANN := User("ann", RegularUser, 0, None, None),
                           BOB := User("bob", RegularUser, 0, None, None),
                           CHIEF := User("chief", Master, 0, None, None)])
  }

  lemma EnrolledReached(cfg: Config)
    ensures Plain(cfg, Enrolled())
  {
    assert Run(cfg, EMPTY_DB, []) == EMPTY_DB;
    assert Plain(cfg, EMPTY_DB);
    var db1 := Apply(cfg, EMPTY_DB, Register(ANN, "ann", RegularUser));
    var db2 := Apply(cfg, db1, Register(BOB, "bob", RegularUser));
    var db3 := Apply(cfg, db2, Register(CHIEF, "chief", Master));
    ReachPlainly(cfg, EMPTY_DB, Register(ANN, "ann", RegularUser));
    ReachPlainly(cfg, db1, Register(BOB, "bob", RegularUser));
    ReachPlainly(cfg, db2, Register(CHIEF, "chief", Master));
    assert db1.users[ANN].username == "ann" && db2.users[BOB].username == "bob";
    assert "ann"[0] != "bob"[0] && "chief"[0] != "ann"[0] && "chief"[0] != "bob"[0];
    assert db3 == Enrolled();
  }

  /** Ann waits. */
  function Queueing(): Db {
    Enrolled().(queue := map[11 := Entry(ANN, 0)])
  }

  lemma QueueingReached(cfg: Config)
    ensures Plain(cfg, Queueing())
  {
    EnrolledReached(cfg);
    var s := StartMatching(ANN, 0, 11, [11], 0, GAME);
    assert OldestFirst(Queued(Enrolled(), ANN, 0, 11).queue, 2, [11]);
    ReachPlainly(cfg, Enrolled(), s);
    assert Apply(cfg, Enrolled(), s) == Queueing();
  }

  /** Ann and Bob are to play. */
  function Paired(): Db {
    Enrolled().(games := map[GAME := NewGame(ANN, BOB, 1)])
  }

  lemma PairedReached(cfg: Config)
    ensures Plain(cfg, Paired())
  {
    QueueingReached(cfg);
    var s := StartMatching(BOB, 1, 12, [11, 12], 1, GAME);
    var mid := Queued(Queueing(), BOB, 1, 12);
    assert OldestFirst(mid.queue, 2, [11, 12]);
    assert Ready(mid, ANN) && Ready(mid, BOB);
    ReachPlainly(cfg, Queueing(), s);
    assert mid.queue - {11, 12} == map[];
    assert Apply(cfg, Queueing(), s) == Paired();
  }

  /** The digests are as assumed throughout, and the secret column takes what it is given. */
  ghost predicate Usable(cfg: Config) {
    HexDigests(cfg.hasher) && DigestsDistinct(cfg.hasher) && cfg.secretColumn.None?
  }

  const ANNS: Number := [0, 1, 2, 3]
  const BOBS: Number := [4, 5, 6, 7]

  function Begun(cfg: Config): Game {
    var h1, h2 := Hashed(cfg.hasher, ANNS, GAME, 1), Hashed(cfg.hasher, BOBS, GAME, 2);
    var g := NewGame(ANN, BOB, 1).(secret1 := h1, secret2 := h2);
    g.(status := InProgress, turnPlayer := Some(ANN), startedAt := Some(3))
  }

  /** Both secrets are set, and it is Ann's turn. */
  function Playing(cfg: Config): Db {
    Paired().(games := map[GAME := Begun(cfg)])
  }

  lemma PlayingReached(cfg: Config)
    requires Usable(cfg)
    ensures Plain(cfg, Playing(cfg))
  {
    PairedReached(cfg);
    HashedLength(cfg.hasher, ANNS, GAME, 1);
    HashedLength(cfg.hasher, BOBS, GAME, 2);
    var s1, s2 := SetSecret(ANN, GAME, ANNS, 2), SetSecret(BOB, GAME, BOBS, 3);
    var half := Apply(cfg, Paired(), s1);
    ReachPlainly(cfg, Paired(), s1);
    ReachPlainly(cfg, half, s2);
    assert half.games == map[GAME := NewGame(ANN, BOB, 1).(secret1 := Hashed(cfg.hasher, ANNS, GAME, 1))];
    assert Apply(cfg, half, s2) == Playing(cfg);
  }

  lemma GuessReached(cfg: Config, db: Db, user: Uuid, gid: Uuid, digits: Number, now: Time, ids: Ids)
    requires Plain(cfg, db)
    ensures Plain(cfg, GuessTx(cfg, db, user, gid, digits, false, now, ids).0)
  {
    ReachPlainly(cfg, db, SubmitGuess(user, gid, digits, false, now, ids));
  }

  lemma GuessAccepted(cfg: Config, db: Db, user: Uuid, gid: Uuid, digits: Number, now: Time, ids: Ids)
    requires Usable(cfg) && Plain(cfg, db) && ids.guess !in db.guesses && ids.history !in db.histories
    requires Refusal(db, user, gid) == None
    ensures GuessTx(cfg, db, user, gid, digits, false, now, ids).1.Ok?
  {
    ReachedInv(cfg, db);
    GuessOutcome(cfg, db, user, gid, digits, false, now, ids);
  }

  lemma Judged(cfg: Config, g: Game, user: Uuid, gid: Uuid, secret: Number, digits: Number)
    requires Usable(cfg)
    requires TargetSecret(g, user) == Hashed(cfg.hasher, secret, gid, TargetSlot(g, user))
    ensures TargetSecret(g, user) != "" && Verdict(cfg, g, gid, user, digits) == Ok(Judge(secret, digits))
  {
    HashedLength(cfg.hasher, secret, gid, TargetSlot(g, user));
    VerifyAgreesWithJudge(cfg.hasher, secret, digits, gid, TargetSlot(g, user));
  }

  lemma NotRefused(db: Db, user: Uuid, gid: Uuid)
    requires gid in db.games && db.games[gid].CanGuess(user) && db.games[gid].IsParticipant(user)
    requires TargetSecret(db.games[gid], user) != ""
    ensures Refusal(db, user, gid) == None
  {
  }

  /** `user` guesses: the rows that the verdict `results` writes. */
  ghost predicate GuessWritten(db: Db, db1: Db, user: Uuid, gid: Uuid, digits: Number, results: FourResults, now: Time,
                               ids: Ids)
  {
    && gid in db.games
    && db1.games == db.games[gid := GuessedRow(db.games[gid], user, results, now)]
    && db1.guesses == db.guesses[ids.guess := GuessRow(db.games[gid], gid, user, digits, results, false)]
    && db1.queue == db.queue && db1.tokens == db.tokens
    && WinRecorded(db, db1, gid, user, results, now, ids.history)
  }

  lemma GuessWrites(cfg: Config, db: Db, user: Uuid, gid: Uuid, digits: Number, results: FourResults, now: Time,
                    ids: Ids)
    requires GamesInv(cfg, db) && GuessTx(cfg, db, user, gid, digits, false, now, ids).1.Ok?
    requires gid in db.games && Verdict(cfg, db.games[gid], gid, user, digits) == Ok(results)
    ensures GuessWritten(db, GuessTx(cfg, db, user, gid, digits, false, now, ids).0, user, gid, digits, results, now,
                         ids)
  {
    AcceptedGuess(cfg, db, user, gid, digits, false, now, ids);
  }

  /** A guess of the player to move goes through, judged against the opponent's secret. */
  lemma Guessed(cfg: Config, db: Db, user: Uuid, gid: Uuid, secret: Number, digits: Number, now: Time, ids: Ids)
    returns (db1: Db)
    requires Usable(cfg) && Plain(cfg, db) && ids.guess !in db.guesses && ids.history !in db.histories
    requires gid in db.games && db.games[gid].CanGuess(user) && db.games[gid].IsParticipant(user)
    requires TargetSecret(db.games[gid], user) == Hashed(cfg.hasher, secret, gid, TargetSlot(db.games[gid], user))
    ensures Plain(cfg, db1) && db1 == Apply(cfg, db, SubmitGuess(user, gid, digits, false, now, ids))
    ensures GuessWritten(db, db1, user, gid, digits, Judge(secret, digits), now, ids)
  {
    Judged(cfg, db.games[gid], user, gid, secret, digits);
    NotRefused(db, user, gid);
    PlainGames(cfg, db);
    GuessAccepted(cfg, db, user, gid, digits, now, ids);
    GuessReached(cfg, db, user, gid, digits, now, ids);
    GuessWrites(cfg, db, user, gid, digits, Judge(secret, digits), now, ids);
    db1 := GuessTx(cfg, db, user, gid, digits, false, now, ids).0;
  }

  const MISSES: FourResults := [Miss, Miss, Miss, Miss]

  /** Ann has guessed her own number, which misses everywhere. */
  function Missed(cfg: Config): Db {
    var db := Playing(cfg);
    db.(guesses := db.guesses[21 := GuessRow(Begun(cfg), GAME, ANN, ANNS, MISSES, false)],
        games := db.games[GAME := GuessedRow(Begun(cfg), ANN, MISSES, 4)])
  }

  /** A guess that misses everywhere writes nothing but the row of the game and its log. */
  lemma MissWritten(db: Db, db1: Db, user: Uuid, gid: Uuid, digits: Number, now: Time, ids: Ids)
    requires GuessWritten(db, db1, user, gid, digits, MISSES, now, ids)
    ensures db1 == db.(guesses := db.guesses[ids.guess := GuessRow(db.games[gid], gid, user, digits, MISSES, false)],
                       games := db.games[gid := GuessedRow(db.games[gid], user, MISSES, now)])
  {
    assert !FullHit(MISSES) by {
      assert MISSES[0] == Miss;
    }
  }

  lemma MissedReached(cfg: Config)
    requires Usable(cfg)
    ensures Plain(cfg, Missed(cfg))
    ensures Missed(cfg) == Apply(cfg, Playing(cfg), SubmitGuess(ANN, GAME, ANNS, false, 4, Ids(21, 31)))
  {
    PlayingReached(cfg);
    var db1 := Guessed(cfg, Playing(cfg), ANN, GAME, BOBS, ANNS, 4, Ids(21, 31));
    assert Judge(BOBS, ANNS) == MISSES;
    MissWritten(Playing(cfg), db1, ANN, GAME, ANNS, 4, Ids(21, 31));
  }

  /** Bob has missed as well. */
  function MissedTwice(cfg: Config): Db {
    var db := Missed(cfg);
    db.(guesses := db.guesses[22 := GuessRow(db.games[GAME], GAME, BOB, BOBS, MISSES, false)],
        games := db.games[GAME := GuessedRow(db.games[GAME], BOB, MISSES, 5)])
  }

  lemma MissedTwiceReached(cfg: Config)
    requires Usable(cfg)
    ensures Plain(cfg, MissedTwice(cfg))
    ensures MissedTwice(cfg) == Apply(cfg, Missed(cfg), SubmitGuess(BOB, GAME, BOBS, false, 5, Ids(22, 32)))
  {
    MissedReached(cfg);
    var db1 := Guessed(cfg, Missed(cfg), BOB, GAME, ANNS, BOBS, 5, Ids(22, 32));
    assert Judge(ANNS, BOBS) == MISSES;
    MissWritten(Missed(cfg), db1, BOB, GAME, BOBS, 5, Ids(22, 32));
  }

  const HITS: FourResults := [Hit, Hit, Hit, Hit]

  /** Bob guesses Ann's number and wins. */
  lemma WonReached(cfg: Config) returns (db: Db)
    requires Usable(cfg)
    ensures db == Apply(cfg, Missed(cfg), SubmitGuess(BOB, GAME, ANNS, false, 5, Ids(22, 32)))
    ensures Plain(cfg, db) && Won(cfg, db)
  {
    MissedReached(cfg);
    db := Guessed(cfg, Missed(cfg), BOB, GAME, ANNS, ANNS, 5, Ids(22, 32));
    assert Judge(ANNS, ANNS) == HITS && FullHit(HITS);
    PlainReached(cfg, db);
    WinCountsBalance(cfg, db, BOB);
  }

  /** Bob has won the game: the ledger shows one win, and the log ends with his guess. */
  ghost predicate Won(cfg: Config, db: Db) {
    && BOB in db.users && db.users[BOB].winCount == 1 == |Ledger.WonRows(db.histories, BOB)|
    && GAME in db.games && db.games[GAME].status == Finished && db.games[GAME].winner == Some(BOB)
    && 22 in db.guesses && db.guesses[22].player == BOB && db.guesses[22].turn == 2 && db.guesses[22].results == HITS
  }

  // ---------- Play and matching ----------

  /** After the first guess both players are shown a wrong number of guesses of their opponent. */
  lemma ReportedCountCanBeWrong(cfg: Config, user: Uuid)
    requires Usable(cfg) && (user == ANN || user == BOB)
    ensures var db := Missed(cfg);
            && Reached(cfg, db) && GAME in db.games && db.games[GAME].IsParticipant(user)
            && var other := GameState.Opponent(db.games[GAME], user);
               GameState.ReportedOpponentCount(db.guesses, GAME, db.games[GAME], user)
               != |GameState.GuessesBy(db.guesses, GAME, other)|
  {
    MissedReached(cfg);
    PlainReached(cfg, Missed(cfg));
    PlainGames(cfg, Missed(cfg));
    GameState.ReportedCountIsOwnCount(cfg, Missed(cfg), GAME, user);
  }

  /** A timer for thirty seconds, written at once, can never be seen expired. */
  lemma PromptTimerVanishes(store: Timers.Store, t: Time)
    ensures var after := store[GAME := Timers.NewTimer(1, ANN, 0, 30 * SECOND, 0)];
            Timers.GetTurn(after, GAME, t).Some? ==> after[GAME].expiresAt > t
  {
    Timers.ExpiryVisibleIff(1, ANN, 0, 30 * SECOND, 0, GAME, store);
  }

  /** A column of the declared 255 characters takes no secret. */
  lemma DeclaredColumnRefuses(cfg: Config)
    requires HexDigests(cfg.hasher) && cfg.secretColumn == Some(255)
    ensures Reached(cfg, Paired())
    ensures SetSecretTx(cfg, Paired(), ANN, GAME, ANNS, 2) == (Paired(), Err(ColumnOverflow))
  {
    PairedReached(cfg);
    PlainReached(cfg, Paired());
    SecretStoredIff(cfg, Paired(), ANN, GAME, ANNS, 2);
    SetSecretFails(cfg, Paired(), ANN, GAME, ANNS, 2);
  }

  // ---------- Timers left behind ----------

  ghost predicate Lives(cfg: Config, w: LateTimers.World) {
    exists steps :: LateTimers.Run(cfg, LateTimers.EMPTY_WORLD, steps) == w
  }

  lemma {:induction false} LateRunOneMore(cfg: Config, w: LateTimers.World, steps: seq<LateTimers.Step>,
                                          s: LateTimers.Step)
    ensures LateTimers.Run(cfg, w, steps + [s]) == LateTimers.After(cfg, LateTimers.Run(cfg, w, steps), s)
    decreases |steps|
  {
    if steps != [] {
      assert (steps + [s])[1..] == steps[1..] + [s];
      LateRunOneMore(cfg, LateTimers.After(cfg, w, steps[0]), steps[1..], s);
    } else {
      assert (steps + [s])[1..] == [];
    }
  }

  lemma LiveOn(cfg: Config, w: LateTimers.World, s: LateTimers.Step)
    requires Lives(cfg, w)
    ensures Lives(cfg, LateTimers.After(cfg, w, s))
  {
    var steps :| LateTimers.Run(cfg, LateTimers.EMPTY_WORLD, steps) == w;
    LateRunOneMore(cfg, LateTimers.EMPTY_WORLD, steps, s);
  }

  lemma {:induction false} CommitsLive(cfg: Config, db: Db, steps: seq<Step>)
    requires Lives(cfg, LateTimers.World(db, map[], {}))
    ensures Lives(cfg, LateTimers.World(Run(cfg, db, steps), map[], {}))
    decreases |steps|
  {
    if steps != [] {
      LiveOn(cfg, LateTimers.World(db, map[], {}), LateTimers.Commit(steps[0]));
      CommitsLive(cfg, Apply(cfg, db, steps[0]), steps[1..]);
    }
  }

  /** The record of turn 1, written after the game started, with whatever has been played since. */
  function LeftBehind(cfg: Config, db: Db): LateTimers.World {
    LateTimers.World(db, map[GAME := Timers.NewTimer(1, ANN, 3, 3 + cfg.turnDuration, 4)],
                     {LateTimers.Copy(GAME, Begun(cfg))})
  }

  lemma FirstRecordWritten(cfg: Config)
    requires Usable(cfg)
    ensures Lives(cfg, LeftBehind(cfg, Playing(cfg)))
  {
    PlayingReached(cfg);
    var steps :| Run(cfg, EMPTY_DB, steps) == Playing(cfg) && forall s | s in steps :: !StaleRows.Replaced(s);
    assert LateTimers.Run(cfg, LateTimers.EMPTY_WORLD, []) == LateTimers.EMPTY_WORLD;
    CommitsLive(cfg, EMPTY_DB, steps);
    var w, copy := LateTimers.World(Playing(cfg), map[], {}), LateTimers.Copy(GAME, Begun(cfg));
    LiveOn(cfg, w, LateTimers.Read(GAME));
    var w1 := LateTimers.World(Playing(cfg), map[], {copy});
    assert LateTimers.After(cfg, w, LateTimers.Read(GAME)) == w1;
    LiveOn(cfg, w1, LateTimers.Write(copy, 3, 4));
    assert LateTimers.After(cfg, w1, LateTimers.Write(copy, 3, 4)) == LeftBehind(cfg, Playing(cfg));
  }

  lemma PlayedOn(cfg: Config, db: Db, s: Step)
    requires Lives(cfg, LeftBehind(cfg, db))
    ensures Lives(cfg, LeftBehind(cfg, Apply(cfg, db, s)))
  {
    LiveOn(cfg, LeftBehind(cfg, db), LateTimers.Commit(s));
  }

  /** Ann and Bob guess, and neither use case gets to write its timer. */
  lemma RecordLeftBehind(cfg: Config)
    requires Usable(cfg)
    ensures Lives(cfg, LeftBehind(cfg, Missed(cfg))) && Lives(cfg, LeftBehind(cfg, MissedTwice(cfg)))
  {
    FirstRecordWritten(cfg);
    MissedReached(cfg);
    PlayedOn(cfg, Playing(cfg), SubmitGuess(ANN, GAME, ANNS, false, 4, Ids(21, 31)));
    MissedTwiceReached(cfg);
    PlayedOn(cfg, Missed(cfg), SubmitGuess(BOB, GAME, BOBS, false, 5, Ids(22, 32)));
  }

  lemma AnnIsToMove(cfg: Config)
    ensures GAME in MissedTwice(cfg).games && MissedTwice(cfg).games[GAME].turn == 3
    ensures MissedTwice(cfg).games[GAME].CanGuess(ANN) && PlayerChecks(MissedTwice(cfg), ANN) == Ok(())
    ensures MissedTwice(cfg).guesses.Keys == {21, 22} && MissedTwice(cfg).histories == map[]
  {
    assert !FullHit(MISSES) by {
      assert MISSES[0] == Miss;
    }
  }

  lemma AnnCanBePlayedFor(cfg: Config, w: Timers.World, ids: Ids, c: Timers.Clocks)
    requires Usable(cfg) && GamesInv(cfg, w.db) && ids.guess !in w.db.guesses && w.db.histories == map[]
    requires GAME in w.db.games && w.db.games[GAME].CanGuess(ANN) && PlayerChecks(w.db, ANN) == Ok(())
    ensures ids.guess in Timers.GuessUseCase(cfg, w, ANN, GAME, "0123", true, true, ids, c).0.db.guesses
  {
    ParseAccepts("0123");
    Timers.AutoGuessEntered(cfg, w, GAME, ANN, "0123", ids, c);
  }

  /** The record can be seen when it expires, because it was written with a delay. */
  lemma RecordIsSeen(cfg: Config, db: Db)
    ensures var seen := Timers.GetTurn(LeftBehind(cfg, db).timers, GAME, 3 + cfg.turnDuration);
            seen.Some? && seen.value.turn == 1 && Timers.Due(seen, ANN, 3 + cfg.turnDuration)
  {
  }

  /** It is turn 3, but the store still has the record of turn 1. When that expires, the timeout plays
      turn 3 for Ann, whose time for it has not begun. */
  lemma WrongTurnIsPlayed(cfg: Config, ids: Ids, c: Timers.Clocks) returns (w: LateTimers.World, a: Timers.Answers)
    requires Usable(cfg) && ids.guess != 21 && ids.guess != 22
    ensures Lives(cfg, w) && GAME in w.db.games && w.db.games[GAME].turn == 3
    ensures a.seen == a.again == Timers.GetTurn(w.timers, GAME, 3 + cfg.turnDuration)
    ensures a.seen.Some? && a.seen.value.turn == 1
    ensures ids.guess in Timers.TimeoutUseCase(cfg, Timers.World(w.db, w.timers), GAME, ANN, a, 3 + cfg.turnDuration,
                                               ids, c).0.db.guesses
  {
    w := LeftBehind(cfg, MissedTwice(cfg));
    var seen := Timers.GetTurn(w.timers, GAME, 3 + cfg.turnDuration);
    a := Timers.Answers(true, seen, seen, Some("0123"));
    RecordLeftBehind(cfg);
    RecordIsSeen(cfg, MissedTwice(cfg));
    AnnIsToMove(cfg);
    MissedTwiceReached(cfg);
    PlainGames(cfg, MissedTwice(cfg));
    AnnCanBePlayedFor(cfg, Timers.World(w.db, w.timers), ids, c);
    Timers.TimeoutIsGuess(cfg, Timers.World(w.db, w.timers), GAME, ANN, a, 3 + cfg.turnDuration, ids, c);
  }

  function Six(gid: Uuid): Time { 6 }

  lemma BobIsToMove(cfg: Config)
    ensures GAME in Missed(cfg).games && Missed(cfg).games[GAME].turn == 2
    ensures Missed(cfg).games[GAME].status == InProgress
  {
    assert !FullHit(MISSES) by {
      assert MISSES[0] == Miss;
    }
  }

  lemma FirstRecordLive(cfg: Config, db: Db)
    requires cfg.turnDuration > 3
    ensures Timers.Live(LeftBehind(cfg, db).timers, GAME, 6, 6) && LeftBehind(cfg, db).timers[GAME].turn == 1
  {
  }

  lemma LiveRecordKept(cfg: Config, w: Timers.World, later: Uuid -> Time)
    requires GamesInv(cfg, w.db) && Timers.ListsInProgress(w.db, [GAME]) && cfg.turnDuration > 0
    requires GAME in w.db.games && w.db.games[GAME].status == InProgress && Timers.Live(w.timers, GAME, 6, 6)
    ensures var timers := Timers.RecoverUseCase(cfg, w, [GAME], [], 6, Six, later).timers;
            GAME in timers && timers[GAME] == w.timers[GAME]
  {
    Timers.RecoveredRecord(cfg, w, [GAME], [], 6, Six, later, GAME);
  }

  /** Recovery finds the record of turn 1 still running at turn 2, and keeps it. */
  lemma RecoveryCanKeepWrongTurn(cfg: Config, later: Uuid -> Time) returns (w: LateTimers.World)
    requires Usable(cfg) && cfg.turnDuration > 3
    ensures Lives(cfg, w) && GAME in w.db.games && w.db.games[GAME].turn == 2
    ensures Timers.ListsInProgress(w.db, [GAME]) && Timers.ListsOverdue(cfg, w.db, [], 6)
    ensures var timers := Timers.RecoverUseCase(cfg, Timers.World(w.db, w.timers), [GAME], [], 6, Six, later).timers;
            GAME in timers && timers[GAME].turn == 1 && timers[GAME].expiresAt > 6
  {
    RecordLeftBehind(cfg);
    w := LeftBehind(cfg, Missed(cfg));
    MissedReached(cfg);
    PlainGames(cfg, Missed(cfg));
    BobIsToMove(cfg);
    FirstRecordLive(cfg, Missed(cfg));
    LiveRecordKept(cfg, Timers.World(w.db, w.timers), later);
  }

  // ---------- Checks out of date ----------

  /** Bob waits. */
  function BobQueueing(): Db {
    Enrolled().(queue := map[11 := Entry(BOB, 0)])
  }

  lemma BobQueueingReached(cfg: Config)
    ensures Reached(cfg, BobQueueing())
  {
    EnrolledReached(cfg);
    PlainReached(cfg, Enrolled());
    var s := StartMatching(BOB, 0, 11, [11], 0, GAME);
    assert OldestFirst(Queued(Enrolled(), BOB, 0, 11).queue, 2, [11]);
    Reach(cfg, Enrolled(), s);
    assert Apply(cfg, Enrolled(), s) == BobQueueing();
  }

  /** Ann passes the checks of Start and is then deleted. Her transaction finds Bob waiting, drops her
      entry and lets Start answer "waiting". */
  lemma WaitingReplyCanBeFalse(cfg: Config)
    ensures Reached(cfg, BobQueueing()) && StartChecks(BobQueueing(), ANN) == Ok(())
    ensures var db, picked := Deleted(BobQueueing(), CHIEF, ANN, 1), [11, 12];
            && Reached(cfg, db) && OldestFirst(Queued(db, ANN, 1, 12).queue, 2, picked)
            && StartTx(db, ANN, 1, 12, picked, 1, GAME).1 == Ok(None)
            && !Waiting(StartTx(db, ANN, 1, 12, picked, 1, GAME).0, ANN)
  {
    BobQueueingReached(cfg);
    Reach(cfg, BobQueueing(), DeleteUser(CHIEF, ANN, 1));
    var db := Deleted(BobQueueing(), CHIEF, ANN, 1);
    assert WithoutUser(BobQueueing().queue, ANN) == BobQueueing().queue;
    var mid := Queued(db, ANN, 1, 12);
    assert OldestFirst(mid.queue, 2, [11, 12]);
    assert Ready(mid, BOB) && !Ready(mid, ANN);
  }

  lemma AnnDeleted(cfg: Config)
    ensures Reached(cfg, Deleted(Enrolled(), CHIEF, ANN, 1))
    ensures Deleted(Enrolled(), CHIEF, ANN, 1)
            == Enrolled().(users := Enrolled().users[ANN := User("ann", RegularUser, 0, Some(1), Some(CHIEF))])
  {
    EnrolledReached(cfg);
    PlainReached(cfg, Enrolled());
    Reach(cfg, Enrolled(), DeleteUser(CHIEF, ANN, 1));
    assert WithoutUser(map[], ANN) == map[];
    assert Tokens.Swept(map[], {}, 1) == map[];
  }

  /** With nobody else waiting the same delay puts a deleted user in the queue. */
  lemma StaleStartCanQueueDeleted(cfg: Config)
    ensures Reached(cfg, Enrolled()) && StartChecks(Enrolled(), ANN) == Ok(())
    ensures var mid := Deleted(Enrolled(), CHIEF, ANN, 1);
            && Reached(cfg, mid) && OldestFirst(Queued(mid, ANN, 1, 11).queue, 2, [11])
            && var db := StartTx(mid, ANN, 1, 11, [11], 1, GAME).0;
               Reached(cfg, db) && IsDeletedUser(db.users, ANN) && Waiting(db, ANN)
  {
    EnrolledReached(cfg);
    PlainReached(cfg, Enrolled());
    AnnDeleted(cfg);
    var mid := Deleted(Enrolled(), CHIEF, ANN, 1);
    assert OldestFirst(Queued(mid, ANN, 1, 11).queue, 2, [11]);
    Reach(cfg, mid, StartMatching(ANN, 1, 11, [11], 1, GAME));
    assert 11 in Queued(mid, ANN, 1, 11).queue;
    assert StartTx(mid, ANN, 1, 11, [11], 1, GAME).0 == Queued(mid, ANN, 1, 11);
  }

  /** Ann may be deleted, and is paired before the deletion is carried out. */
  lemma StaleDeletionCanLeaveGame(cfg: Config)
    ensures Reached(cfg, Enrolled()) && DeleteChecks(Enrolled(), CHIEF, ANN) == Ok(())
    ensures var db := Deleted(Paired(), CHIEF, ANN, 2);
            Reached(cfg, db) && IsDeletedUser(db.users, ANN) && HasActiveGame(db.games, ANN)
  {
    EnrolledReached(cfg);
    PlainReached(cfg, Enrolled());
    PairedReached(cfg);
    PlainReached(cfg, Paired());
    Reach(cfg, Paired(), DeleteUser(CHIEF, ANN, 2));
    assert GAME in Paired().games && Paired().games[GAME].IsParticipant(ANN);
  }

  // ---------- Old account rows ----------

  ghost predicate Happens(cfg: Config, w: StaleRows.World) {
    exists steps :: StaleRows.Run(cfg, StaleRows.EMPTY_WORLD, steps) == w
  }

  lemma {:induction false} RunOneMoreSave(cfg: Config, w: StaleRows.World, steps: seq<StaleRows.Step>,
                                          s: StaleRows.Step)
    ensures StaleRows.Run(cfg, w, steps + [s]) == StaleRows.After(cfg, StaleRows.Run(cfg, w, steps), s)
    decreases |steps|
  {
    if steps != [] {
      assert (steps + [s])[1..] == steps[1..] + [s];
      RunOneMoreSave(cfg, StaleRows.After(cfg, w, steps[0]), steps[1..], s);
    } else {
      assert (steps + [s])[1..] == [];
    }
  }

  lemma Continue(cfg: Config, w: StaleRows.World, s: StaleRows.Step) returns (w1: StaleRows.World)
    requires Happens(cfg, w)
    ensures Happens(cfg, w1) && w1 == StaleRows.After(cfg, w, s)
  {
    var steps :| StaleRows.Run(cfg, StaleRows.EMPTY_WORLD, steps) == w;
    RunOneMoreSave(cfg, StaleRows.EMPTY_WORLD, steps, s);
    w1 := StaleRows.After(cfg, w, s);
  }

  lemma {:induction false} CommitsHappen(cfg: Config, w: StaleRows.World, steps: seq<Step>)
    requires Happens(cfg, w) && forall s | s in steps :: !StaleRows.Replaced(s)
    ensures Happens(cfg, w.(db := Run(cfg, w.db, steps)))
    decreases |steps|
  {
    if steps != [] {
      var w1 := Continue(cfg, w, StaleRows.Commit(steps[0]));
      CommitsHappen(cfg, w1, steps[1..]);
    }
  }

  lemma PlainHappens(cfg: Config, db: Db)
    requires Plain(cfg, db)
    ensures Happens(cfg, StaleRows.World(db, {}, map[]))
  {
    var steps :| Run(cfg, EMPTY_DB, steps) == db && forall s | s in steps :: !StaleRows.Replaced(s);
    assert StaleRows.Run(cfg, StaleRows.EMPTY_WORLD, []) == StaleRows.EMPTY_WORLD;
    CommitsHappen(cfg, StaleRows.EMPTY_WORLD, steps);
  }

  /** Ann's row is read by a login, she is deleted, and the login's save brings her back. */
  lemma DeletionCanBeUndone(cfg: Config) returns (before: StaleRows.World, after: StaleRows.World)
    ensures Happens(cfg, before) && IsDeletedUser(before.db.users, ANN)
    ensures Happens(cfg, after) && ANN in after.db.users && !IsDeletedUser(after.db.users, ANN)
    ensures exists copy :: after == StaleRows.After(cfg, before, StaleRows.Login(copy, 41, "hash", 42, 100))
  {
    EnrolledReached(cfg);
    PlainHappens(cfg, Enrolled());
    var w := Continue(cfg, StaleRows.World(Enrolled(), {}, map[]), StaleRows.Read(ANN));
    var copy := StaleRows.Copy(ANN, Enrolled().users[ANN]);
    before := Continue(cfg, w, StaleRows.Delete(CHIEF, copy, 1));
    after := Continue(cfg, before, StaleRows.Login(copy, 41, "hash", 42, 100));
  }

  /** Bob's row is read for a message, he wins, and the message's save takes the win away again. */
  lemma WinCanBeLost(cfg: Config) returns (w: StaleRows.World)
    requires Usable(cfg)
    ensures Happens(cfg, w) && BOB in w.db.users
    ensures w.db.users[BOB].winCount == 0 && |Ledger.WonRows(w.db.histories, BOB)| == 1
  {
    MissedReached(cfg);
    PlainHappens(cfg, Missed(cfg));
    var copy := StaleRows.Copy(BOB, Missed(cfg).users[BOB]);
    w := Continue(cfg, StaleRows.World(Missed(cfg), {}, map[]), StaleRows.Read(BOB));
    var s := SubmitGuess(BOB, GAME, ANNS, false, 5, Ids(22, 32));
    w := Continue(cfg, w, StaleRows.Commit(s));
    var won := WonReached(cfg);
    w := Continue(cfg, w, StaleRows.Touch(copy));
  }

  // ---------- Tokens and backup ----------

  /** A family that has expired comes back when a rotation that read the clock earlier is committed. */
  lemma ExpiredFamilyCanRevive()
    ensures var w := Tokens.Run(Tokens.EMPTY_WORLD, [Tokens.Login(ANN, 1, "a", 7, 100)]);
            var s := Tokens.Rotate(1, {ANN}, 99, 2, "b", 200);
            && Tokens.Fresh(w, s) && Tokens.Inactive(w.rows, 7, 100)
            && !Tokens.Inactive(Tokens.After(w, s).rows, 7, 100)
  {
    var login := Tokens.Login(ANN, 1, "a", 7, 100);
    var w := Tokens.After(Tokens.EMPTY_WORLD, login);
    var s := Tokens.Rotate(1, {ANN}, 99, 2, "b", 200);
    assert [login][1..] == [] && Tokens.Run(Tokens.EMPTY_WORLD, [login]) == w;
    assert "a"[0] != "b"[0];
    Tokens.StepKeepsInactiveIff(w, s, 7, 100);
  }

  const DAY: Time := 24 * 3600 * SECOND

  /** A used token is presented ten days on, after a cleanup with a grace period of seven: its hash is
      unknown, though its family is in use. */
  lemma ReuseCanBeForgotten()
    ensures var login, rotate := Tokens.Login(ANN, 1, "a", 7, 30 * DAY), Tokens.Rotate(1, {ANN}, DAY, 2, "b", 31 * DAY);
            var w := Tokens.Run(Tokens.EMPTY_WORLD, [login, rotate]);
            var now, rows := 10 * DAY, Tokens.Purged(w.rows, 3 * DAY);
            && Tokens.HashTaken(w.rows, "a") && 1 in w.rows && w.rows[1].IsRevoked()
            && !Tokens.HashTaken(rows, "a") && !Tokens.Inactive(rows, 7, now)
  {
    var login, rotate := Tokens.Login(ANN, 1, "a", 7, 30 * DAY), Tokens.Rotate(1, {ANN}, DAY, 2, "b", 31 * DAY);
    var w1 := Tokens.After(Tokens.EMPTY_WORLD, login);
    var w := Tokens.After(w1, rotate);
    assert [login, rotate][1..] == [rotate] && [rotate][1..] == [];
    assert Tokens.Run(Tokens.EMPTY_WORLD, [login, rotate]) == Tokens.Run(w1, [rotate]) == Tokens.Run(w, []);
    assert "a"[0] != "b"[0];
    assert w.rows[1].hash == "a" && w.rows[2].hash == "b";
    assert 2 in Tokens.Purged(w.rows, 3 * DAY) && w.rows[2].IsActive(10 * DAY);
  }

  /** Everything goes well in this run, which ends at `now`. */
  function Smooth(now: Time): Backup.Env {
    Backup.Env((_, _) => Backup.NoFault, 0, true, true, true, now)
  }

  /** Two empty databases that have never been synced. */
  function Blank(): Backup.State {
    Backup.State(seq(Backup.TABLES, _ => map[]), seq(Backup.TABLES, _ => map[]), None)
  }

  lemma FirstSync(s: Backup.State)
    requires s == Backup.History(Blank(), [Backup.Sync(Smooth(SECOND))])
    ensures s == Blank().(mark := Some(SECOND))
  {
    var sync := Backup.Sync(Smooth(SECOND));
    assert [sync][1..] == [];
    assert s == Backup.Happened(Blank(), sync) == Backup.Ran(Blank(), Smooth(SECOND)).0;
    assert Backup.Covered(Blank());
    Backup.RunIsSafe(Blank(), Smooth(SECOND));
    assert Backup.FullCopy(Blank().primary, Blank().backup) == Blank().backup;
  }

  /** After a first sync within the first second a row is written with a stamp of that second. The next
      run leaves it out, although it succeeds. */
  lemma LateWriteCanBeMissed()
    ensures Backup.AllAllowed(Blank(), [Backup.Sync(Smooth(SECOND))])
    ensures var s := Backup.History(Blank(), [Backup.Sync(Smooth(SECOND))]);
            var w := s.(primary := s.primary[0 := s.primary[0][ANN := Backup.Row(5, SECOND)]]);
            var (after, r) := Backup.Ran(w, Smooth(2 * SECOND));
            r.Ok? && !Backup.Holds(w.primary[0], after.backup[0], ANN)
  {
    assert [Backup.Sync(Smooth(SECOND))][1..] == [];
    var s := Backup.History(Blank(), [Backup.Sync(Smooth(SECOND))]);
    FirstSync(s);
    assert Backup.FullCopy(s.primary, s.backup) == s.backup;
    Backup.LateWriteCopiedIff(s, 0, ANN, Backup.Row(5, SECOND), Smooth(2 * SECOND));
  }
}
