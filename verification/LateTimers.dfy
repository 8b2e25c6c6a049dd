/** Turn timers when nothing can be relied on: a use case reads the game again after its commit and then
    writes the timer, and between these steps anything may run, or the use case may stop for good
    (usecase/game_play.go, game_recovery.go). What can a record of the store still say? */
module LateTimers {
  import opened Common
  import opened Model
  import opened Duel
  import opened GameInvariant
  import opened Reachable
  import Timers

  /** A game row as some use case has read it. */
  datatype Copy = Copy(gid: Uuid, game: Game)

  datatype World = World(db: Db, timers: Timers.Store, copies: set<Copy>)

  const EMPTY_WORLD := World(EMPTY_DB, map[], {})

  /** Every timer write uses a row read earlier, and every commit may be left without its write. Drop
      stands for a deleted key as well as for one that vanishes by itself. */
  datatype Step =
    | Commit(s: Duel.Step)
    | Read(gid: Uuid)
    | Write(copy: Copy, now: Time, at: Time)
    | Drop(gid: Uuid)

  ghost function After(cfg: Config, w: World, s: Step): World {
    match s
    case Commit(c) => w.(db := Apply(cfg, w.db, c))
    case Read(gid) => if gid in w.db.games then w.(copies := w.copies + {Copy(gid, w.db.games[gid])}) else w
    case Write(c, now, at) =>
      if c in w.copies then w.(timers := Timers.Armed(cfg, w.timers, c.gid, c.game, now, at)) else w
    case Drop(gid) => w.(timers := w.timers - {gid})
  }

  ghost function Run(cfg: Config, w: World, steps: seq<Step>): World
    decreases |steps|
  {
    if steps == [] then w else Run(cfg, After(cfg, w, steps[0]), steps[1..])
  }

  /** The turn has come in the game, and it is the player's. */
  predicate OwnTurn(g: Game, turn: int, player: Uuid) {
    1 <= turn <= g.turn && player == Mover(g, turn)
  }

  ghost predicate RecordsOk(games: map<Uuid, Game>, timers: Timers.Store) {
    forall gid | gid in timers :: gid in games && OwnTurn(games[gid], timers[gid].turn, timers[gid].player)
  }

  ghost predicate CopiesOk(games: map<Uuid, Game>, copies: set<Copy>) {
    forall c | c in copies ::
      c.gid in games && (c.game.turnPlayer.Some? ==> OwnTurn(games[c.gid], c.game.turn, c.game.turnPlayer.value))
  }

  ghost predicate Valid(cfg: Config, w: World) {
    GamesInv(cfg, w.db) && RecordsOk(w.db.games, w.timers) && CopiesOk(w.db.games, w.copies)
  }

  /** A row names its own turn if it names any. */
  lemma RowNamesOwnTurn(cfg: Config, db: Db, gid: Uuid)
    requires GamesInv(cfg, db) && gid in db.games && db.games[gid].turnPlayer.Some?
    ensures OwnTurn(db.games[gid], db.games[gid].turn, db.games[gid].turnPlayer.value)
  {
    assert GameOk(cfg, db.users.Keys, db.guesses, gid, db.games[gid]);
  }

  lemma TurnsStay(db: Db, db1: Db, timers: Timers.Store, copies: set<Copy>)
    requires Grows(db, db1) && RecordsOk(db.games, timers) && CopiesOk(db.games, copies)
    ensures RecordsOk(db1.games, timers) && CopiesOk(db1.games, copies)
  {
  }

  lemma CommitKeepsValid(cfg: Config, w: World, s: Duel.Step)
    requires Valid(cfg, w)
    ensures Valid(cfg, After(cfg, w, Commit(s)))
  {
    StepKeepsGames(cfg, w.db, s);
    StepGrows(cfg, w.db, s);
    TurnsStay(w.db, Apply(cfg, w.db, s), w.timers, w.copies);
  }

  lemma StepKeepsValid(cfg: Config, w: World, s: Step)
    requires Valid(cfg, w)
    ensures Valid(cfg, After(cfg, w, s))
  {
    match s
    case Commit(c) => CommitKeepsValid(cfg, w, c);
    case Read(gid) =>
      if gid in w.db.games && w.db.games[gid].turnPlayer.Some? {
        RowNamesOwnTurn(cfg, w.db, gid);
      }
    case Write(_, _, _) =>
    case Drop(_) =>
  }

  lemma {:induction false} RunKeepsValid(cfg: Config, w: World, steps: seq<Step>)
    requires Valid(cfg, w)
    ensures Valid(cfg, Run(cfg, w, steps))
    decreases |steps|
  {
    if steps != [] {
      StepKeepsValid(cfg, w, steps[0]);
      RunKeepsValid(cfg, After(cfg, w, steps[0]), steps[1..]);
    }
  }

  /** However late, lost or out of order timer writes are, every record names a turn that has come in its
      game together with the player whose turn it was. */
  lemma RecordsNameOwnTurns(cfg: Config, steps: seq<Step>, gid: Uuid)
    requires gid in Run(cfg, EMPTY_WORLD, steps).timers
    ensures var w := Run(cfg, EMPTY_WORLD, steps);
            gid in w.db.games && OwnTurn(w.db.games[gid], w.timers[gid].turn, w.timers[gid].player)
  {
    RunKeepsValid(cfg, EMPTY_WORLD, steps);
  }

  /** The turn is one of those of the player who is to move. */
  predicate SamePlayersTurn(g: Game, turn: int) {
    turn <= g.turn && (g.turn - turn) % 2 == 0
  }

  lemma OwnTurnOfMover(g: Game, turn: int, player: Uuid)
    requires g.player1 != g.player2 && player == Mover(g, g.turn) && OwnTurn(g, turn, player)
    ensures SamePlayersTurn(g, turn)
  {
  }

  lemma MoverOfGame(cfg: Config, db: Db, gid: Uuid, player: Uuid)
    requires GamesInv(cfg, db) && gid in db.games && db.games[gid].CanGuess(player)
    ensures db.games[gid].player1 != db.games[gid].player2 && player == Mover(db.games[gid], db.games[gid].turn)
  {
    assert GameOk(cfg, db.users.Keys, db.guesses, gid, db.games[gid]);
  }

  lemma RecordIsOwnTurn(games: map<Uuid, Game>, timers: Timers.Store, gid: Uuid)
    requires RecordsOk(games, timers) && gid in timers
    ensures gid in games && OwnTurn(games[gid], timers[gid].turn, timers[gid].player)
  {
  }

  lemma DueRecordIsSamePlayersTurn(cfg: Config, w: World, gid: Uuid, player: Uuid, read: Time, now: Time)
    requires Valid(cfg, w) && gid in w.db.games && w.db.games[gid].CanGuess(player)
    requires Timers.Due(Timers.GetTurn(w.timers, gid, read), player, now)
    ensures SamePlayersTurn(w.db.games[gid], w.timers[gid].turn)
  {
    RecordIsOwnTurn(w.db.games, w.timers, gid);
    MoverOfGame(cfg, w.db, gid, player);
    OwnTurnOfMover(w.db.games[gid], w.timers[gid].turn, player);
  }

  /** A timeout that acts found the record of its player expired, and plays the turn the game is at. */
  lemma ActsOnlyWhenDue(cfg: Config, w: Timers.World, gid: Uuid, player: Uuid, a: Timers.Answers,
                        now: Time, ids: Ids, c: Timers.Clocks)
    requires GamesInv(cfg, w.db) && ids.guess !in w.db.guesses
    requires ids.guess in Timers.TimeoutUseCase(cfg, w, gid, player, a, now, ids, c).0.db.guesses
    ensures Timers.Due(a.seen, player, now) && gid in w.db.games && w.db.games[gid].CanGuess(player)
    ensures Timers.TimeoutUseCase(cfg, w, gid, player, a, now, ids, c).0.db.guesses[ids.guess].turn
            == w.db.games[gid].turn
  {
    Timers.TimeoutIsSafe(cfg, w, gid, player, a, now, ids, c);
  }

  /** So a timeout that acts on what it read from such a store plays the turn the record names or a later
      one of the same player: the two are an even number of turns apart. */
  lemma TimeoutPlaysSamePlayersTurn(cfg: Config, w: World, gid: Uuid, player: Uuid, a: Timers.Answers, read: Time,
                                    now: Time, ids: Ids, c: Timers.Clocks)
    requires Valid(cfg, w) && ids.guess !in w.db.guesses && a.seen == Timers.GetTurn(w.timers, gid, read)
    requires ids.guess in
             Timers.TimeoutUseCase(cfg, Timers.World(w.db, w.timers), gid, player, a, now, ids, c).0.db.guesses
    ensures var tw := Timers.World(w.db, w.timers);
            var turn := Timers.TimeoutUseCase(cfg, tw, gid, player, a, now, ids, c).0.db.guesses[ids.guess].turn;
            && a.seen.Some? && gid in w.db.games && turn == w.db.games[gid].turn
            && SamePlayersTurn(w.db.games[gid], a.seen.value.turn)
  {
    ActsOnlyWhenDue(cfg, Timers.World(w.db, w.timers), gid, player, a, now, ids, c);
    DueRecordIsSamePlayersTurn(cfg, w, gid, player, read, now);
  }
}
