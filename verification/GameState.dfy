/** What a player is shown of a game, and what its guess counts mean (usecase/game.go, repository/guess.go). */
module GameState {
  import opened Common
  import opened Digits
  import opened Model
  import opened GameInvariant
  import Timers

  /** The guesses a player has made in a game. */
  function GuessesBy(guesses: map<Uuid, Guess>, gid: Uuid, player: Uuid): set<Uuid> {
    set id | id in guesses && guesses[id].game == gid && guesses[id].player == player
  }

  /** CountByGameExcludingPlayer: the guesses of everybody else in a game. */
  function GuessesNotBy(guesses: map<Uuid, Guess>, gid: Uuid, player: Uuid): set<Uuid> {
    set id | id in guesses && guesses[id].game == gid && guesses[id].player != player
  }

  function Opponent(g: Game, user: Uuid): Uuid {
    if user == g.player2 then g.player1 else g.player2
  }

  /** The number reported as the opponent's guess count: the query excludes the opponent's rows. */
  function ReportedOpponentCount(guesses: map<Uuid, Guess>, gid: Uuid, g: Game, user: Uuid): nat {
    |GuessesNotBy(guesses, gid, Opponent(g, user))|
  }

  // ---------- Counting the log ----------

  function PlayedUpTo(guesses: map<Uuid, Guess>, gid: Uuid, turn: int): set<Uuid> {
    set id | id in guesses && guesses[id].game == gid && guesses[id].turn <= turn
  }

  function PlayedByUpTo(guesses: map<Uuid, Guess>, gid: Uuid, player: Uuid, turn: int): set<Uuid> {
    set id | id in guesses && guesses[id].game == gid && guesses[id].player == player && guesses[id].turn <= turn
  }

  /** `last` is the one guess of turn n, by the player whose turn it was. */
  ghost predicate IsTurn(guesses: map<Uuid, Guess>, gid: Uuid, g: Game, n: int, last: Uuid) {
    && last in guesses && guesses[last].game == gid && guesses[last].turn == n && guesses[last].player == Mover(g, n)
    && forall id | id in guesses && guesses[id].game == gid && guesses[id].turn == n :: id == last
  }

  ghost predicate Played(guesses: map<Uuid, Guess>, gid: Uuid, g: Game, n: int) {
    exists last :: IsTurn(guesses, gid, g, n, last)
  }

  lemma TurnPlayed(cfg: Config, guesses: map<Uuid, Guess>, gid: Uuid, g: Game, n: int)
    requires LogOk(cfg, guesses, gid, g) && 1 <= n < g.turn
    ensures Played(guesses, gid, g, n)
  {
    assert HasTurn(guesses, gid, n);
    var last :| last in guesses && guesses[last].game == gid && guesses[last].turn == n;
    assert GuessOk(cfg, gid, g, guesses[last]);
    assert IsTurn(guesses, gid, g, n, last);
  }

  lemma {:induction false} TurnsCounted(guesses: map<Uuid, Guess>, gid: Uuid, g: Game, n: nat)
    requires forall id | id in guesses && guesses[id].game == gid :: guesses[id].turn > 0
    requires forall t | 1 <= t <= n :: Played(guesses, gid, g, t)
    requires g.player1 != g.player2
    ensures Counted(guesses, gid, g, n)
  {
    if n == 0 {
      assert PlayedUpTo(guesses, gid, 0) == {};
      assert PlayedByUpTo(guesses, gid, g.player1, 0) == {} && PlayedByUpTo(guesses, gid, g.player2, 0) == {};
    } else {
      TurnsCounted(guesses, gid, g, n - 1);
      assert Played(guesses, gid, g, n);
      var last :| IsTurn(guesses, gid, g, n, last);
      CountsAdvance(guesses, gid, g, n, last);
    }
  }

  ghost predicate Counted(guesses: map<Uuid, Guess>, gid: Uuid, g: Game, n: int) {
    && |PlayedUpTo(guesses, gid, n)| == n
    && |PlayedByUpTo(guesses, gid, g.player1, n)| == (n + 1) / 2
    && |PlayedByUpTo(guesses, gid, g.player2, n)| == n / 2
  }

  lemma CountsAdvance(guesses: map<Uuid, Guess>, gid: Uuid, g: Game, n: nat, last: Uuid)
    requires 1 <= n && Counted(guesses, gid, g, n - 1) && g.player1 != g.player2
    requires IsTurn(guesses, gid, g, n, last)
    ensures Counted(guesses, gid, g, n)
  {
    TurnAdded(guesses, gid, g, g.player1, n, last);
    TurnAdded(guesses, gid, g, g.player2, n, last);
  }

  lemma TurnAdded(guesses: map<Uuid, Guess>, gid: Uuid, g: Game, player: Uuid, n: int, last: Uuid)
    requires IsTurn(guesses, gid, g, n, last)
    ensures PlayedUpTo(guesses, gid, n) == PlayedUpTo(guesses, gid, n - 1) + {last}
    ensures last !in PlayedUpTo(guesses, gid, n - 1) && last !in PlayedByUpTo(guesses, gid, player, n - 1)
    ensures PlayedByUpTo(guesses, gid, player, n)
            == PlayedByUpTo(guesses, gid, player, n - 1) + if guesses[last].player == player then {last} else {}
  {
  }

  lemma WholeLog(cfg: Config, guesses: map<Uuid, Guess>, gid: Uuid, g: Game)
    requires LogOk(cfg, guesses, gid, g) && g.turn >= 1 && g.player1 != g.player2
    ensures |set id | id in guesses && guesses[id].game == gid| == g.turn - 1
    ensures |GuessesBy(guesses, gid, g.player1)| == g.turn / 2
    ensures |GuessesBy(guesses, gid, g.player2)| == (g.turn - 1) / 2
    ensures GuessesNotBy(guesses, gid, g.player2) == GuessesBy(guesses, gid, g.player1)
    ensures GuessesNotBy(guesses, gid, g.player1) == GuessesBy(guesses, gid, g.player2)
  {
    var n := g.turn - 1;
    forall t | 1 <= t <= n ensures Played(guesses, gid, g, t) {
      TurnPlayed(cfg, guesses, gid, g, t);
    }
    forall id | id in guesses && guesses[id].game == gid
      ensures 1 <= guesses[id].turn <= n && (guesses[id].player == g.player1 || guesses[id].player == g.player2)
    {
      assert GuessOk(cfg, gid, g, guesses[id]);
    }
    TurnsCounted(guesses, gid, g, n);
    assert PlayedUpTo(guesses, gid, n) == set id | id in guesses && guesses[id].game == gid;
    assert PlayedByUpTo(guesses, gid, g.player1, n) == GuessesBy(guesses, gid, g.player1);
    assert PlayedByUpTo(guesses, gid, g.player2, n) == GuessesBy(guesses, gid, g.player2);
  }

  /** In every state whose games keep their invariant the current turn of a game is one more than its number of guesses,
      of which player 1 made the odd ones and player 2 the even ones. */
  lemma TurnCountsGuesses(cfg: Config, db: Db, gid: Uuid)
    requires GamesInv(cfg, db) && gid in db.games
    ensures db.games[gid].turn == 1 + |set id | id in db.guesses && db.guesses[id].game == gid|
    ensures forall id | id in db.guesses && db.guesses[id].game == gid ::
              db.guesses[id].player == Mover(db.games[gid], db.guesses[id].turn)
    ensures forall id, other | id in db.guesses && other in db.guesses
                               && db.guesses[id].game == gid == db.guesses[other].game
                               && db.guesses[id].turn == db.guesses[other].turn :: id == other
    ensures db.games[gid].status == InProgress ==>
              db.games[gid].turnPlayer == Some(Mover(db.games[gid], db.games[gid].turn))
  {
    assert GameOk(cfg, db.users.Keys, db.guesses, gid, db.games[gid]);
    WholeLog(cfg, db.guesses, gid, db.games[gid]);
    forall id | id in db.guesses && db.guesses[id].game == gid
      ensures db.guesses[id].player == Mover(db.games[gid], db.guesses[id].turn)
    {
      assert GuessOk(cfg, gid, db.games[gid], db.guesses[id]);
    }
  }

  /** The reported count of the opponent's guesses is the caller's own. Because turns alternate it
      is within one of the opponent's, and it is right exactly when the current turn is odd. */
  lemma ReportedCountIsOwnCount(cfg: Config, db: Db, gid: Uuid, user: Uuid)
    requires GamesInv(cfg, db) && gid in db.games && db.games[gid].IsParticipant(user)
    ensures var g := db.games[gid];
            var reported := ReportedOpponentCount(db.guesses, gid, g, user);
            var theirs := |GuessesBy(db.guesses, gid, Opponent(g, user))|;
            && reported == |GuessesBy(db.guesses, gid, user)|
            && -1 <= reported - theirs <= 1
            && (reported == theirs <==> g.turn % 2 == 1)
  {
    assert GameOk(cfg, db.users.Keys, db.guesses, gid, db.games[gid]);
    WholeLog(cfg, db.guesses, gid, db.games[gid]);
  }

  // ---------- Building the reply ----------

  datatype Summary = Summary(turn: int, number: string, results: FourResults, hitCount: nat, isAuto: bool)

  datatype Reply = Reply(
    status: GameStatus,
    turn: int,
    turnPlayer: Option<Uuid>,
    remaining: int,
    myGuesses: seq<Summary>,
    opponentGuessCount: nat)

  /** A legal answer of ListByGameAndPlayer: the player's rows in the order of their turns. */
  ghost predicate ListedByTurn(guesses: map<Uuid, Guess>, gid: Uuid, player: Uuid, rows: seq<Uuid>) {
    && (forall i | 0 <= i < |rows| :: rows[i] in GuessesBy(guesses, gid, player))
    && (forall id | id in GuessesBy(guesses, gid, player) :: id in rows)
    && (forall i, j | 0 <= i < j < |rows| :: rows[i] != rows[j] && guesses[rows[i]].turn <= guesses[rows[j]].turn)
  }

  function SummaryOf(r: Guess): Summary {
    Summary(r.turn, r.number, r.results, r.hitCount, r.isAuto)
  }

  /** buildGameState. `rows` is the database's listing. */
  method BuildGameState(db: Db, turns: Timers.TurnStore, user: Uuid, gid: Uuid, rows: seq<Uuid>, now: Time, at: Time)
    returns (r: Result<Reply, Error>)
    requires ListedByTurn(db.guesses, gid, user, rows)
    ensures gid !in db.games <==> r == Err(NotFound)
    ensures gid in db.games ==> (!db.games[gid].IsParticipant(user) <==> r == Err(Forbidden))
    ensures r.Ok? ==>
              var g := db.games[gid];
              && (r.value.status, r.value.turn, r.value.turnPlayer) == (g.status, g.turn, g.turnPlayer)
              && r.value.remaining
                 == (if g.status == InProgress then Timers.SecondsLeft(turns.records, gid, now, at) else 0)
              && |r.value.myGuesses| == |rows|
              && (forall i | 0 <= i < |rows| ::
                    var shown, row := r.value.myGuesses[i], db.guesses[rows[i]];
                    && shown.turn == row.turn && shown.number == row.number && shown.results == row.results
                    && shown.hitCount == row.hitCount && shown.isAuto == row.isAuto)
              && r.value.opponentGuessCount == ReportedOpponentCount(db.guesses, gid, g, user)
  {
    if gid !in db.games {
      return Err(NotFound);
    }
    var g := db.games[gid];
    if !g.IsParticipant(user) {
      return Err(Forbidden);
    }
    var opponent := g.player2;
    if user == g.player2 {
      opponent := g.player1;
    }
    var count := |GuessesNotBy(db.guesses, gid, opponent)|;
    var left := 0;
    if g.status == InProgress {
      left := turns.RemainingSeconds(gid, now, at);
    }
    var summaries: seq<Summary> := [];
    for i := 0 to |rows|
      invariant summaries == seq(i, k requires 0 <= k < i => SummaryOf(db.guesses[rows[k]]))
    {
      summaries := summaries + [SummaryOf(db.guesses[rows[i]])];
    }
    r := Ok(Reply(g.status, g.turn, g.turnPlayer, left, summaries, count));
  }

  lemma {:induction false} ListingSize(rows: seq<Uuid>)
    requires forall i, j | 0 <= i < j < |rows| :: rows[i] != rows[j]
    ensures |set id | id in rows| == |rows|
  {
    if rows != [] {
      var init := rows[..|rows| - 1];
      ListingSize(init);
      assert (set id | id in rows) == (set id | id in init) + {rows[|rows| - 1]};
    }
  }

  lemma ListingIsComplete(guesses: map<Uuid, Guess>, gid: Uuid, player: Uuid, rows: seq<Uuid>)
    requires ListedByTurn(guesses, gid, player, rows)
    ensures |GuessesBy(guesses, gid, player)| == |rows|
  {
    ListingSize(rows);
    assert (set id | id in rows) == GuessesBy(guesses, gid, player);
  }

  /** Where games keep their invariant the reported opponent count equals the length of the caller's own list. */
  lemma ReportedCountIsListLength(cfg: Config, db: Db, gid: Uuid, user: Uuid, rows: seq<Uuid>)
    requires GamesInv(cfg, db) && gid in db.games && db.games[gid].IsParticipant(user)
    requires ListedByTurn(db.guesses, gid, user, rows)
    ensures ReportedOpponentCount(db.guesses, gid, db.games[gid], user) == |rows|
  {
    ReportedCountIsOwnCount(cfg, db, gid, user);
    ListingIsComplete(db.guesses, gid, user, rows);
  }
}
