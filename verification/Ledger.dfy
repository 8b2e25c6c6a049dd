/** The win ledger: win counts, match history and finished games always tell the same story. */
module Ledger {
  import opened Common
  import opened Digits
  import opened Model
  import opened Duel
  import opened Effects
  import opened GameInvariant

  function WonRows(histories: map<Uuid, History>, user: Uuid): set<Uuid> {
    set h | h in histories && histories[h].winner == user
  }

  function WonGames(games: map<Uuid, Game>, user: Uuid): set<Uuid> {
    set gid | gid in games && games[gid].winner == Some(user)
  }

  /** Wins missing from a user's count because an old account row was saved over it. Only module
      StaleRows has any. */
  type Losses = map<Uuid, int>

  function Lost(lost: Losses, user: Uuid): int {
    if user in lost then lost[user] else 0
  }

  ghost predicate Balanced(users: map<Uuid, User>, games: map<Uuid, Game>, histories: map<Uuid, History>,
                           lost: Losses) {
    && lost.Keys <= users.Keys
    && forall u | u in users :: users[u].winCount + Lost(lost, u) == |WonRows(histories, u)| == |WonGames(games, u)|
  }

  ghost predicate HistoriesOk(games: map<Uuid, Game>, histories: map<Uuid, History>) {
    && (forall h | h in histories ::
          && histories[h].game in games
          && games[histories[h].game].winner == Some(histories[h].winner)
          && OpponentOf(games[histories[h].game], histories[h].winner) == Ok(histories[h].loser))
    && (forall h, k | h in histories && k in histories && histories[h].game == histories[k].game :: h == k)
    && (forall gid | gid in games && games[gid].winner.Some? :: HasHistory(histories, gid))
  }

  ghost predicate LedgerInv(db: Db) {
    Balanced(db.users, db.games, db.histories, map[]) && HistoriesOk(db.games, db.histories)
  }

  /** Only winners with an account are recorded. */
  lemma StrangersNeverWon(cfg: Config, db: Db, u: Uuid)
    requires GamesInv(cfg, db) && HistoriesOk(db.games, db.histories) && u !in db.users
    ensures WonRows(db.histories, u) == {} && WonGames(db.games, u) == {}
  {
    forall gid | gid in db.games ensures db.games[gid].winner != Some(u) {
      assert GameOk(cfg, db.users.Keys, db.guesses, gid, db.games[gid]);
    }
  }

  lemma NoWinKeepsWins(cfg: Config, db: Db, db1: Db, u: Uuid)
    requires GamesInv(cfg, db) && HistoriesOk(db.games, db.histories) && NoWin(db, db1)
    ensures WonRows(db1.histories, u) == WonRows(db.histories, u) && WonGames(db1.games, u) == WonGames(db.games, u)
    ensures u !in db.users ==> WonRows(db.histories, u) == {} && WonGames(db.games, u) == {}
  {
    if u !in db.users {
      StrangersNeverWon(cfg, db, u);
    }
  }

  lemma NoWinKeepsCounts(cfg: Config, db: Db, db1: Db, lost: Losses)
    requires GamesInv(cfg, db) && HistoriesOk(db.games, db.histories)
    requires Balanced(db.users, db.games, db.histories, lost) && NoWin(db, db1)
    ensures Balanced(db1.users, db1.games, db1.histories, lost)
  {
    forall u | u in db1.users
      ensures db1.users[u].winCount + Lost(lost, u) == |WonRows(db1.histories, u)| == |WonGames(db1.games, u)|
    {
      NoWinKeepsWins(cfg, db, db1, u);
    }
  }

  lemma NoWinKeepsHistories(db: Db, db1: Db)
    requires HistoriesOk(db.games, db.histories) && NoWin(db, db1)
    ensures HistoriesOk(db1.games, db1.histories)
  {
  }

  /** The commit that records a win: `winner` wins game `gid`, which had no winner. */
  ghost predicate Win(db: Db, db1: Db, gid: Uuid, winner: Uuid, historyId: Uuid) {
    && gid in db.games && db.games[gid].winner.None? && winner in db.users && historyId !in db.histories
    && gid in db1.games && historyId in db1.histories
    && db1.games == db.games[gid := db1.games[gid]]
    && db1.histories == db.histories[historyId := db1.histories[historyId]]
    && db1.users == db.users[winner := db.users[winner].(winCount := db.users[winner].winCount + 1)]
    && db1.games[gid].winner == Some(winner)
    && db1.histories[historyId].game == gid
    && db1.histories[historyId].winner == winner
    && OpponentOf(db1.games[gid], winner) == Ok(db1.histories[historyId].loser)
  }

  /** One more row, one more game and one more on the counter, for the winner only. */
  lemma WinKeepsCounts(db: Db, db1: Db, gid: Uuid, winner: Uuid, historyId: Uuid, lost: Losses)
    requires Balanced(db.users, db.games, db.histories, lost) && Win(db, db1, gid, winner, historyId)
    ensures Balanced(db1.users, db1.games, db1.histories, lost)
  {
    forall u | u in db1.users
      ensures db1.users[u].winCount + Lost(lost, u) == |WonRows(db1.histories, u)| == |WonGames(db1.games, u)|
    {
      WinSets(db, db1, gid, winner, historyId, u);
    }
  }

  lemma WinSets(db: Db, db1: Db, gid: Uuid, winner: Uuid, historyId: Uuid, u: Uuid)
    requires Win(db, db1, gid, winner, historyId)
    ensures WonRows(db1.histories, u) == WonRows(db.histories, u) + if u == winner then {historyId} else {}
    ensures WonGames(db1.games, u) == WonGames(db.games, u) + if u == winner then {gid} else {}
    ensures historyId !in WonRows(db.histories, u) && gid !in WonGames(db.games, u)
  {
  }

  lemma WinKeepsHistories(db: Db, db1: Db, gid: Uuid, winner: Uuid, historyId: Uuid)
    requires HistoriesOk(db.games, db.histories) && Win(db, db1, gid, winner, historyId)
    ensures HistoriesOk(db1.games, db1.histories)
  {
    assert forall h | h in db.histories :: db.histories[h].game != gid;
    forall h | h in db1.games && db1.games[h].winner.Some? ensures HasHistory(db1.histories, h) {
      if h == gid {
        assert db1.histories[historyId].game == gid;
      } else {
        assert HasHistory(db.histories, h);
        var k :| k in db.histories && db.histories[k].game == h;
        assert k in db1.histories && db1.histories[k] == db.histories[k];
      }
    }
  }

  /** Every commit records no win, or is a guess that records one. */
  lemma StepNoWinOrWin(cfg: Config, db: Db, s: Step)
    requires GamesInv(cfg, db)
    ensures NoWin(db, Apply(cfg, db, s))
            || (s.SubmitGuess? && Win(db, Apply(cfg, db, s), s.game, s.player, s.ids.history))
  {
    match s
    case Register(id, username, role) => RegisterFrame(db, id, username, role);
    case DeleteUser(admin, target, now) => DeleteUserFrame(db, admin, target, now);
    case SetSecret(user, gid, digits, now) => SetSecretFrame(cfg, db, user, gid, digits, now);
    case SubmitGuess(user, gid, digits, isAuto, now, ids) =>
      GuessNoWinOrWin(cfg, db, user, gid, digits, isAuto, now, ids);
    case CancelGame(gid, now) => CancelFrame(cfg, db, gid, now);
    case StartMatching(user, now, entryId, picked, later, gameId) =>
      if OldestFirst(Queued(db, user, now, entryId).queue, 2, picked) {
        StartNoWin(db, user, now, entryId, picked, later, gameId);
      }
    case LeaveQueue(_) =>
    case TokenStep(t) => TokenFrame(db, t);
  }

  lemma OpenGuessNoWin(cfg: Config, db: Db, user: Uuid, gid: Uuid, digits: Number, isAuto: bool, now: Time,
                       ids: Ids)
    requires gid in db.games && RowOk(cfg, db.users.Keys, gid, db.games[gid])
    requires GuessTx(cfg, db, user, gid, digits, isAuto, now, ids).1.Ok?
    requires !GuessTx(cfg, db, user, gid, digits, isAuto, now, ids).1.value.isWin
    ensures NoWin(db, GuessTx(cfg, db, user, gid, digits, isAuto, now, ids).0)
  {
    OpenGuess(cfg, db, user, gid, digits, isAuto, now, ids);
    GuessEffect(cfg, db, user, gid, digits, isAuto, now, ids);
  }

  lemma WinningGuessWins(cfg: Config, db: Db, user: Uuid, gid: Uuid, digits: Number, isAuto: bool, now: Time,
                         ids: Ids)
    requires gid in db.games && RowOk(cfg, db.users.Keys, gid, db.games[gid])
    requires GuessTx(cfg, db, user, gid, digits, isAuto, now, ids).1.Ok?
    requires GuessTx(cfg, db, user, gid, digits, isAuto, now, ids).1.value.isWin
    ensures Win(db, GuessTx(cfg, db, user, gid, digits, isAuto, now, ids).0, gid, user, ids.history)
  {
    WinningGuess(cfg, db, user, gid, digits, isAuto, now, ids);
    GuessEffect(cfg, db, user, gid, digits, isAuto, now, ids);
  }

  lemma GuessNoWinOrWin(cfg: Config, db: Db, user: Uuid, gid: Uuid, digits: Number, isAuto: bool, now: Time,
                        ids: Ids)
    requires GamesInv(cfg, db)
    ensures var db1 := GuessTx(cfg, db, user, gid, digits, isAuto, now, ids).0;
            NoWin(db, db1) || Win(db, db1, gid, user, ids.history)
  {
    var (db1, r) := GuessTx(cfg, db, user, gid, digits, isAuto, now, ids);
    if r.Err? {
      GuessFails(cfg, db, user, gid, digits, isAuto, now, ids);
    } else {
      GuessEffect(cfg, db, user, gid, digits, isAuto, now, ids);
      assert GameOk(cfg, db.users.Keys, db.guesses, gid, db.games[gid]);
      if r.value.isWin {
        WinningGuessWins(cfg, db, user, gid, digits, isAuto, now, ids);
      } else {
        OpenGuessNoWin(cfg, db, user, gid, digits, isAuto, now, ids);
      }
    }
  }

  /** Every commit keeps histories and winners in agreement, and each win count short of them by what
      it was short before. */
  lemma StepKeepsBalance(cfg: Config, db: Db, s: Step, lost: Losses)
    requires GamesInv(cfg, db) && HistoriesOk(db.games, db.histories)
              && Balanced(db.users, db.games, db.histories, lost)
    ensures var db1 := Apply(cfg, db, s);
            HistoriesOk(db1.games, db1.histories) && Balanced(db1.users, db1.games, db1.histories, lost)
  {
    var db1 := Apply(cfg, db, s);
    StepNoWinOrWin(cfg, db, s);
    if NoWin(db, db1) {
      NoWinKeepsCounts(cfg, db, db1, lost);
      NoWinKeepsHistories(db, db1);
    } else {
      WinKeepsCounts(db, db1, s.game, s.player, s.ids.history, lost);
      WinKeepsHistories(db, db1, s.game, s.player, s.ids.history);
    }
  }

  lemma StepKeepsLedger(cfg: Config, db: Db, s: Step)
    requires GamesInv(cfg, db) && LedgerInv(db)
    ensures LedgerInv(Apply(cfg, db, s))
  {
    StepKeepsBalance(cfg, db, s, map[]);
  }
}
