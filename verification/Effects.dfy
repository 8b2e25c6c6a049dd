/** What each commit changes when it succeeds, without any assumption about the state it starts in. */
module Effects {
  import opened Common
  import opened Digits
  import opened Model
  import opened Secrets
  import opened Duel
  import Tokens

  /** The game row after `user` has stored a secret. */
  function SecretRow(cfg: Config, g: Game, gid: Uuid, user: Uuid, digits: Number, now: Time): Game {
    var g1 :=
      if user == g.player1 then g.(secret1 := Hashed(cfg.hasher, digits, gid, if user == g.player2 then 2 else 1))
      else g.(secret2 := Hashed(cfg.hasher, digits, gid, 2));
    if g1.BothSecretsSet()
    then g1.(status := InProgress, turn := 1, turnPlayer := Some(g.player1), startedAt := Some(now))
    else g1
  }

  lemma SetSecretEffect(cfg: Config, db: Db, user: Uuid, gid: Uuid, digits: Number, now: Time)
    requires SetSecretTx(cfg, db, user, gid, digits, now).1.Ok?
    ensures gid in db.games && db.games[gid].IsParticipant(user) && db.games[gid].status == WaitingSecret
    ensures SetSecretTx(cfg, db, user, gid, digits, now).0
            == db.(games := db.games[gid := SecretRow(cfg, db.games[gid], gid, user, digits, now)])
    ensures user == db.games[gid].player1 ==> db.games[gid].secret1 == ""
    ensures user != db.games[gid].player1 ==> db.games[gid].secret2 == ""
    ensures SetSecretTx(cfg, db, user, gid, digits, now).1.value
            <==> SecretRow(cfg, db.games[gid], gid, user, digits, now).status == InProgress
  {
  }

  lemma SetSecretFails(cfg: Config, db: Db, user: Uuid, gid: Uuid, digits: Number, now: Time)
    requires SetSecretTx(cfg, db, user, gid, digits, now).1.Err?
    ensures SetSecretTx(cfg, db, user, gid, digits, now).0 == db
  {
  }

  function GuessRow(g: Game, gid: Uuid, user: Uuid, digits: Number, results: FourResults, isAuto: bool): Guess {
    Guess(gid, user, g.turn, Format(digits), results, Hits(results), isAuto)
  }

  /** The verdict the stored secret gives. */
  function Verdict(cfg: Config, g: Game, gid: Uuid, user: Uuid, digits: Number): Result<FourResults, Error> {
    Verified(cfg.hasher, TargetSecret(g, user), digits, gid, TargetSlot(g, user))
  }

  lemma GuessEffect(cfg: Config, db: Db, user: Uuid, gid: Uuid, digits: Number, isAuto: bool, now: Time,
                    ids: Ids)
    requires GuessTx(cfg, db, user, gid, digits, isAuto, now, ids).1.Ok?
    ensures gid in db.games && ids.guess !in db.guesses && Advanced(db.games[gid], user).Ok?
    ensures Verdict(cfg, db.games[gid], gid, user, digits).Ok?
    ensures var (db1, r) := GuessTx(cfg, db, user, gid, digits, isAuto, now, ids);
            var g, results := db.games[gid], Verdict(cfg, db.games[gid], gid, user, digits).value;
            var mid := db.(guesses := db.guesses[ids.guess := GuessRow(g, gid, user, digits, results, isAuto)]);
            && r.value == GuessReply(g.turn, results, Hits(results), FullHit(results))
            && if FullHit(results)
               then FinishTx(db, mid, gid, Advanced(g, user).value, user, now, ids.history) == (db1, Ok(()))
               else db1 == mid.(games := mid.games[gid := Advanced(g, user).value])
  {
  }

  lemma GuessFails(cfg: Config, db: Db, user: Uuid, gid: Uuid, digits: Number, isAuto: bool, now: Time,
                   ids: Ids)
    requires GuessTx(cfg, db, user, gid, digits, isAuto, now, ids).1.Err?
    ensures GuessTx(cfg, db, user, gid, digits, isAuto, now, ids).0 == db
  {
  }

  lemma FinishEffect(db: Db, mid: Db, gid: Uuid, g: Game, winner: Uuid, now: Time, historyId: Uuid)
    requires FinishTx(db, mid, gid, g, winner, now, historyId).1.Ok?
    requires g.player1 in mid.users && g.player2 in mid.users
    ensures OpponentOf(g, winner).Ok? && winner in mid.users
    ensures historyId !in mid.histories && !HasHistory(mid.histories, gid)
    ensures FinishTx(db, mid, gid, g, winner, now, historyId).0 ==
            var loser := OpponentOf(g, winner).value;
            mid.(games := mid.games[gid := g.(status := Finished, winner := Some(winner), finishedAt := Some(now))],
                 histories := mid.histories[historyId := History(gid, winner, loser, mid.users[winner].username,
                                                                 mid.users[loser].username, now)],
                 users := mid.users[winner := mid.users[winner].(winCount := mid.users[winner].winCount + 1)])
  {
  }

  /** Everything a matching commit can do: change the queue, and open at most one game, between two
      different users who were ready at that moment and whose entries it removes. */
  lemma MatchEffect(db: Db, mid: Db, picked: seq<Uuid>, now: Time, gameId: Uuid)
    requires forall i | 0 <= i < |picked| :: picked[i] in mid.queue
    ensures var (db1, r) := MatchTx(db, mid, picked, now, gameId);
            && (r.Err? ==> db1 == db)
            && (r == Ok(None) ==> db1 == mid.(queue := db1.queue) && db1.queue.Keys <= mid.queue.Keys)
            && (r.Ok? && r.value.Some? ==>
                  && r.value.value == gameId && gameId !in mid.games && |picked| >= 2
                  && var u1, u2 := mid.queue[picked[0]].user, mid.queue[picked[1]].user;
                     && u1 != u2 && Ready(mid, u1) && Ready(mid, u2)
                     && db1 == mid.(games := mid.games[gameId := NewGame(u1, u2, now)],
                                    queue := mid.queue - {picked[0], picked[1]}))
  {
  }

  lemma DeleteUserEffect(db: Db, admin: Uuid, target: Uuid, now: Time)
    ensures var db1 := Deleted(db, admin, target, now);
            && db1.games == db.games && db1.guesses == db.guesses && db1.histories == db.histories
            && db1.users.Keys == db.users.Keys
            && (forall u | u in db.users :: db1.users[u].winCount == db.users[u].winCount
                                            && db1.users[u].username == db.users[u].username
                                            && (u != target ==> db1.users[u] == db.users[u]))
            && db1.queue.Keys <= db.queue.Keys
            && (forall e | e in db1.queue :: db1.queue[e] == db.queue[e])
  {
  }

  // ---------- Two frames ----------

  /** Commits that record no win: accounts, players and winners stay, new games have no winner, and win
      counts stay, with zero for a new account. */
  ghost predicate NoWin(db: Db, db1: Db) {
    && db1.histories == db.histories
    && db.games.Keys <= db1.games.Keys && db.users.Keys <= db1.users.Keys
    && (forall gid | gid in db1.games ::
          if gid in db.games
          then (db1.games[gid].player1, db1.games[gid].player2, db1.games[gid].winner)
               == (db.games[gid].player1, db.games[gid].player2, db.games[gid].winner)
          else db1.games[gid].winner.None?)
    && (forall u | u in db1.users :: db1.users[u].winCount == if u in db.users then db.users[u].winCount else 0)
  }

  /** Commits that open no game and add no entry. */
  ghost predicate OpensNothing(db: Db, db1: Db) {
    && db1.games.Keys == db.games.Keys
    && (forall gid | gid in db.games ::
          && (db1.games[gid].player1, db1.games[gid].player2) == (db.games[gid].player1, db.games[gid].player2)
          && (db1.games[gid].IsActive() ==> db.games[gid].IsActive()))
    && db1.queue.Keys <= db.queue.Keys
    && (forall e | e in db1.queue :: db1.queue[e] == db.queue[e])
  }

  lemma RegisterFrame(db: Db, id: NewUuid, username: string, role: Role)
    ensures NoWin(db, RegisterTx(db, id, username, role).0)
    ensures OpensNothing(db, RegisterTx(db, id, username, role).0)
  {
    if RegisterTx(db, id, username, role).1.Ok? {
      assert RegisterTx(db, id, username, role).0 == db.(users := db.users[id := User(username, role, 0, None, None)]);
    }
  }

  lemma TokenFrame(db: Db, t: Tokens.Step)
    ensures TokenTx(db, t) == db.(tokens := TokenTx(db, t).tokens)
    ensures NoWin(db, TokenTx(db, t)) && OpensNothing(db, TokenTx(db, t))
  {
  }

  lemma DeleteUserFrame(db: Db, admin: Uuid, target: Uuid, now: Time)
    ensures NoWin(db, Deleted(db, admin, target, now))
    ensures OpensNothing(db, Deleted(db, admin, target, now))
  {
    DeleteUserEffect(db, admin, target, now);
  }

  lemma SetSecretFrame(cfg: Config, db: Db, user: Uuid, gid: Uuid, digits: Number, now: Time)
    ensures NoWin(db, SetSecretTx(cfg, db, user, gid, digits, now).0)
    ensures OpensNothing(db, SetSecretTx(cfg, db, user, gid, digits, now).0)
  {
    if SetSecretTx(cfg, db, user, gid, digits, now).1.Ok? {
      SetSecretEffect(cfg, db, user, gid, digits, now);
    } else {
      SetSecretFails(cfg, db, user, gid, digits, now);
    }
  }

  /** The row of a game whose setup time has run out. */
  function Expired(g: Game, now: Time): Game {
    g.(status := Finished, finishedAt := Some(now))
  }

  lemma CancelEffect(cfg: Config, db: Db, gid: Uuid, now: Time)
    ensures CancelTx(cfg, db, gid, now).1 ==> gid in db.games && db.games[gid].status == WaitingSecret
    ensures CancelTx(cfg, db, gid, now).0
            == if CancelTx(cfg, db, gid, now).1
               then db.(games := db.games[gid := Expired(db.games[gid], now)])
               else db
  {
  }

  lemma CancelFrame(cfg: Config, db: Db, gid: Uuid, now: Time)
    ensures NoWin(db, CancelTx(cfg, db, gid, now).0)
    ensures OpensNothing(db, CancelTx(cfg, db, gid, now).0)
  {
    CancelEffect(cfg, db, gid, now);
    if CancelTx(cfg, db, gid, now).1 {
      RowFrame(db, gid, Expired(db.games[gid], now));
    }
  }

  lemma RowFrame(db: Db, gid: Uuid, g: Game)
    requires gid in db.games && (g.IsActive() ==> db.games[gid].IsActive())
    requires (g.player1, g.player2, g.winner) == (db.games[gid].player1, db.games[gid].player2, db.games[gid].winner)
    ensures NoWin(db, db.(games := db.games[gid := g])) && OpensNothing(db, db.(games := db.games[gid := g]))
  {
  }

  lemma OneRowOpensNothing(db: Db, db1: Db, gid: Uuid, g: Game)
    requires gid in db.games && db1.games == db.games[gid := g] && db1.queue == db.queue
    requires (g.player1, g.player2) == (db.games[gid].player1, db.games[gid].player2)
    requires g.IsActive() ==> db.games[gid].IsActive()
    ensures OpensNothing(db, db1)
  {
  }

  lemma StartNoWin(db: Db, user: Uuid, now: Time, entryId: Uuid, picked: seq<Uuid>, later: Time, gameId: Uuid)
    requires OldestFirst(Queued(db, user, now, entryId).queue, 2, picked)
    ensures NoWin(db, StartTx(db, user, now, entryId, picked, later, gameId).0)
  {
    if entryId !in db.queue {
      MatchEffect(db, Queued(db, user, now, entryId), picked, later, gameId);
    }
  }
}
