/** The matching queue and the rule that a user plays one game at a time. */
module Matchmaking {
  import opened Common
  import opened Digits
  import opened Model
  import opened Duel
  import opened Effects
  import opened GameInvariant

  /** No user is a player of two active games. No index of the database enforces this. */
  ghost predicate OneGameEach(games: map<Uuid, Game>) {
    forall g, h, u | g in games && h in games && games[g].IsActive() && games[h].IsActive()
                     && games[g].IsParticipant(u) && games[h].IsParticipant(u) :: g == h
  }

  ghost predicate AtMostOneWaits(queue: map<Uuid, Entry>) {
    forall e, f | e in queue && f in queue :: e == f
  }

  ghost predicate MatchInv(db: Db) {
    OneGameEach(db.games) && AtMostOneWaits(db.queue)
  }

  lemma OpensNothingKeepsMatching(db: Db, db1: Db)
    requires MatchInv(db) && OpensNothing(db, db1)
    ensures MatchInv(db1)
  {
    forall g, h, u | g in db1.games && h in db1.games && db1.games[g].IsActive() && db1.games[h].IsActive()
                     && db1.games[g].IsParticipant(u) && db1.games[h].IsParticipant(u)
      ensures g == h
    {
      assert db.games[g].IsActive() && db.games[h].IsActive();
      assert db.games[g].IsParticipant(u) && db.games[h].IsParticipant(u);
    }
  }

  /** With one entry waiting at most, a listing of two after an insertion is the whole queue. */
  lemma PickedIsQueue(db: Db, user: Uuid, now: Time, entryId: Uuid, picked: seq<Uuid>)
    requires AtMostOneWaits(db.queue) && entryId !in db.queue
    requires OldestFirst(Queued(db, user, now, entryId).queue, 2, picked)
    ensures 1 <= |picked| <= 2
    ensures forall e :: e in Queued(db, user, now, entryId).queue <==> e in picked
    ensures entryId in picked
    ensures |picked| == 1 <==> db.queue == map[]
  {
    var q := Queued(db, user, now, entryId).queue;
    assert entryId in q;
    assert |picked| == 2 ==>
        && picked[0] in q && picked[1] in q && picked[0] != picked[1]
        && (picked[0] == entryId || picked[0] in db.queue)
        && (picked[1] == entryId || picked[1] in db.queue);
    forall e | e in q ensures e in picked {
      assert e == entryId || e in db.queue;
    }
    if db.queue != map[] {
      var e :| e in db.queue;
      assert e in picked && entryId in picked && e != entryId;
    }
  }

  lemma NewGameKeepsOneEach(db: Db, gid: Uuid, u1: Uuid, u2: Uuid, now: Time)
    requires OneGameEach(db.games) && gid !in db.games && Ready(db, u1) && Ready(db, u2)
    ensures OneGameEach(db.games[gid := NewGame(u1, u2, now)])
  {
    var games := db.games[gid := NewGame(u1, u2, now)];
    forall g, h, u | g in games && h in games && games[g].IsActive() && games[h].IsActive()
                     && games[g].IsParticipant(u) && games[h].IsParticipant(u)
      ensures g == h
    {
      assert h != gid ==> h in db.games && (g == gid ==> !HasActiveGame(db.games, u));
      assert g != gid ==> g in db.games && (h == gid ==> !HasActiveGame(db.games, u));
    }
  }

  /** Whatever ran between Start's checks and its transaction, the commit keeps the rule. */
  lemma StartKeepsMatching(db: Db, user: Uuid, now: Time, entryId: Uuid, picked: seq<Uuid>, later: Time, gameId: Uuid)
    requires MatchInv(db) && OldestFirst(Queued(db, user, now, entryId).queue, 2, picked)
    ensures MatchInv(StartTx(db, user, now, entryId, picked, later, gameId).0)
  {
    if entryId !in db.queue {
      var mid := Queued(db, user, now, entryId);
      PickedIsQueue(db, user, now, entryId, picked);
      MatchEffect(db, mid, picked, later, gameId);
      var (db1, r) := MatchTx(db, mid, picked, later, gameId);
      if r.Ok? && r.value.Some? {
        NewGameKeepsOneEach(mid, gameId, mid.queue[picked[0]].user, mid.queue[picked[1]].user, later);
      }
      forall e, f | e in db1.queue && f in db1.queue ensures e == f {
        if r.Ok? {
          assert e in picked && f in picked;
        }
      }
    }
  }

  /** Only a matching commit opens a game or adds an entry. */
  lemma OtherStepOpensNothing(cfg: Config, db: Db, s: Step)
    requires GamesInv(cfg, db) && !s.StartMatching?
    ensures OpensNothing(db, Apply(cfg, db, s))
  {
    match s
    case Register(id, username, role) => RegisterFrame(db, id, username, role);
    case DeleteUser(admin, target, now) => DeleteUserFrame(db, admin, target, now);
    case SetSecret(user, gid, digits, now) => SetSecretFrame(cfg, db, user, gid, digits, now);
    case SubmitGuess(user, gid, digits, isAuto, now, ids) =>
      GuessOpensNothing(cfg, db, user, gid, digits, isAuto, now, ids);
    case CancelGame(gid, now) => CancelFrame(cfg, db, gid, now);
    case LeaveQueue(_) =>
    case TokenStep(t) => TokenFrame(db, t);
  }

  lemma GuessOpensNothing(cfg: Config, db: Db, user: Uuid, gid: Uuid, digits: Number, isAuto: bool, now: Time,
                          ids: Ids)
    requires GamesInv(cfg, db)
    ensures OpensNothing(db, GuessTx(cfg, db, user, gid, digits, isAuto, now, ids).0)
  {
    if GuessTx(cfg, db, user, gid, digits, isAuto, now, ids).1.Ok? {
      var row := AcceptedRows(cfg, db, user, gid, digits, isAuto, now, ids);
      OneRowOpensNothing(db, GuessTx(cfg, db, user, gid, digits, isAuto, now, ids).0, gid,
                         GuessedRow(db.games[gid], user, row.results, now));
    } else {
      GuessFails(cfg, db, user, gid, digits, isAuto, now, ids);
    }
  }

  lemma StepKeepsMatching(cfg: Config, db: Db, s: Step)
    requires GamesInv(cfg, db) && MatchInv(db)
    ensures MatchInv(Apply(cfg, db, s))
  {
    if s.StartMatching? {
      if OldestFirst(Queued(db, s.caller, s.insertedAt, s.entryId).queue, 2, s.picked) {
        StartKeepsMatching(db, s.caller, s.insertedAt, s.entryId, s.picked, s.createdAt, s.gameId);
      }
    } else {
      OtherStepOpensNothing(cfg, db, s);
      OpensNothingKeepsMatching(db, Apply(cfg, db, s));
    }
  }

  // ---------- What a caller of Start is told ----------

  /** "matched" names a game the caller plays in, between two different users, the one who had
      waited longer going first. */
  lemma MatchedReplyIsTrue(db: Db, user: Uuid, now: Time, entryId: Uuid, picked: seq<Uuid>, later: Time, gameId: Uuid)
    requires MatchInv(db) && OldestFirst(Queued(db, user, now, entryId).queue, 2, picked)
    requires StartTx(db, user, now, entryId, picked, later, gameId).1 == Ok(Some(gameId))
    ensures var db1 := StartTx(db, user, now, entryId, picked, later, gameId).0;
            var q := Queued(db, user, now, entryId).queue;
            && gameId in db1.games && gameId !in db.games
            && var g := db1.games[gameId];
               && g.IsParticipant(user) && g.player1 != g.player2 && g.IsActive()
               && (exists e, f :: e in q && f in q && q[e].user == g.player1 && q[f].user == g.player2
                                  && q[e].createdAt <= q[f].createdAt)
               && !Waiting(db1, g.player1) && !Waiting(db1, g.player2)
  {
    var mid := Queued(db, user, now, entryId);
    PickedIsQueue(db, user, now, entryId, picked);
    MatchEffect(db, mid, picked, later, gameId);
    var db1 := StartTx(db, user, now, entryId, picked, later, gameId).0;
    assert mid.queue[picked[0]].createdAt <= mid.queue[picked[1]].createdAt;
    assert forall e | e in mid.queue :: e == picked[0] || e == picked[1];
  }

  /** A ready caller who finds another ready user waiting is paired at once. */
  lemma TwoReadyUsersArePaired(db: Db, user: Uuid, other: Uuid, now: Time, entryId: Uuid, picked: seq<Uuid>,
                               later: Time, gameId: Uuid)
    requires MatchInv(db) && OldestFirst(Queued(db, user, now, entryId).queue, 2, picked)
    requires user != other && Ready(db, user) && Ready(db, other) && Waiting(db, other)
    requires entryId !in db.queue && gameId !in db.games
    ensures StartTx(db, user, now, entryId, picked, later, gameId).1 == Ok(Some(gameId))
  {
    var mid := Queued(db, user, now, entryId);
    PickedIsQueue(db, user, now, entryId, picked);
    var e :| e in db.queue && db.queue[e].user == other;
    assert e in mid.queue && entryId in mid.queue;
    assert e in picked && entryId in picked;
    assert Ready(mid, user) && Ready(mid, other);
  }

  /** "waiting" is not always true: the caller's own entry may be the one that was dropped. The
      caller is still in the queue exactly when nobody else was waiting, or the caller's entry is the
      older of the two and the caller is ready, or the other entry is the older and its user is not. */
  lemma WaitingReplyIsTrueIff(db: Db, user: Uuid, now: Time, entryId: Uuid, picked: seq<Uuid>, later: Time,
                              gameId: Uuid)
    requires MatchInv(db) && OldestFirst(Queued(db, user, now, entryId).queue, 2, picked)
    requires StartTx(db, user, now, entryId, picked, later, gameId).1 == Ok(None)
    ensures Waiting(StartTx(db, user, now, entryId, picked, later, gameId).0, user)
            <==> db.queue == map[]
                 || (picked[0] == entryId <==> Ready(db, Queued(db, user, now, entryId).queue[picked[0]].user))
  {
    var mid := Queued(db, user, now, entryId);
    var db1 := StartTx(db, user, now, entryId, picked, later, gameId).0;
    PickedIsQueue(db, user, now, entryId, picked);
    assert forall u :: Ready(mid, u) <==> Ready(db, u);
    assert mid.queue[entryId].user == user;
    if |picked| == 1 {
      assert db1.queue[entryId].user == user;
    } else {
      assert entryId == picked[0] || entryId == picked[1];
      assert forall e | e in mid.queue && e != entryId :: mid.queue[e].user != user;
      assert Waiting(db1, user) <==> entryId in db1.queue;
    }
  }

  /** When the pre-checks still hold at the transaction, the reply "waiting" is true. */
  lemma WaitingReplyTrueWhenReady(db: Db, user: Uuid, now: Time, entryId: Uuid, picked: seq<Uuid>, later: Time,
                                  gameId: Uuid)
    requires MatchInv(db) && OldestFirst(Queued(db, user, now, entryId).queue, 2, picked)
    requires StartChecks(db, user).Ok? && StartTx(db, user, now, entryId, picked, later, gameId).1 == Ok(None)
    ensures Waiting(StartTx(db, user, now, entryId, picked, later, gameId).0, user)
  {
    WaitingReplyIsTrueIff(db, user, now, entryId, picked, later, gameId);
    PickedIsQueue(db, user, now, entryId, picked);
    assert Ready(db, user);
    var mid := Queued(db, user, now, entryId);
    if |picked| == 2 && picked[0] != entryId {
      assert Ready(mid, user) && picked[1] == entryId;
      assert Ready(mid, mid.queue[picked[0]].user) <==> Ready(db, mid.queue[picked[0]].user);
    }
  }
}
