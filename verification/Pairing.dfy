/** What Start and Cancel of the matching leave behind, written out field by field (usecase/matching.go). */
module Pairing {
  import opened Common
  import opened Model
  import opened Duel
  import opened GameInvariant
  import opened Matchmaking
  import opened Reachable

  /** Free to be paired: no administrator, not deleted and in no game that is not finished. */
  ghost predicate Free(db: Db, user: Uuid) {
    && user in db.users && db.users[user].deletedAt.None? && db.users[user].role == RegularUser
    && forall gid | gid in db.games && (db.games[gid].player1 == user || db.games[gid].player2 == user) ::
         db.games[gid].status == Finished
  }

  lemma ReadyMeansFree(db: Db, user: Uuid)
    ensures Ready(db, user) <==> Free(db, user)
  {
    if Ready(db, user) {
      forall gid | gid in db.games && (db.games[gid].player1 == user || db.games[gid].player2 == user)
        ensures db.games[gid].status == Finished
      {
        assert !(db.games[gid].IsParticipant(user) && db.games[gid].IsActive());
      }
    }
  }

  /** A game as pairing opens it: created now, with nothing set and nothing played. */
  predicate NewlyPaired(g: Game, first: Uuid, second: Uuid, now: Time) {
    && g.status == WaitingSecret && g.player1 == first && g.player2 == second
    && g.secret1 == "" && g.secret2 == "" && g.turn == 1 && g.turnPlayer == None
    && g.winner == None && g.startedAt == None && g.finishedAt == None
    && g.createdAt == now
  }

  /** The transaction of Start on a queue in which at most one other entry waits. `picked` is the queue
      with the caller's entry, the older first. */
  ghost predicate StartLeaves(db: Db, db1: Db, r: Result<Option<Uuid>, Error>, user: Uuid, now: Time, entryId: Uuid,
                              picked: seq<Uuid>, later: Time, gameId: Uuid)
  {
    var queue := db.queue[entryId := Entry(user, now)];
    if db.queue == map[] then r == Ok(None) && db1 == db.(queue := queue)
    else
      && |picked| == 2 && queue.Keys == {picked[0], picked[1]} && picked[0] != picked[1]
      && queue[picked[0]].createdAt <= queue[picked[1]].createdAt
      && var first, second := queue[picked[0]].user, queue[picked[1]].user;
         if first == second then r == Err(BadRequest) && db1 == db
         else if !Free(db, first) then r == Ok(None) && db1 == db.(queue := map[picked[1] := queue[picked[1]]])
         else if !Free(db, second) then r == Ok(None) && db1 == db.(queue := map[picked[0] := queue[picked[0]]])
         else if gameId in db.games then r == Err(DbConflict) && db1 == db
         else
           && r == Ok(Some(gameId)) && gameId in db1.games
           && NewlyPaired(db1.games[gameId], first, second, later)
           && db1 == db.(games := db.games[gameId := db1.games[gameId]], queue := map[])
  }

  lemma StartOutcome(db: Db, user: Uuid, now: Time, entryId: Uuid, picked: seq<Uuid>, later: Time, gameId: Uuid)
    requires AtMostOneWaits(db.queue) && entryId !in db.queue
    requires OldestFirst(Queued(db, user, now, entryId).queue, 2, picked)
    ensures var (db1, r) := StartTx(db, user, now, entryId, picked, later, gameId);
            StartLeaves(db, db1, r, user, now, entryId, picked, later, gameId)
  {
    var mid := Queued(db, user, now, entryId);
    PickedIsQueue(db, user, now, entryId, picked);
    if |picked| == 2 {
      assert mid.queue.Keys == {picked[0], picked[1]};
      assert mid.queue - {picked[0]} == map[picked[1] := mid.queue[picked[1]]];
      assert mid.queue - {picked[1]} == map[picked[0] := mid.queue[picked[0]]];
      assert mid.queue - {picked[0], picked[1]} == map[];
      var first, second := mid.queue[picked[0]].user, mid.queue[picked[1]].user;
      ReadyMeansFree(mid, first);
      ReadyMeansFree(mid, second);
      assert forall u :: Free(mid, u) <==> Free(db, u);
    }
  }

  /** The errors of Start's checks, in order. */
  lemma StartReplies(db: Db, user: Uuid)
    ensures var r := StartChecks(db, user);
            if user !in db.users || db.users[user].deletedAt.Some? then r == Err(Unauthorized)
            else if db.users[user].role == Master then r == Err(Forbidden)
            else if !Free(db, user) then r == Err(UserInActiveGame)
            else if exists e :: e in db.queue && db.queue[e].user == user then r == Err(AlreadyInMatching)
            else r == Ok(())
  {
    ReadyMeansFree(db, user);
  }

  /** Leaving the queue takes the caller's entries and nobody else's. */
  lemma CancelLeaves(db: Db, user: Uuid)
    ensures forall e :: e in WithoutUser(db.queue, user) <==> e in db.queue && db.queue[e].user != user
    ensures forall e | e in WithoutUser(db.queue, user) :: WithoutUser(db.queue, user)[e] == db.queue[e]
  {
  }

  lemma PairedAt(cfg: Config, db: Db, user: Uuid, now: Time, entryId: NewUuid, picked: seq<Uuid>, later: Time,
                 gameId: NewUuid)
    requires GamesInv(cfg, db) && AtMostOneWaits(db.queue) && entryId !in db.queue
    requires OldestFirst(Queued(db, user, now, entryId).queue, 2, picked)
    requires StartTx(db, user, now, entryId, picked, later, gameId).1 == Ok(Some(gameId))
    ensures var db1 := StartTx(db, user, now, entryId, picked, later, gameId).0;
            GamesInv(cfg, db1) && gameId in db1.games && db1.games[gameId].createdAt == later
  {
    StartOutcome(db, user, now, entryId, picked, later, gameId);
    var s := StartMatching(user, now, entryId, picked, later, gameId);
    StepKeepsGames(cfg, db, s);
    assert Apply(cfg, db, s) == StartTx(db, user, now, entryId, picked, later, gameId).0;
  }

  lemma CreationStays(cfg: Config, db: Db, gid: Uuid, steps: seq<Step>)
    requires GamesInv(cfg, db) && gid in db.games
    ensures var after := Run(cfg, db, steps);
            GamesInv(cfg, after) && gid in after.games && after.games[gid].createdAt == db.games[gid].createdAt
  {
    RunPreserves(cfg, db, steps);
    RunKeepsGames(cfg, db, steps);
  }

  /** However the game goes on after it was paired at `later`, its setup time runs from then: it is
      cancelled exactly if it still waits and `later` plus the setup time has passed. */
  lemma SetupTimeRunsFromPairing(cfg: Config, db: Db, user: Uuid, now: Time, entryId: NewUuid, picked: seq<Uuid>,
                                 later: Time, gameId: NewUuid, steps: seq<Step>, t: Time)
    requires GamesInv(cfg, db) && AtMostOneWaits(db.queue) && entryId !in db.queue
    requires OldestFirst(Queued(db, user, now, entryId).queue, 2, picked)
    requires StartTx(db, user, now, entryId, picked, later, gameId).1 == Ok(Some(gameId))
    ensures var after := Run(cfg, StartTx(db, user, now, entryId, picked, later, gameId).0, steps);
            && gameId in after.games
            && (CancelTx(cfg, after, gameId, t).1 <==>
                  after.games[gameId].status == WaitingSecret && later + cfg.secretSetup < t)
  {
    var db1 := StartTx(db, user, now, entryId, picked, later, gameId).0;
    PairedAt(cfg, db, user, now, entryId, picked, later, gameId);
    CreationStays(cfg, db1, gameId, steps);
    CancelledWhen(cfg, Run(cfg, db1, steps), gameId, t);
  }

  lemma CancelledWhen(cfg: Config, db: Db, gid: Uuid, t: Time)
    requires GamesInv(cfg, db) && gid in db.games
    ensures CancelTx(cfg, db, gid, t).1
            <==> db.games[gid].status == WaitingSecret && db.games[gid].createdAt + cfg.secretSetup < t
  {
    assert GameOk(cfg, db.users.Keys, db.guesses, gid, db.games[gid]);
  }
}
