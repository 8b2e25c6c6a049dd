/** Deleted users: with each use case one atomic step they keep no token, no queue entry and no game,
    and with checks out of date exactly these commits give one back
    (usecase/admin.go, matching.go, auth_refresh.go, auth_login.go). */
module Accounts {
  import opened Common
  import opened Digits
  import opened Model
  import opened Duel
  import opened Effects
  import opened GameInvariant
  import opened Matchmaking
  import opened Reachable
  import Tokens

  /** Nothing of the running system is left to the user. */
  ghost predicate Gone(db: Db, user: Uuid) {
    && !Waiting(db, user)
    && !HasActiveGame(db.games, user)
    && (forall id | id in db.tokens && db.tokens[id].user == user :: db.tokens[id].IsRevoked())
  }

  predicate IsDeletedUser(users: map<Uuid, User>, user: Uuid) {
    user in users && users[user].IsDeleted()
  }

  ghost predicate DeletedAreGone(db: Db) {
    forall u | IsDeletedUser(db.users, u) :: Gone(db, u)
  }

  /** The checks a use case makes before its commit hold in the state the commit starts from, as
      they do when the whole use case is one step. */
  ghost predicate PreChecked(db: Db, s: Step) {
    match s
    case DeleteUser(admin, target, _) => DeleteChecks(db, admin, target).Ok?
    case SetSecret(user, _, _, _) => PlayerChecks(db, user).Ok?
    case SubmitGuess(user, _, _, _, _, _) => PlayerChecks(db, user).Ok?
    case StartMatching(user, _, _, _, _, _) => StartChecks(db, user).Ok?
    case _ => true
  }

  ghost predicate AllPreChecked(cfg: Config, db: Db, steps: seq<Step>)
    decreases |steps|
  {
    steps == [] || (PreChecked(db, steps[0]) && AllPreChecked(cfg, Apply(cfg, db, steps[0]), steps[1..]))
  }

  /** The transaction of a deletion takes the target's tokens and queue entries, but an active game
      only its checks can keep away: pairing may have opened one since. */
  lemma DeletionLeavesNothingIff(db: Db, admin: Uuid, target: Uuid, row: User, now: Time)
    ensures IsDeletedUser(DeleteTx(db, admin, target, row, now).users, target)
    ensures Gone(DeleteTx(db, admin, target, row, now), target) <==> !HasActiveGame(db.games, target)
  {
    var db1 := DeleteTx(db, admin, target, row, now);
    assert forall id | id in db1.tokens && db1.tokens[id].user == target :: db1.tokens[id].IsRevoked();
    assert !Waiting(db1, target);
  }

  lemma DeletionSparesOthers(db: Db, admin: Uuid, target: Uuid, row: User, now: Time, u: Uuid)
    requires u != target
    ensures Gone(db, u) ==> Gone(DeleteTx(db, admin, target, row, now), u)
    ensures IsDeletedUser(DeleteTx(db, admin, target, row, now).users, u) <==> IsDeletedUser(db.users, u)
  {
  }

  lemma DeleteKeepsGoneIff(db: Db, admin: Uuid, target: Uuid, row: User, now: Time)
    requires DeletedAreGone(db)
    ensures DeletedAreGone(DeleteTx(db, admin, target, row, now)) <==> !HasActiveGame(db.games, target)
  {
    var db1 := DeleteTx(db, admin, target, row, now);
    DeletionLeavesNothingIff(db, admin, target, row, now);
    if !HasActiveGame(db.games, target) {
      forall u | IsDeletedUser(db1.users, u) ensures Gone(db1, u) {
        if u != target {
          DeletionSparesOthers(db, admin, target, row, now, u);
        }
      }
    }
  }

  /** Commits that open nothing and leave tokens and accounts alone give nothing back. */
  lemma QuietKeepsGone(db: Db, db1: Db)
    requires DeletedAreGone(db) && OpensNothing(db, db1) && db1.tokens == db.tokens
    requires forall u | IsDeletedUser(db1.users, u) :: IsDeletedUser(db.users, u)
    ensures DeletedAreGone(db1)
  {
    forall u | IsDeletedUser(db1.users, u) ensures Gone(db1, u) {
      assert Gone(db, u);
      forall gid | gid in db1.games ensures !(db1.games[gid].IsParticipant(u) && db1.games[gid].IsActive()) {
        assert !(db.games[gid].IsParticipant(u) && db.games[gid].IsActive());
      }
    }
  }

  lemma StartKeepsGone(db: Db, user: Uuid, now: Time, entryId: Uuid, picked: seq<Uuid>, later: Time, gameId: Uuid)
    requires DeletedAreGone(db) && !IsDeletedUser(db.users, user)
    requires OldestFirst(Queued(db, user, now, entryId).queue, 2, picked)
    ensures DeletedAreGone(StartTx(db, user, now, entryId, picked, later, gameId).0)
  {
    if entryId !in db.queue {
      var mid := Queued(db, user, now, entryId);
      MatchEffect(db, mid, picked, later, gameId);
      var db1 := MatchTx(db, mid, picked, later, gameId).0;
      forall u | IsDeletedUser(db1.users, u) ensures Gone(db1, u) {
        assert Gone(db, u) && u != user;
        QueueSubset(db, db1, mid, u, entryId);
        assert forall gid | gid in db1.games && gid !in db.games :: !db1.games[gid].IsParticipant(u);
      }
    }
  }

  lemma QueueSubset(db: Db, db1: Db, mid: Db, u: Uuid, entryId: Uuid)
    requires !Waiting(db, u) && mid.queue.Keys == db.queue.Keys + {entryId}
    requires entryId in mid.queue && mid.queue[entryId].user != u
    requires forall e | e in db.queue && e != entryId :: mid.queue[e] == db.queue[e]
    requires || db1.queue == db.queue
             || (db1.queue.Keys <= mid.queue.Keys && forall e | e in db1.queue :: db1.queue[e] == mid.queue[e])
    ensures !Waiting(db1, u)
  {
  }

  /** The transaction of Start with a deleted caller: either nothing changes or the caller is queued. */
  lemma DeletedCaller(db: Db, user: Uuid, now: Time, entryId: Uuid, picked: seq<Uuid>, later: Time, gameId: Uuid)
    requires AtMostOneWaits(db.queue) && OldestFirst(Queued(db, user, now, entryId).queue, 2, picked)
    requires IsDeletedUser(db.users, user) && !Waiting(db, user) && entryId !in db.queue
    ensures |picked| > 0
    ensures var db1 := StartTx(db, user, now, entryId, picked, later, gameId).0;
            if db.queue == map[] || (picked[0] != entryId && !Ready(db, db.queue[picked[0]].user))
            then Waiting(db1, user) else db1 == db
  {
    var mid := Queued(db, user, now, entryId);
    var db1 := StartTx(db, user, now, entryId, picked, later, gameId).0;
    PickedIsQueue(db, user, now, entryId, picked);
    assert mid.queue[entryId].user == user && !Ready(mid, user);
    assert forall u :: Ready(mid, u) <==> Ready(db, u);
    if |picked| == 1 || (picked[0] != entryId && !Ready(db, db.queue[picked[0]].user)) {
      assert entryId in db1.queue && db1.queue[entryId].user == user;
    } else {
      assert entryId == picked[0] || entryId == picked[1];
      assert mid.queue - {entryId} == db.queue;
    }
  }

  /** Atomicity is needed: a deletion may slip in between Start's checks and its transaction. The
      transaction keeps deleted users out exactly when its caller is not deleted, or its entry is
      dropped again because it is the older of two or the other user is ready. */
  lemma StaleStartKeepsGoneIff(db: Db, user: Uuid, now: Time, entryId: Uuid, picked: seq<Uuid>, later: Time,
                               gameId: Uuid)
    requires DeletedAreGone(db) && AtMostOneWaits(db.queue) && entryId !in db.queue
    requires OldestFirst(Queued(db, user, now, entryId).queue, 2, picked)
    ensures DeletedAreGone(StartTx(db, user, now, entryId, picked, later, gameId).0)
            <==> !IsDeletedUser(db.users, user)
                 || (db.queue != map[] && (picked[0] == entryId || Ready(db, db.queue[picked[0]].user)))
  {
    PickedIsQueue(db, user, now, entryId, picked);
    if IsDeletedUser(db.users, user) {
      assert Gone(db, user);
      DeletedCaller(db, user, now, entryId, picked, later, gameId);
      MatchEffect(db, Queued(db, user, now, entryId), picked, later, gameId);
      assert IsDeletedUser(StartTx(db, user, now, entryId, picked, later, gameId).0.users, user);
    } else {
      StartKeepsGone(db, user, now, entryId, picked, later, gameId);
    }
  }

  /** A commit on tokens never gives a deleted user a usable one. */
  lemma TokensStayRevoked(db: Db, t: Tokens.Step, u: Uuid)
    requires u !in LiveUsers(db.users)
    requires forall id | id in db.tokens && db.tokens[id].user == u :: db.tokens[id].IsRevoked()
    ensures var tokens := TokenTx(db, t).tokens;
            forall id | id in tokens && tokens[id].user == u :: tokens[id].IsRevoked()
  {
  }

  lemma TokenKeepsGone(db: Db, t: Tokens.Step)
    requires DeletedAreGone(db)
    ensures DeletedAreGone(TokenTx(db, t))
  {
    forall u | IsDeletedUser(db.users, u) ensures Gone(TokenTx(db, t), u) {
      assert Gone(db, u);
      TokensStayRevoked(db, t, u);
    }
  }

  /** What it takes for a commit to keep deleted users out of the running system, whatever has
      happened since the checks of its use case. */
  ghost predicate KeepsGone(db: Db, s: Step) {
    match s
    case DeleteUser(_, target, _) => target in db.users ==> !HasActiveGame(db.games, target)
    case StartMatching(user, now, entryId, picked, _, _) =>
      || !IsDeletedUser(db.users, user) || entryId in db.queue
      || !OldestFirst(Queued(db, user, now, entryId).queue, 2, picked)
      || (|picked| == 2 && (picked[0] == entryId || (picked[0] in db.queue && Ready(db, db.queue[picked[0]].user))))
    case _ => true
  }

  /** Exactly when a commit keeps deleted users without token, queue entry and active game. With
      stale checks two kinds can fail: a deletion and a start of matching. */
  lemma StepKeepsGoneIff(cfg: Config, db: Db, s: Step)
    requires GamesInv(cfg, db) && AtMostOneWaits(db.queue) && DeletedAreGone(db)
    ensures DeletedAreGone(Apply(cfg, db, s)) <==> KeepsGone(db, s)
  {
    match s
    case DeleteUser(admin, target, now) =>
      if target in db.users {
        DeleteKeepsGoneIff(db, admin, target, db.users[target], now);
      }
    case StartMatching(user, now, entryId, picked, later, gameId) =>
      if entryId !in db.queue && OldestFirst(Queued(db, user, now, entryId).queue, 2, picked) {
        PickedIsQueue(db, user, now, entryId, picked);
        StaleStartKeepsGoneIff(db, user, now, entryId, picked, later, gameId);
      }
    case TokenStep(t) => TokenKeepsGone(db, t);
    case _ => QuietStepKeepsGone(cfg, db, s);
  }

  lemma CheckedStepKeepsGone(db: Db, s: Step)
    requires PreChecked(db, s)
    ensures KeepsGone(db, s)
  {
  }

  lemma QuietStepKeepsGone(cfg: Config, db: Db, s: Step)
    requires GamesInv(cfg, db) && DeletedAreGone(db)
    requires !s.DeleteUser? && !s.StartMatching? && !s.TokenStep?
    ensures DeletedAreGone(Apply(cfg, db, s))
  {
    OtherStepOpensNothing(cfg, db, s);
    if s.Register? {
      NewcomersAreNotDeleted(db, s.id, s.username, s.role);
    } else {
      StepKeepsAccounts(cfg, db, s);
      PlayKeepsTokens(cfg, db, s);
    }
    QuietKeepsGone(db, Apply(cfg, db, s));
  }

  lemma NewcomersAreNotDeleted(db: Db, id: NewUuid, username: string, role: Role)
    ensures RegisterTx(db, id, username, role).0.tokens == db.tokens
    ensures forall u | IsDeletedUser(RegisterTx(db, id, username, role).0.users, u) :: IsDeletedUser(db.users, u)
  {
  }

  lemma PlayKeepsTokens(cfg: Config, db: Db, s: Step)
    requires GamesInv(cfg, db) && !s.DeleteUser? && !s.StartMatching? && !s.TokenStep? && !s.Register?
    ensures Apply(cfg, db, s).tokens == db.tokens
  {
    match s
    case SetSecret(user, gid, digits, now) => SecretKeepsAccounts(cfg, db, user, gid, digits, now);
    case SubmitGuess(user, gid, digits, isAuto, now, ids) =>
      GuessKeepsTokens(cfg, db, user, gid, digits, isAuto, now, ids);
    case CancelGame(gid, now) => CancelEffect(cfg, db, gid, now);
    case LeaveQueue(_) =>
  }

  lemma GuessKeepsTokens(cfg: Config, db: Db, user: Uuid, gid: Uuid, digits: Number, isAuto: bool, now: Time,
                         ids: Ids)
    requires GamesInv(cfg, db)
    ensures GuessTx(cfg, db, user, gid, digits, isAuto, now, ids).0.tokens == db.tokens
  {
    if GuessTx(cfg, db, user, gid, digits, isAuto, now, ids).1.Ok? {
      AcceptedGuess(cfg, db, user, gid, digits, isAuto, now, ids);
    } else {
      GuessFails(cfg, db, user, gid, digits, isAuto, now, ids);
    }
  }

  /** With each use case one atomic step, at deletion and in every later state a deleted user has
      no usable refresh token, no queue entry and no active game. */
  lemma {:induction false} DeletedStayGone(cfg: Config, db: Db, steps: seq<Step>)
    requires Inv(cfg, db) && DeletedAreGone(db) && AllPreChecked(cfg, db, steps)
    ensures DeletedAreGone(Run(cfg, db, steps))
    decreases |steps|
  {
    if steps != [] {
      CheckedStepKeepsGone(db, steps[0]);
      StepKeepsGoneIff(cfg, db, steps[0]);
      StepKeepsInv(cfg, db, steps[0]);
      DeletedStayGone(cfg, Apply(cfg, db, steps[0]), steps[1..]);
    }
  }

  /** No run undoes a deletion as long as every commit saves the account row as it is. Module StaleRows
      says what a row that was read earlier undoes. */
  lemma {:induction false} DeletionIsForever(cfg: Config, db: Db, steps: seq<Step>, user: Uuid)
    requires GamesInv(cfg, db) && IsDeletedUser(db.users, user)
    ensures IsDeletedUser(Run(cfg, db, steps).users, user)
    decreases |steps|
  {
    if steps != [] {
      DeletionKept(cfg, db, steps[0], user);
      StepKeepsGames(cfg, db, steps[0]);
      DeletionIsForever(cfg, Apply(cfg, db, steps[0]), steps[1..], user);
    }
  }

  lemma DeletionKept(cfg: Config, db: Db, s: Step, user: Uuid)
    requires GamesInv(cfg, db) && IsDeletedUser(db.users, user)
    ensures IsDeletedUser(Apply(cfg, db, s).users, user)
  {
    match s
    case Register(_, _, _) =>
    case DeleteUser(admin, target, now) => DeleteUserEffect(db, admin, target, now);
    case _ => StepKeepsAccounts(cfg, db, s);
  }
}
