/** What the use cases on refresh tokens and accounts leave behind, written out field by field
    (usecase/auth_refresh.go, auth_login.go, auth_logout.go, admin.go; repository/refresh_token.go), and
    the step of module Tokens that each outcome of Refresh is. */
module Sessions {
  import opened Common
  import opened Model
  import Duel
  import StaleRows
  import Tokens

  // ---------- Refresh ----------

  /** Usable apart from its expiry: not revoked in either of the two columns. */
  predicate Unspent(t: Token) {
    t.status == Active && t.revokedAt == None
  }

  function Spent(t: Token, now: Time): Token {
    t.(status := TokenStatus.Revoked, revokedAt := Some(now))
  }

  /** Every token of the family that was not revoked is now; nothing else changed. */
  ghost predicate FamilyRevoked(rows: Tokens.Rows, rows1: Tokens.Rows, family: Uuid, now: Time) {
    && rows1.Keys == rows.Keys
    && forall k | k in rows ::
         rows1[k] == if rows[k].family == family && Unspent(rows[k]) then Spent(rows[k], now) else rows[k]
  }

  /** What Refresh replies and leaves for the hash of the presented token. */
  ghost predicate RefreshLeaves(rows: Tokens.Rows, rows1: Tokens.Rows, r: Result<(), Error>, hash: string,
                                users: map<Uuid, User>, now: Time, newId: Uuid, newHash: string, expiresAt: Time)
  {
    && ((forall k | k in rows :: rows[k].hash != hash) ==> r == Err(Unauthorized) && rows1 == rows)
    && forall id | id in rows && rows[id].hash == hash ::
         var t := rows[id];
         if t.status == TokenStatus.Revoked then r == Err(Unauthorized) && FamilyRevoked(rows, rows1, t.family, now)
         else if t.revokedAt.Some? then r == Err(NotFound) && rows1 == rows
         else if t.expiresAt <= now then r == Err(Unauthorized) && rows1 == rows[id := Spent(t, now)]
         else if t.user !in users || users[t.user].deletedAt.Some? then r == Err(Unauthorized) && rows1 == rows
         else if newId in rows || exists k :: k in rows && rows[k].hash == newHash then
           r == Err(DbConflict) && rows1 == rows
         else
           && r == Ok(())
           && rows1 == rows[newId := Token(t.user, newHash, t.family, Active, expiresAt, None, None)]
                           [id := Spent(t, now).(replacedBy := Some(newId))]
  }

  /** What Refresh promises of a table in which hashes are unique. */
  ghost predicate RefreshPromise(rows: Tokens.Rows, rows1: Tokens.Rows, r: Result<(), Error>, hash: string,
                                 users: map<Uuid, User>, now: Time, newId: Uuid, newHash: string, expiresAt: Time)
  {
    Tokens.UniqueHashes(rows) ==> RefreshLeaves(rows, rows1, r, hash, users, now, newId, newHash, expiresAt)
  }

  lemma RefreshKeepsPromise(rows: Tokens.Rows, hash: string, users: map<Uuid, User>, now: Time, newId: Uuid,
                            newHash: string, expiresAt: Time)
    ensures var (rows1, r) := Tokens.Refreshed(rows, hash, Duel.LiveUsers(users), now, newId, newHash, expiresAt);
            RefreshPromise(rows, rows1, r, hash, users, now, newId, newHash, expiresAt)
  {
    if Tokens.UniqueHashes(rows) {
      RefreshOutcome(rows, hash, users, now, newId, newHash, expiresAt);
    }
  }

  lemma RefreshOutcome(rows: Tokens.Rows, hash: string, users: map<Uuid, User>, now: Time, newId: Uuid, newHash: string,
                       expiresAt: Time)
    requires Tokens.UniqueHashes(rows)
    ensures var (rows1, r) := Tokens.Refreshed(rows, hash, Duel.LiveUsers(users), now, newId, newHash, expiresAt);
            RefreshLeaves(rows, rows1, r, hash, users, now, newId, newHash, expiresAt)
  {
  }

  /** Each outcome of Refresh is a step of module Tokens on the presented token, so what holds of token
      runs holds of runs of Refresh. */
  lemma RefreshIsStep(rows: Tokens.Rows, id: Uuid, users: map<Uuid, User>, now: Time, newId: Uuid, newHash: string,
                      expiresAt: Time)
    requires Tokens.UniqueHashes(rows) && id in rows
    ensures var live := Duel.LiveUsers(users);
            var rows1 := Tokens.Refreshed(rows, rows[id].hash, live, now, newId, newHash, expiresAt).0;
            rows1 == Tokens.RowsAfter(rows,
                       if rows[id].status == TokenStatus.Revoked then Tokens.Reuse(rows[id].family, now)
                       else if rows[id].revokedAt.Some? || rows[id].expiresAt <= now then Tokens.Expire(id, now)
                       else Tokens.Rotate(id, live, now, newId, newHash, expiresAt))
  {
  }

  /** Presenting a used token to Refresh leaves its family unusable for good. */
  lemma RefreshWithUsedTokenKillsFamily(w: Tokens.World, id: Uuid, users: map<Uuid, User>, now: Time, newId: Uuid,
                                        newHash: string, expiresAt: Time, afterwards: seq<Tokens.Step>)
    requires Tokens.Linear(w) && id in w.rows && w.rows[id].status == TokenStatus.Revoked
    requires var live := Duel.LiveUsers(users);
             var after := Tokens.Refreshed(w.rows, w.rows[id].hash, live, now, newId, newHash, expiresAt);
             Tokens.AllFresh(Tokens.World(after.0, w.families), afterwards)
    ensures var live := Duel.LiveUsers(users);
            var after := Tokens.Refreshed(w.rows, w.rows[id].hash, live, now, newId, newHash, expiresAt);
            && after.1 == Err(Unauthorized)
            && Tokens.Dead(Tokens.Run(Tokens.World(after.0, w.families), afterwards).rows, w.rows[id].family)
  {
    RefreshOutcome(w.rows, w.rows[id].hash, users, now, newId, newHash, expiresAt);
    RefreshIsStep(w.rows, id, users, now, newId, newHash, expiresAt);
    Tokens.ReuseKillsFamily(w, [], now, afterwards, id);
  }

  /** A token can be exchanged once: after a refresh that went through, presenting it again is refused and
      revokes the whole family, the token just issued included. */
  lemma SecondRefreshRevokes(rows: Tokens.Rows, id: Uuid, users: map<Uuid, User>, now: Time, newId: Uuid,
                             newHash: string, expiresAt: Time, users2: map<Uuid, User>, now2: Time, newId2: Uuid,
                             newHash2: string, expiresAt2: Time)
    requires Tokens.UniqueHashes(rows) && id in rows
    requires Tokens.Refreshed(rows, rows[id].hash, Duel.LiveUsers(users), now, newId, newHash, expiresAt).1 == Ok(())
    ensures var rows1 := Tokens.Refreshed(rows, rows[id].hash, Duel.LiveUsers(users), now, newId, newHash, expiresAt).0;
            && Tokens.UniqueHashes(rows1)
            && var (rows2, r2) := Tokens.Refreshed(rows1, rows[id].hash, Duel.LiveUsers(users2), now2, newId2, newHash2,
                                                   expiresAt2);
               r2 == Err(Unauthorized) && FamilyRevoked(rows1, rows2, rows[id].family, now2)
               && newId in rows2 && rows2[newId].status == TokenStatus.Revoked
  {
    RefreshOutcome(rows, rows[id].hash, users, now, newId, newHash, expiresAt);
    var rows1 := Tokens.Refreshed(rows, rows[id].hash, Duel.LiveUsers(users), now, newId, newHash, expiresAt).0;
    assert rows1[id].hash == rows[id].hash && rows1[id].status == TokenStatus.Revoked;
    RefreshOutcome(rows1, rows[id].hash, users2, now2, newId2, newHash2, expiresAt2);
  }

  // ---------- Single updates ----------

  /** The guarded updates of one row: they touch an unspent row, or fail and change nothing. */
  lemma GuardedUpdates(rows: Tokens.Rows, id: Uuid, now: Time, next: Uuid)
    ensures if id in rows && Unspent(rows[id]) then
              && Tokens.RevokedOne(rows, id, now) == Ok(rows[id := Spent(rows[id], now)])
              && Tokens.MarkedUsed(rows, id, now, next)
                 == Ok(rows[id := Spent(rows[id], now).(replacedBy := Some(next))])
            else
              && Tokens.RevokedOne(rows, id, now) == Err(NotFound)
              && Tokens.MarkedUsed(rows, id, now, next) == Err(NotFound)
  {
  }

  /** Logging out, or deleting the user, revokes the user's unspent tokens and no other. */
  ghost predicate UserRevoked(rows: Tokens.Rows, rows1: Tokens.Rows, user: Uuid, now: Time) {
    && rows1.Keys == rows.Keys
    && forall k | k in rows ::
         rows1[k] == if rows[k].user == user && Unspent(rows[k]) then Spent(rows[k], now) else rows[k]
  }

  lemma UserSweep(rows: Tokens.Rows, user: Uuid, now: Time)
    ensures UserRevoked(rows, Tokens.Swept(rows, Tokens.OfUser(rows, user), now), user, now)
  {
  }

  lemma FamilySweep(rows: Tokens.Rows, family: Uuid, now: Time)
    ensures FamilyRevoked(rows, Tokens.Swept(rows, Tokens.OfFamily(rows, family), now), family, now)
  {
  }

  /** Cleanup deletes the tokens that expired, or were revoked, before the cutoff, and keeps the others as
      they are. */
  ghost predicate CleanupLeaves(rows: Tokens.Rows, rows1: Tokens.Rows, before: Time) {
    && (forall k :: k in rows1 <==>
          && k in rows
          && !(rows[k].status == Active && rows[k].expiresAt < before)
          && !(rows[k].status == TokenStatus.Revoked && rows[k].revokedAt.Some? && rows[k].revokedAt.value < before))
    && forall k | k in rows1 :: rows1[k] == rows[k]
  }

  lemma CleanupOutcome(rows: Tokens.Rows, before: Time)
    ensures CleanupLeaves(rows, Tokens.Purged(rows, before), before)
  {
  }

  // ---------- Accounts ----------

  /** What a login leaves: the account row it checked is saved and a token opens a new family, or neither. */
  ghost predicate LoginLeaves(db: Db, db1: Db, r: Result<(), Error>, user: Uuid, row: User, id: Uuid, hash: string,
                              family: Uuid, expiresAt: Time)
  {
    if id in db.tokens || exists k :: k in db.tokens && db.tokens[k].hash == hash then r == Err(DbConflict) && db1 == db
    else
      && r == Ok(())
      && db1 == db.(users := db.users[user := row],
                    tokens := db.tokens[id := Token(user, hash, family, Active, expiresAt, None, None)])
  }

  lemma LoginOutcome(db: Db, user: Uuid, row: User, id: Uuid, hash: string, family: Uuid, expiresAt: Time)
    ensures var (db1, r) := StaleRows.LoginTx(db, user, row, id, hash, family, expiresAt);
            LoginLeaves(db, db1, r, user, row, id, hash, family, expiresAt)
  {
  }

  /** An administrator deletes another user who is no administrator, not deleted and in no game that is
      not finished; otherwise the first obstacle is the reply. */
  ghost predicate DeletionReplies(db: Db, admin: Uuid, target: Uuid, r: Result<(), Error>) {
    if admin == target then r == Err(CannotDeleteSelf)
    else if target !in db.users then r == Err(NotFound)
    else if db.users[target].deletedAt.Some? then r == Err(UserAlreadyDeleted)
    else if db.users[target].role == Master then r == Err(CannotDeleteMaster)
    else if exists gid :: gid in db.games && db.games[gid].status != Finished
                          && (db.games[gid].player1 == target || db.games[gid].player2 == target)
      then r == Err(UserInActiveGame)
    else r == Ok(())
  }

  lemma DeletionChecked(db: Db, admin: Uuid, target: Uuid)
    ensures DeletionReplies(db, admin, target, Duel.DeleteChecks(db, admin, target))
  {
    if gid: Uuid :| gid in db.games && db.games[gid].status != Finished
                    && (db.games[gid].player1 == target || db.games[gid].player2 == target)
    {
      assert db.games[gid].IsParticipant(target) && db.games[gid].IsActive();
    }
  }

  /** The transaction of a deletion revokes the target's tokens, takes the target's queue entries, and
      saves the row it was given as deleted now by that administrator. */
  ghost predicate DeletionLeaves(db: Db, db1: Db, admin: Uuid, target: Uuid, row: User, now: Time) {
    && db1 == db.(users := db1.users, tokens := db1.tokens, queue := db1.queue)
    && db1.users == db.users[target := row.(deletedAt := Some(now), deletedBy := Some(admin))]
    && UserRevoked(db.tokens, db1.tokens, target, now)
    && (forall e :: e in db1.queue <==> e in db.queue && db.queue[e].user != target)
    && forall e | e in db1.queue :: db1.queue[e] == db.queue[e]
  }

  lemma DeletionOutcome(db: Db, admin: Uuid, target: Uuid, row: User, now: Time)
    ensures DeletionLeaves(db, Duel.DeleteTx(db, admin, target, row, now), admin, target, row, now)
  {
    UserSweep(db.tokens, target, now);
  }

  /** Registration stores a user with no win who is not deleted, unless the id or the name is taken. */
  lemma RegisterOutcome(db: Db, id: NewUuid, username: string, role: Role)
    ensures var (db1, r) := Duel.RegisterTx(db, id, username, role);
            if id in db.users || exists u :: u in db.users && db.users[u].username == username then
              r == Err(DbConflict) && db1 == db
            else r == Ok(()) && db1 == db.(users := db.users[id := User(username, role, 0, None, None)])
  {
  }
}
