/** Refresh tokens: guarded updates, rotation with reuse detection, and what a token family looks
    like after any run (usecase/auth_refresh.go, repository/refresh_token.go, model/tokens.go). */
module Tokens {
  import opened Common
  import opened Model

  type Rows = map<Uuid, Token>

  // ---------- The guarded updates ----------

  /** The guard of every revoking update: status active and no revocation time. */
  predicate Revocable(t: Token) {
    t.status == Active && t.revokedAt.None?
  }

  function AsRevoked(t: Token, now: Time): Token {
    t.(status := TokenStatus.Revoked, revokedAt := Some(now))
  }

  /** One UPDATE revoking every revocable row among `ids`. */
  function Swept(rows: Rows, ids: set<Uuid>, now: Time): Rows {
    map id | id in rows :: if id in ids && Revocable(rows[id]) then AsRevoked(rows[id], now) else rows[id]
  }

  function OfFamily(rows: Rows, family: Uuid): set<Uuid> {
    set id | id in rows && rows[id].family == family
  }

  function OfUser(rows: Rows, user: Uuid): set<Uuid> {
    set id | id in rows && rows[id].user == user
  }

  predicate HashTaken(rows: Rows, hash: string) {
    exists id :: id in rows && rows[id].hash == hash
  }

  function Inserted(rows: Rows, id: Uuid, t: Token): Result<Rows, Error> {
    if id in rows || HashTaken(rows, t.hash) then Err(DbConflict) else Ok(rows[id := t])
  }

  function RevokedOne(rows: Rows, id: Uuid, now: Time): Result<Rows, Error> {
    if id in rows && Revocable(rows[id]) then Ok(rows[id := AsRevoked(rows[id], now)]) else Err(NotFound)
  }

  function MarkedUsed(rows: Rows, id: Uuid, now: Time, next: Uuid): Result<Rows, Error> {
    if id in rows && Revocable(rows[id])
    then Ok(rows[id := AsRevoked(rows[id], now).(replacedBy := Some(next))])
    else Err(NotFound)
  }

  predicate IsPurged(t: Token, before: Time) {
    || (t.status == Active && t.expiresAt < before)
    || (t.status == TokenStatus.Revoked && t.revokedAt.Some? && t.revokedAt.value < before)
  }

  function Purged(rows: Rows, before: Time): Rows {
    map id | id in rows && !IsPurged(rows[id], before) :: rows[id]
  }

  function NewToken(user: Uuid, hash: string, family: Uuid, expiresAt: Time): Token {
    Token(user, hash, family, Active, expiresAt, None, None)
  }

  // ---------- The use cases ----------

  /** The transaction of rotateRefreshToken on the row found under the lock. A failure undoes
      all of it, also the revocation it makes when the user is gone. */
  function Rotated(rows: Rows, id: Uuid, live: set<Uuid>, now: Time, newId: Uuid, newHash: string, expiresAt: Time)
    : (Rows, Result<(), Error>)
  {
    if id !in rows || !rows[id].IsActive(now) || rows[id].user !in live then (rows, Err(Unauthorized))
    else
      var t := NewToken(rows[id].user, newHash, rows[id].family, expiresAt);
      match Inserted(rows, newId, t)
      case Err(e) => (rows, Err(e))
      case Ok(rows1) =>
        match MarkedUsed(rows1, id, now, newId)
        case Err(e) => (rows, Err(e))
        case Ok(rows2) => (rows2, Ok(()))
  }

  ghost predicate UniqueHashes(rows: Rows) {
    forall id, other | id in rows && other in rows && rows[id].hash == rows[other].hash :: id == other
  }

  /** The whole of Refresh when nothing else runs in between. */
  ghost function Refreshed(rows: Rows, hash: string, live: set<Uuid>, now: Time, newId: Uuid, newHash: string,
                           expiresAt: Time): (Rows, Result<(), Error>)
  {
    if !HashTaken(rows, hash) then (rows, Err(Unauthorized))
    else
      var id :| id in rows && rows[id].hash == hash;
      if rows[id].status == TokenStatus.Revoked then
        (Swept(rows, OfFamily(rows, rows[id].family), now), Err(Unauthorized))
      else if !rows[id].IsActive(now) then
        match RevokedOne(rows, id, now)
        case Ok(rows1) => (rows1, Err(Unauthorized))
        case Err(e) => (rows, Err(e))
      else Rotated(rows, id, live, now, newId, newHash, expiresAt)
  }

  // ---------- Runs ----------

  /** What one commit does to the table. Refresh is three different commits, because the row it
      read first may be out of date by then: any of them may come at any time. `live` are the
      users that exist and are not deleted when the commit runs. */
  datatype Step =
    | Login(user: Uuid, id: Uuid, hash: string, family: Uuid, expiresAt: Time)
    | Rotate(oldId: Uuid, live: set<Uuid>, now: Time, newId: Uuid, newHash: string, newExpiry: Time)
    | Reuse(reused: Uuid, now: Time)
    | Expire(expired: Uuid, now: Time)
    | RevokeUser(user: Uuid, now: Time)
    | Cleanup(before: Time)

  function RowsAfter(rows: Rows, s: Step): Rows {
    match s
    case Login(user, id, hash, family, expiresAt) =>
      var r := Inserted(rows, id, NewToken(user, hash, family, expiresAt));
      if r.Ok? then r.value else rows
    case Rotate(id, live, now, newId, newHash, expiresAt) => Rotated(rows, id, live, now, newId, newHash, expiresAt).0
    case Reuse(family, now) => Swept(rows, OfFamily(rows, family), now)
    case Expire(id, now) =>
      var r := RevokedOne(rows, id, now);
      if r.Ok? then r.value else rows
    case RevokeUser(user, now) => Swept(rows, OfUser(rows, user), now)
    case Cleanup(before) => Purged(rows, before)
  }

  /** The tokens ever issued in a family, oldest first. The server does not keep this list. */
  datatype Family = Family(user: Uuid, chain: seq<Uuid>)

  datatype World = World(rows: Rows, families: map<Uuid, Family>)

  const EMPTY_WORLD := World(map[], map[])

  function After(w: World, s: Step): World {
    var rows := RowsAfter(w.rows, s);
    match s
    case Login(user, id, hash, family, expiresAt) =>
      if Inserted(w.rows, id, NewToken(user, hash, family, expiresAt)).Err? then w
      else World(rows, w.families[family := Family(user, [id])])
    case Rotate(id, live, now, newId, newHash, expiresAt) =>
      if Rotated(w.rows, id, live, now, newId, newHash, expiresAt).1.Err? || w.rows[id].family !in w.families then
        World(rows, w.families)
      else
        var f := w.rows[id].family;
        World(rows, w.families[f := Family(w.families[f].user, w.families[f].chain + [newId])])
    case _ => World(rows, w.families)
  }

  ghost predicate Issued(w: World, id: Uuid) {
    exists f :: f in w.families && id in w.families[f].chain
  }

  /** Identifiers come from uuid.New: none was ever used before. */
  ghost predicate Fresh(w: World, s: Step) {
    match s
    case Login(_, id, _, family, _) => family !in w.families && !Issued(w, id)
    case Rotate(_, _, _, newId, _, _) => !Issued(w, newId)
    case _ => true
  }

  ghost predicate AllFresh(w: World, steps: seq<Step>)
    decreases |steps|
  {
    steps == [] || (Fresh(w, steps[0]) && AllFresh(After(w, steps[0]), steps[1..]))
  }

  function Run(w: World, steps: seq<Step>): World
    decreases |steps|
  {
    if steps == [] then w else Run(After(w, steps[0]), steps[1..])
  }

  // ---------- The shape of a family ----------

  /** A stored token at place i of its family's list: all but the newest are revoked and point to
      the next one; the newest points nowhere. */
  predicate RowAt(t: Token, f: Uuid, family: Family, i: nat)
    requires i < |family.chain|
  {
    && t.family == f
    && t.user == family.user
    && (t.status == TokenStatus.Revoked <==> t.revokedAt.Some?)
    && (i + 1 < |family.chain| ==> t.status == TokenStatus.Revoked && t.replacedBy == Some(family.chain[i + 1]))
    && (i + 1 == |family.chain| ==> t.replacedBy == None)
  }

  ghost predicate ChainOk(rows: Rows, f: Uuid, family: Family) {
    && (forall i, j | 0 <= i < j < |family.chain| :: family.chain[i] != family.chain[j])
    && (forall i | 0 <= i < |family.chain| && family.chain[i] in rows :: RowAt(rows[family.chain[i]], f, family, i))
  }

  /** No identifier was issued in two families. */
  ghost predicate Disjoint(families: map<Uuid, Family>) {
    forall f, g, id | f in families && g in families && id in families[f].chain && id in families[g].chain :: f == g
  }

  ghost predicate Placed(rows: Rows, families: map<Uuid, Family>) {
    forall id | id in rows :: rows[id].family in families && id in families[rows[id].family].chain
  }

  ghost predicate Linear(w: World) {
    && UniqueHashes(w.rows)
    && Placed(w.rows, w.families)
    && (forall f | f in w.families :: ChainOk(w.rows, f, w.families[f]))
    && Disjoint(w.families)
  }

  /** Where a stored token stands. */
  lemma PlaceOf(w: World, id: Uuid) returns (f: Uuid, i: nat)
    requires Linear(w) && id in w.rows
    ensures f == w.rows[id].family && f in w.families && i < |w.families[f].chain| && w.families[f].chain[i] == id
    ensures RowAt(w.rows[id], f, w.families[f], i)
  {
    f := w.rows[id].family;
    i :| 0 <= i < |w.families[f].chain| && w.families[f].chain[i] == id;
    assert ChainOk(w.rows, f, w.families[f]);
  }

  /** An update that keeps a row's identity and may only revoke it. */
  predicate OnlyRevokes(t: Token, u: Token) {
    && (u.user, u.hash, u.family, u.expiresAt, u.replacedBy) == (t.user, t.hash, t.family, t.expiresAt, t.replacedBy)
    && (u == t || (u.status == TokenStatus.Revoked && u.revokedAt.Some?))
  }

  lemma RevokingKeepsLinear(w: World, rows: Rows)
    requires Linear(w) && rows.Keys <= w.rows.Keys
    requires forall id | id in rows :: OnlyRevokes(w.rows[id], rows[id])
    ensures Linear(World(rows, w.families))
  {
    forall f | f in w.families ensures ChainOk(rows, f, w.families[f]) {
      assert ChainOk(w.rows, f, w.families[f]);
    }
  }

  lemma LoginKeepsChain(w: World, s: Step, f: Uuid)
    requires Linear(w) && s.Login? && Fresh(w, s) && f in w.families
    ensures ChainOk(After(w, s).rows, f, w.families[f])
  {
    assert ChainOk(w.rows, f, w.families[f]);
    assert s.id !in w.families[f].chain by { assert !Issued(w, s.id); }
  }

  lemma LoginKeepsPlaces(w: World, s: Step)
    requires Linear(w) && s.Login? && Fresh(w, s)
    ensures UniqueHashes(After(w, s).rows) && Placed(After(w, s).rows, After(w, s).families)
    ensures Disjoint(After(w, s).families)
  {
    assert forall f | f in w.families :: s.id !in w.families[f].chain;
  }

  lemma LoginKeepsLinear(w: World, s: Step)
    requires Linear(w) && s.Login? && Fresh(w, s)
    ensures Linear(After(w, s))
  {
    var r := After(w, s);
    LoginKeepsPlaces(w, s);
    forall f | f in r.families ensures ChainOk(r.rows, f, r.families[f]) {
      if f in w.families {
        LoginKeepsChain(w, s, f);
      }
    }
  }

  lemma RotateKeepsChain(w: World, s: Step, f: Uuid)
    requires Linear(w) && s.Rotate? && Fresh(w, s) && f in w.families
    requires Rotated(w.rows, s.oldId, s.live, s.now, s.newId, s.newHash, s.newExpiry).1.Ok?
    ensures f in After(w, s).families && ChainOk(After(w, s).rows, f, After(w, s).families[f])
  {
    var r := After(w, s);
    var f0, i0 := PlaceOf(w, s.oldId);
    assert ChainOk(w.rows, f, w.families[f]);
    assert s.newId !in w.families[f].chain by { assert !Issued(w, s.newId); }
    var prior, chain := w.families[f].chain, r.families[f].chain;
    assert f != f0 ==> chain == prior;
    assert f == f0 ==> chain == prior + [s.newId] && i0 + 1 == |prior|;
    forall i | 0 <= i < |chain| && chain[i] in r.rows ensures RowAt(r.rows[chain[i]], f, r.families[f], i) {
      if chain[i] == s.oldId {
        assert f == f0 && i == i0;
      } else if chain[i] != s.newId {
        assert r.rows[chain[i]] == w.rows[chain[i]];
        assert i < |prior| && prior[i] == chain[i];
        assert RowAt(w.rows[prior[i]], f, w.families[f], i);
        assert f == f0 ==> prior[|prior| - 1] == s.oldId;
      }
    }
  }

  lemma RotateKeepsHashes(w: World, s: Step)
    requires UniqueHashes(w.rows) && s.Rotate?
    ensures UniqueHashes(After(w, s).rows)
  {
    var r := After(w, s).rows;
    if Rotated(w.rows, s.oldId, s.live, s.now, s.newId, s.newHash, s.newExpiry).1.Ok? {
      assert forall id | id in w.rows :: r[id].hash == w.rows[id].hash;
      assert r[s.newId].hash == s.newHash && !HashTaken(w.rows, s.newHash);
    }
  }

  lemma RotateKeepsPlaces(w: World, s: Step)
    requires Linear(w) && s.Rotate? && Fresh(w, s)
    requires Rotated(w.rows, s.oldId, s.live, s.now, s.newId, s.newHash, s.newExpiry).1.Ok?
    ensures Placed(After(w, s).rows, After(w, s).families) && Disjoint(After(w, s).families)
  {
    var r := After(w, s);
    var f0, i0 := PlaceOf(w, s.oldId);
    var chain := w.families[f0].chain + [s.newId];
    assert r.families == w.families[f0 := Family(w.families[f0].user, chain)];
    assert forall id :: id in chain <==> id in w.families[f0].chain || id == s.newId;
    forall f | f in w.families ensures s.newId !in w.families[f].chain {
      assert !Issued(w, s.newId);
    }
    forall id | id in r.rows ensures r.rows[id].family in r.families && id in r.families[r.rows[id].family].chain {
      if id != s.newId {
        assert id in w.rows && r.rows[id].family == w.rows[id].family;
      }
    }
  }

  lemma RotateKeepsLinear(w: World, s: Step)
    requires Linear(w) && s.Rotate? && Fresh(w, s)
    ensures Linear(After(w, s))
  {
    if Rotated(w.rows, s.oldId, s.live, s.now, s.newId, s.newHash, s.newExpiry).1.Ok? {
      RotateKeepsHashes(w, s);
      RotateKeepsPlaces(w, s);
      forall f | f in After(w, s).families ensures ChainOk(After(w, s).rows, f, After(w, s).families[f]) {
        RotateKeepsChain(w, s, f);
      }
    }
  }

  lemma OtherStepOnlyRevokes(w: World, s: Step)
    requires Linear(w) && !s.Login? && !s.Rotate?
    ensures After(w, s).families == w.families && After(w, s).rows.Keys <= w.rows.Keys
    ensures forall id | id in After(w, s).rows :: OnlyRevokes(w.rows[id], After(w, s).rows[id])
  {
  }

  lemma StepKeepsLinear(w: World, s: Step)
    requires Linear(w) && Fresh(w, s)
    ensures Linear(After(w, s))
  {
    if s.Login? {
      LoginKeepsLinear(w, s);
    } else if s.Rotate? {
      RotateKeepsLinear(w, s);
    } else {
      OtherStepOnlyRevokes(w, s);
      RevokingKeepsLinear(w, After(w, s).rows);
    }
  }

  lemma {:induction false} RunKeepsLinear(w: World, steps: seq<Step>)
    requires Linear(w) && AllFresh(w, steps)
    ensures Linear(Run(w, steps))
    decreases |steps|
  {
    if steps != [] {
      StepKeepsLinear(w, steps[0]);
      RunKeepsLinear(After(w, steps[0]), steps[1..]);
    }
  }

  /** Any two stored tokens of a linear world. */
  lemma LinearPair(w: World, a: Uuid, b: Uuid)
    requires Linear(w) && a in w.rows && b in w.rows
    ensures w.rows[a].family == w.rows[b].family && !w.rows[a].IsRevoked() && !w.rows[b].IsRevoked() ==> a == b
    ensures w.rows[a].status == TokenStatus.Revoked <==> w.rows[a].revokedAt.Some?
    ensures w.rows[a].replacedBy == Some(b) ==>
              w.rows[a].family == w.rows[b].family && w.rows[a].user == w.rows[b].user && w.rows[a].IsRevoked()
              && a != b
    ensures w.rows[a].replacedBy.Some? && w.rows[a].replacedBy == w.rows[b].replacedBy ==> a == b
  {
    var f, i := PlaceOf(w, a);
    var g, j := PlaceOf(w, b);
    assert ChainOk(w.rows, f, w.families[f]);
    if w.rows[a].replacedBy.Some? && w.rows[a].replacedBy == w.rows[b].replacedBy {
      var next := w.families[f].chain[i + 1];
      assert next == w.families[g].chain[j + 1];
      assert next in w.families[f].chain && next in w.families[g].chain;
    }
    if w.rows[a].replacedBy == Some(b) {
      assert w.families[f].chain[i + 1] == b;
      assert b in w.families[f].chain && b in w.families[g].chain;
    }
  }

  /** A family has at most one token that is not revoked; a replaced token is revoked and its successor
      is another token of the same family and user; no token succeeds two others; and status says
      revoked exactly when a revocation time is set. */
  ghost predicate OnePath(rows: Rows) {
    forall a, b | a in rows && b in rows ::
      && (rows[a].status == TokenStatus.Revoked <==> rows[a].revokedAt.Some?)
      && (rows[a].family == rows[b].family && !rows[a].IsRevoked() && !rows[b].IsRevoked() ==> a == b)
      && (rows[a].replacedBy == Some(b) ==>
            rows[a].family == rows[b].family && rows[a].user == rows[b].user && rows[a].IsRevoked() && a != b)
      && (rows[a].replacedBy.Some? && rows[a].replacedBy == rows[b].replacedBy ==> a == b)
  }

  lemma LinearIsOnePath(w: World)
    requires Linear(w)
    ensures OnePath(w.rows)
  {
    var rows := w.rows;
    forall a, b | a in rows && b in rows
      ensures rows[a].status == TokenStatus.Revoked <==> rows[a].revokedAt.Some?
      ensures rows[a].family == rows[b].family && !rows[a].IsRevoked() && !rows[b].IsRevoked() ==> a == b
      ensures rows[a].replacedBy == Some(b) ==>
                rows[a].family == rows[b].family && rows[a].user == rows[b].user && rows[a].IsRevoked() && a != b
      ensures rows[a].replacedBy.Some? && rows[a].replacedBy == rows[b].replacedBy ==> a == b
    {
      LinearPair(w, a, b);
    }
  }

  /** After any interleaving of commits starting from an empty table every family is one path. Linear
      adds that the links follow the order of issue, so only the token at the end can be active. */
  lemma FamiliesAreLinear(steps: seq<Step>)
    requires AllFresh(EMPTY_WORLD, steps)
    ensures Linear(Run(EMPTY_WORLD, steps)) && OnePath(Run(EMPTY_WORLD, steps).rows)
  {
    assert Linear(EMPTY_WORLD);
    RunKeepsLinear(EMPTY_WORLD, steps);
    LinearIsOnePath(Run(EMPTY_WORLD, steps));
  }

  // ---------- What a revoked family stays ----------

  /** No token of the family is left that is not revoked. */
  ghost predicate Dead(rows: Rows, family: Uuid) {
    forall id | id in rows && rows[id].family == family :: rows[id].IsRevoked()
  }

  lemma StepKeepsDead(w: World, s: Step, family: Uuid)
    requires Fresh(w, s) && family in w.families && Dead(w.rows, family)
    ensures family in After(w, s).families && Dead(After(w, s).rows, family)
  {
    var r := After(w, s);
    forall id | id in r.rows && r.rows[id].family == family ensures r.rows[id].IsRevoked() {
      if id in w.rows {
        assert w.rows[id].family == family;
      }
    }
  }

  /** Once every token of a family is revoked, none can ever be used again. */
  lemma {:induction false} DeadStaysDead(w: World, steps: seq<Step>, family: Uuid)
    requires AllFresh(w, steps) && family in w.families && Dead(w.rows, family)
    ensures Dead(Run(w, steps).rows, family)
    decreases |steps|
  {
    if steps != [] {
      StepKeepsDead(w, steps[0], family);
      DeadStaysDead(After(w, steps[0]), steps[1..], family);
    }
  }

  lemma SweepKills(w: World, s: Step, family: Uuid)
    requires Linear(w)
    requires || (s.Reuse? && s.reused == family)
             || (s.RevokeUser? && family in w.families && w.families[family].user == s.user)
    ensures Dead(After(w, s).rows, family)
  {
    forall id | id in w.rows && w.rows[id].family == family
      ensures After(w, s).rows[id].IsRevoked()
    {
      var f, i := PlaceOf(w, id);
    }
  }

  lemma {:induction false} RunKeepsFamilies(w: World, steps: seq<Step>, family: Uuid)
    requires family in w.families
    ensures family in Run(w, steps).families
    ensures AllFresh(w, steps) ==> Run(w, steps).families[family].user == w.families[family].user
    decreases |steps|
  {
    if steps != [] {
      RunKeepsFamilies(After(w, steps[0]), steps[1..], family);
    }
  }

  /** A revoked token that was presented kills its family for good, whatever other commits ran
      between reading the token and revoking the family, and whatever runs afterwards. */
  lemma ReuseKillsFamily(w: World, between: seq<Step>, now: Time, afterwards: seq<Step>, presented: Uuid)
    requires Linear(w) && presented in w.rows && w.rows[presented].status == TokenStatus.Revoked
    requires AllFresh(w, between)
    requires AllFresh(After(Run(w, between), Reuse(w.rows[presented].family, now)), afterwards)
    ensures Dead(Run(After(Run(w, between), Reuse(w.rows[presented].family, now)), afterwards).rows,
              w.rows[presented].family)
  {
    var family := w.rows[presented].family;
    RunKeepsLinear(w, between);
    RunKeepsFamilies(w, between, family);
    SweepKills(Run(w, between), Reuse(family, now), family);
    DeadStaysDead(After(Run(w, between), Reuse(family, now)), afterwards, family);
  }

  /** Logging a user out kills every family the user ever had, for good. */
  lemma LogoutKillsFamilies(w: World, user: Uuid, now: Time, afterwards: seq<Step>, family: Uuid)
    requires Linear(w) && family in w.families && w.families[family].user == user
    requires AllFresh(After(w, RevokeUser(user, now)), afterwards)
    ensures Dead(Run(After(w, RevokeUser(user, now)), afterwards).rows, family)
  {
    SweepKills(w, RevokeUser(user, now), family);
    DeadStaysDead(After(w, RevokeUser(user, now)), afterwards, family);
  }

  /** Revoking the last unrevoked token of a family, as Refresh does with an expired one, kills the
      family for good. */
  lemma ExpiryKillsFamily(w: World, id: Uuid, now: Time, afterwards: seq<Step>)
    requires Linear(w) && id in w.rows && Revocable(w.rows[id])
    requires AllFresh(After(w, Expire(id, now)), afterwards)
    ensures Dead(Run(After(w, Expire(id, now)), afterwards).rows, w.rows[id].family)
  {
    var family, w1 := w.rows[id].family, After(w, Expire(id, now));
    forall other | other in w1.rows && w1.rows[other].family == family ensures w1.rows[other].IsRevoked() {
      LinearPair(w, id, other);
    }
    var f, i := PlaceOf(w, id);
    DeadStaysDead(w1, afterwards, family);
  }

  /** No token of the family can be used at `t`; unlike in a dead family, the newest may only have expired. */
  ghost predicate Inactive(rows: Rows, family: Uuid, t: Time) {
    forall id | id in rows && rows[id].family == family :: !rows[id].IsActive(t)
  }

  /** A rotation of a token of the family that was usable at the clock reading of the rotation, giving
      one that outlives `t`. */
  predicate Revives(w: World, s: Step, family: Uuid, t: Time) {
    && s.Rotate? && s.oldId in w.rows && w.rows[s.oldId].family == family
    && w.rows[s.oldId].IsActive(s.now) && w.rows[s.oldId].user in s.live
    && s.newId !in w.rows && !HashTaken(w.rows, s.newHash)
    && t < s.newExpiry
  }

  /** A family that cannot be used at `t` stays so, except that a rotation with a clock reading earlier
      than `t` revives it: Refresh reads the clock before its transaction. */
  lemma StepKeepsInactiveIff(w: World, s: Step, family: Uuid, t: Time)
    requires Fresh(w, s) && family in w.families && Inactive(w.rows, family, t)
    ensures family in After(w, s).families
    ensures Inactive(After(w, s).rows, family, t) <==> !Revives(w, s, family, t)
    ensures Revives(w, s, family, t) ==> s.now < t
  {
    var rows := After(w, s).rows;
    if Revives(w, s, family, t) {
      assert s.newId in rows && rows[s.newId].family == family && rows[s.newId].IsActive(t);
    } else {
      forall id | id in rows && rows[id].family == family ensures !rows[id].IsActive(t) {
        if id in w.rows {
          assert w.rows[id].family == family;
        }
      }
    }
  }

  /** Without a rotation that read the clock before `t`, a family that cannot be used at `t` cannot be
      used then or later. */
  lemma {:induction false} InactiveStays(w: World, steps: seq<Step>, family: Uuid, t: Time, later: Time)
    requires AllFresh(w, steps) && family in w.families && Inactive(w.rows, family, t) && t <= later
    requires forall s | s in steps && s.Rotate? :: t <= s.now
    ensures Inactive(Run(w, steps).rows, family, later)
    decreases |steps|
  {
    if steps != [] {
      StepKeepsInactiveIff(w, steps[0], family, t);
      InactiveStays(After(w, steps[0]), steps[1..], family, t, later);
    }
  }

  lemma StepKeepsSuccessor(w: World, s: Step, id: Uuid)
    requires Linear(w) && Fresh(w, s) && id in w.rows && w.rows[id].replacedBy.Some?
    ensures id in After(w, s).rows ==> After(w, s).rows[id].replacedBy == w.rows[id].replacedBy
    ensures id !in After(w, s).rows ==> Issued(After(w, s), id)
  {
    var f, i := PlaceOf(w, id);
    assert w.rows[id].IsRevoked();
    if !s.Login? && !s.Rotate? {
      OtherStepOnlyRevokes(w, s);
    }
  }

  /** A token is rotated at most once: its successor, once set, never changes while the row is
      stored, and no later attempt to rotate it succeeds. */
  lemma {:induction false} RotatedOnce(w: World, steps: seq<Step>, id: Uuid)
    requires Linear(w) && AllFresh(w, steps)
    requires id in w.rows && w.rows[id].replacedBy.Some?
    ensures var r := Run(w, steps).rows;
            id in r ==> r[id].replacedBy == w.rows[id].replacedBy
                        && forall live, now, newId, hash, expiry ::
                            Rotated(r, id, live, now, newId, hash, expiry).1.Err?
    decreases |steps|
  {
    var f, i := PlaceOf(w, id);
    if steps != [] {
      var w1 := After(w, steps[0]);
      StepKeepsLinear(w, steps[0]);
      StepKeepsSuccessor(w, steps[0], id);
      if id in w1.rows {
        RotatedOnce(w1, steps[1..], id);
      } else {
        GoneStaysGone(w1, steps[1..], id);
      }
    }
  }

  lemma {:induction false} GoneStaysGone(w: World, steps: seq<Step>, id: Uuid)
    requires AllFresh(w, steps) && id !in w.rows && Issued(w, id)
    ensures id !in Run(w, steps).rows
    decreases |steps|
  {
    if steps != [] {
      var f :| f in w.families && id in w.families[f].chain;
      var w1 := After(w, steps[0]);
      assert f in w1.families && w.families[f].chain <= w1.families[f].chain;
      assert Issued(w1, id);
      GoneStaysGone(w1, steps[1..], id);
    }
  }

  /** The rotation of a usable token of a live user goes through: the guarded update inside it
      finds its row, so only a used-up identifier or hash can stop it. */
  lemma RotationSucceedsIff(rows: Rows, id: Uuid, live: set<Uuid>, now: Time, newId: Uuid, newHash: string,
                            expiry: Time)
    requires newId !in rows && !HashTaken(rows, newHash)
    ensures Rotated(rows, id, live, now, newId, newHash, expiry).1.Ok?
            <==> id in rows && rows[id].IsActive(now) && rows[id].user in live
  {
    if id in rows && rows[id].IsActive(now) && rows[id].user in live {
      assert rows[id].status == Active;
    }
  }

  // ---------- Cleanup ----------

  /** Which hashes Refresh exchanges for a new pair at `now`. */
  ghost predicate Accepts(rows: Rows, live: set<Uuid>, hash: string, now: Time) {
    exists id :: id in rows && rows[id].hash == hash && rows[id].IsActive(now) && rows[id].user in live
  }

  /** Cleanup with a cutoff no later than now deletes no token that is active now or later, and
      changes no answer Refresh gives to a usable token. */
  lemma CleanupHarmless(w: World, before: Time, now: Time)
    requires Linear(w) && before <= now
    ensures forall id | id in w.rows && w.rows[id].IsActive(now) :: id in Purged(w.rows, before)
    ensures forall live, hash :: Accepts(Purged(w.rows, before), live, hash, now) <==> Accepts(w.rows, live, hash, now)
  {
    var r := Purged(w.rows, before);
    forall id | id in w.rows && w.rows[id].IsActive(now) ensures id in r {
      var f, i := PlaceOf(w, id);
    }
    forall live, hash | Accepts(w.rows, live, hash, now) ensures Accepts(r, live, hash, now) {
      var id :| id in w.rows && w.rows[id].hash == hash && w.rows[id].IsActive(now) && w.rows[id].user in live;
      assert id in r && r[id] == w.rows[id];
    }
  }

  /** What cleanup does give up: a revoked token is still recognised as reused afterwards if and
      only if it was revoked at or after the cutoff. */
  lemma CleanupForgetsReuseIff(w: World, before: Time, id: Uuid)
    requires Linear(w) && id in w.rows && w.rows[id].status == TokenStatus.Revoked
    ensures w.rows[id].revokedAt.Some?
    ensures HashTaken(Purged(w.rows, before), w.rows[id].hash) <==> w.rows[id].revokedAt.value >= before
  {
    var f, i := PlaceOf(w, id);
    var r := Purged(w.rows, before);
    assert w.rows[id].revokedAt.Some?;
    if HashTaken(r, w.rows[id].hash) {
      var other :| other in r && r[other].hash == w.rows[id].hash;
      assert other == id;
    }
    if w.rows[id].revokedAt.value >= before {
      assert id in r;
    }
  }
}
