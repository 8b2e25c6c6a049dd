/** Account rows that are read before a transaction and saved whole inside it (usecase/auth_login.go,
    admin.go, ws_auth.go): what such a save overwrites, and what it cannot break. */
module StaleRows {
  import opened Common
  import opened Model
  import opened Duel
  import opened Effects
  import opened GameInvariant
  import opened Ledger
  import opened Matchmaking
  import opened Reachable
  import opened Accounts
  import Ranking
  import Tokens

  /** An account row as some use case has read it. */
  datatype Copy = Copy(user: Uuid, row: User)

  /** The database, every copy that may still be saved, and the wins that saves have overwritten. The
      server does not keep the last of these. */
  datatype World = World(db: Db, copies: set<Copy>, lost: Losses)

  const EMPTY_WORLD := World(EMPTY_DB, {}, map[])

  /** The transaction of Login: the row it has read is saved and a token issued. */
  function LoginTx(db: Db, user: Uuid, row: User, id: Uuid, hash: string, family: Uuid, expiresAt: Time)
    : (Db, Result<(), Error>)
  {
    match Tokens.Inserted(db.tokens, id, Tokens.NewToken(user, hash, family, expiresAt))
    case Err(e) => (db, Err(e))
    case Ok(rows) => (db.(tokens := rows, users := db.users[user := row]), Ok(()))
  }

  /** Commits as in module Duel, except that logins and deletions save a copy of the account row that
      was read earlier. Touch is the save that follows a message on a WebSocket. */
  datatype Step =
    | Commit(s: Duel.Step)
    | Read(user: Uuid)
    | Touch(copy: Copy)
    | Login(copy: Copy, id: NewUuid, hash: string, family: NewUuid, expiresAt: Time)
    | Delete(admin: Uuid, copy: Copy, now: Time)

  /** The steps of module Duel that this module replaces. */
  predicate Replaced(s: Duel.Step) {
    s.DeleteUser? || (s.TokenStep? && s.token.Login?)
  }

  /** The step saves its copy: the copy was read, and passed the checks its use case makes of it. */
  predicate Saves(w: World, s: Step) {
    match s
    case Commit(_) => false
    case Read(_) => false
    case Touch(c) => c in w.copies && c.user in w.db.users && !c.row.IsDeleted()
    case Login(c, id, hash, _, _) =>
      && c in w.copies && c.user in w.db.users && !c.row.IsDeleted()
      && id !in w.db.tokens && !Tokens.HashTaken(w.db.tokens, hash)
    case Delete(admin, c, _) =>
      && c in w.copies && c.user in w.db.users && !c.row.IsDeleted() && !c.row.IsMaster() && admin != c.user
  }

  /** The account row a save leaves. */
  function SavedRow(s: Step): User
    requires s.Touch? || s.Login? || s.Delete?
  {
    if s.Delete? then s.copy.row.(deletedAt := Some(s.now), deletedBy := Some(s.admin)) else s.copy.row
  }

  function SavedTokens(rows: Tokens.Rows, s: Step): Tokens.Rows
    requires s.Touch? || s.Login? || s.Delete?
  {
    match s
    case Touch(_) => rows
    case Login(c, id, hash, family, expiresAt) => rows[id := Tokens.NewToken(c.user, hash, family, expiresAt)]
    case Delete(_, c, now) => Tokens.Swept(rows, Tokens.OfUser(rows, c.user), now)
  }

  /** The database a step that saves leaves. */
  function SavedDb(db: Db, s: Step): Db
    requires s.Touch? || s.Login? || s.Delete?
  {
    db.(users := db.users[s.copy.user := SavedRow(s)],
        tokens := SavedTokens(db.tokens, s),
        queue := if s.Delete? then WithoutUser(db.queue, s.copy.user) else db.queue)
  }

  /** It is what the transactions of Login and DeleteUser leave. */
  lemma SavedDbIsTransaction(w: World, s: Step)
    requires Saves(w, s)
    ensures s.Login? ==>
              LoginTx(w.db, s.copy.user, s.copy.row, s.id, s.hash, s.family, s.expiresAt) == (SavedDb(w.db, s), Ok(()))
    ensures s.Delete? ==> DeleteTx(w.db, s.admin, s.copy.user, s.copy.row, s.now) == SavedDb(w.db, s)
  {
  }

  function Saved(w: World, s: Step): World
    requires Saves(w, s)
  {
    var u := s.copy.user;
    var overwritten := w.db.users[u].winCount - s.copy.row.winCount;
    World(SavedDb(w.db, s), w.copies, w.lost[u := Lost(w.lost, u) + overwritten])
  }

  ghost function After(cfg: Config, w: World, s: Step): World {
    match s
    case Commit(c) => if Replaced(c) then w else w.(db := Apply(cfg, w.db, c))
    case Read(u) => if u in w.db.users then w.(copies := w.copies + {Copy(u, w.db.users[u])}) else w
    case _ => if Saves(w, s) then Saved(w, s) else w
  }

  ghost function Run(cfg: Config, w: World, steps: seq<Step>): World
    decreases |steps|
  {
    if steps == [] then w else Run(cfg, After(cfg, w, steps[0]), steps[1..])
  }

  // ---------- What no save can break ----------

  /** A copy has the account's name and role, and no more wins than the history shows. */
  ghost predicate CopiesOk(users: map<Uuid, User>, histories: map<Uuid, History>, copies: set<Copy>) {
    forall c | c in copies ::
      && c.user in users && c.row.username == users[c.user].username && c.row.role == users[c.user].role
      && c.row.winCount <= |WonRows(histories, c.user)|
  }

  /** Everything module Reachable shows of a database, except that win counts agree with the history. */
  ghost predicate Sound(cfg: Config, db: Db) {
    && GamesInv(cfg, db) && MatchInv(db) && Ranking.UniqueNames(db.users)
    && HistoriesOk(db.games, db.histories)
  }

  ghost predicate Accounted(users: map<Uuid, User>, games: map<Uuid, Game>, histories: map<Uuid, History>,
                            copies: set<Copy>, lost: Losses) {
    && Balanced(users, games, histories, lost)
    && (forall u | u in lost :: lost[u] >= 0)
    && CopiesOk(users, histories, copies)
  }

  ghost predicate Valid(cfg: Config, w: World) {
    Sound(cfg, w.db) && Accounted(w.db.users, w.db.games, w.db.histories, w.copies, w.lost)
  }

  lemma MoreRows(db: Db, db1: Db, u: Uuid)
    requires forall h | h in db.histories :: h in db1.histories && db1.histories[h] == db.histories[h]
    ensures |WonRows(db.histories, u)| <= |WonRows(db1.histories, u)|
  {
    var before, after := WonRows(db.histories, u), WonRows(db1.histories, u);
    assert before <= after;
    assert after == before + (after - before);
  }

  /** No commit changes an account's name or role. */
  lemma CommitKeepsIdentity(cfg: Config, db: Db, s: Duel.Step, u: Uuid)
    requires GamesInv(cfg, db) && !s.DeleteUser? && u in db.users
    ensures var users1 := Apply(cfg, db, s).users;
            u in users1 && users1[u].username == db.users[u].username && users1[u].role == db.users[u].role
  {
    if !s.Register? {
      StepKeepsAccounts(cfg, db, s);
    }
  }

  /** No commit changes or deletes a history row. */
  lemma CommitKeepsRows(cfg: Config, db: Db, s: Duel.Step, u: Uuid)
    requires GamesInv(cfg, db)
    ensures |WonRows(db.histories, u)| <= |WonRows(Apply(cfg, db, s).histories, u)|
  {
    StepNoWinOrWin(cfg, db, s);
    MoreRows(db, Apply(cfg, db, s), u);
  }

  lemma CommitKeepsCopies(cfg: Config, db: Db, s: Duel.Step, copies: set<Copy>)
    requires GamesInv(cfg, db) && !s.DeleteUser? && CopiesOk(db.users, db.histories, copies)
    ensures CopiesOk(Apply(cfg, db, s).users, Apply(cfg, db, s).histories, copies)
  {
    var db1 := Apply(cfg, db, s);
    forall c | c in copies
      ensures c.user in db1.users && c.row.username == db1.users[c.user].username
              && c.row.role == db1.users[c.user].role
      ensures c.row.winCount <= |WonRows(db1.histories, c.user)|
    {
      CommitKeepsIdentity(cfg, db, s, c.user);
      CommitKeepsRows(cfg, db, s, c.user);
    }
  }

  lemma CommitKeepsValid(cfg: Config, w: World, s: Duel.Step)
    requires Valid(cfg, w) && !Replaced(s)
    ensures Valid(cfg, After(cfg, w, Commit(s)))
  {
    StepKeepsGames(cfg, w.db, s);
    StepKeepsMatching(cfg, w.db, s);
    StepKeepsNames(cfg, w.db, s);
    StepKeepsBalance(cfg, w.db, s, w.lost);
    CommitKeepsCopies(cfg, w.db, s, w.copies);
  }

  /** A save writes one account row, and otherwise changes only tokens and takes queue entries away. */
  lemma SaveEffect(w: World, s: Step)
    requires Saves(w, s)
    ensures var db1 := SavedDb(w.db, s);
            && db1.users == w.db.users[s.copy.user := SavedRow(s)]
            && db1.games == w.db.games && db1.guesses == w.db.guesses && db1.histories == w.db.histories
            && db1.queue.Keys <= w.db.queue.Keys && (forall e | e in db1.queue :: db1.queue[e] == w.db.queue[e])
  {
  }

  lemma SaveKeepsBalance(users: map<Uuid, User>, games: map<Uuid, Game>, histories: map<Uuid, History>, lost: Losses,
                         u: Uuid, row: User)
    requires Balanced(users, games, histories, lost) && u in users
    ensures Balanced(users[u := row], games, histories, lost[u := Lost(lost, u) + (users[u].winCount - row.winCount)])
    ensures Balanced(users[u := row], games, histories, lost) <==> row.winCount == users[u].winCount
  {
    assert users[u].winCount + Lost(lost, u) == |WonRows(histories, u)|;
    if Balanced(users[u := row], games, histories, lost) {
      assert users[u := row][u].winCount + Lost(lost, u) == |WonRows(histories, u)|;
    }
  }

  lemma SaveKeepsNames(users: map<Uuid, User>, u: Uuid, row: User)
    requires Ranking.UniqueNames(users) && u in users && row.username == users[u].username
    ensures Ranking.UniqueNames(users[u := row])
  {
  }

  lemma SaveKeepsCopies(users: map<Uuid, User>, histories: map<Uuid, History>, copies: set<Copy>, u: Uuid, row: User)
    requires CopiesOk(users, histories, copies) && u in users
    requires row.username == users[u].username && row.role == users[u].role
    ensures CopiesOk(users[u := row], histories, copies)
  {
  }

  lemma SaveKeepsSound(cfg: Config, w: World, s: Step)
    requires Valid(cfg, w) && Saves(w, s)
    ensures Sound(cfg, SavedDb(w.db, s))
  {
    SaveEffect(w, s);
    assert SavedDb(w.db, s).users.Keys == w.db.users.Keys;
    OpensNothingKeepsMatching(w.db, SavedDb(w.db, s));
    SaveKeepsNames(w.db.users, s.copy.user, SavedRow(s));
  }

  lemma CopyFits(users: map<Uuid, User>, histories: map<Uuid, History>, copies: set<Copy>, c: Copy)
    requires CopiesOk(users, histories, copies) && c in copies
    ensures c.user in users && c.row.username == users[c.user].username && c.row.role == users[c.user].role
    ensures c.row.winCount <= |WonRows(histories, c.user)|
  {
  }

  lemma SavedIsBalanced(w: World, s: Step)
    requires Balanced(w.db.users, w.db.games, w.db.histories, w.lost) && Saves(w, s)
    ensures Balanced(Saved(w, s).db.users, w.db.games, w.db.histories, Saved(w, s).lost)
  {
    SaveKeepsBalance(w.db.users, w.db.games, w.db.histories, w.lost, s.copy.user, SavedRow(s));
  }

  lemma SavedLossesGrow(w: World, s: Step)
    requires Balanced(w.db.users, w.db.games, w.db.histories, w.lost) && forall u | u in w.lost :: w.lost[u] >= 0
    requires CopiesOk(w.db.users, w.db.histories, w.copies) && Saves(w, s)
    ensures forall u | u in Saved(w, s).lost :: Saved(w, s).lost[u] >= 0
  {
    var u := s.copy.user;
    CopyFits(w.db.users, w.db.histories, w.copies, s.copy);
    assert w.db.users[u].winCount + Lost(w.lost, u) == |WonRows(w.db.histories, u)|;
  }

  lemma SavedIsAccounted(w: World, s: Step)
    requires Accounted(w.db.users, w.db.games, w.db.histories, w.copies, w.lost) && Saves(w, s)
    ensures Accounted(Saved(w, s).db.users, w.db.games, w.db.histories, w.copies, Saved(w, s).lost)
  {
    SavedIsBalanced(w, s);
    SavedLossesGrow(w, s);
    CopyFits(w.db.users, w.db.histories, w.copies, s.copy);
    SaveKeepsCopies(w.db.users, w.db.histories, w.copies, s.copy.user, SavedRow(s));
  }

  lemma SaveKeepsValid(cfg: Config, w: World, s: Step)
    requires Valid(cfg, w) && Saves(w, s)
    ensures Valid(cfg, Saved(w, s))
  {
    SaveKeepsSound(cfg, w, s);
    SavedIsAccounted(w, s);
  }

  lemma ReadKeepsValid(cfg: Config, w: World, u: Uuid)
    requires Valid(cfg, w)
    ensures Valid(cfg, After(cfg, w, Read(u)))
  {
    if u in w.db.users {
      assert w.db.users[u].winCount + Lost(w.lost, u) == |WonRows(w.db.histories, u)|;
    }
  }

  lemma StepKeepsValid(cfg: Config, w: World, s: Step)
    requires Valid(cfg, w)
    ensures Valid(cfg, After(cfg, w, s))
  {
    match s
    case Commit(c) =>
      if !Replaced(c) {
        CommitKeepsValid(cfg, w, c);
      }
    case Read(u) => ReadKeepsValid(cfg, w, u);
    case _ =>
      if Saves(w, s) {
        SaveKeepsValid(cfg, w, s);
      }
  }

  lemma EmptyIsValid(cfg: Config)
    ensures Valid(cfg, EMPTY_WORLD)
  {
  }

  lemma {:induction false} RunKeepsValid(cfg: Config, w: World, steps: seq<Step>)
    requires Valid(cfg, w)
    ensures Valid(cfg, Run(cfg, w, steps))
    decreases |steps|
  {
    if steps != [] {
      StepKeepsValid(cfg, w, steps[0]);
      RunKeepsValid(cfg, After(cfg, w, steps[0]), steps[1..]);
    }
  }

  /** Every run keeps what the results on games, guesses, histories and matching rely on. */
  lemma RunIsSound(cfg: Config, steps: seq<Step>)
    ensures Sound(cfg, Run(cfg, EMPTY_WORLD, steps).db)
  {
    EmptyIsValid(cfg);
    RunKeepsValid(cfg, EMPTY_WORLD, steps);
  }

  /** Whatever old rows are saved when, games and histories agree, nobody plays two games at once, and
      a win count never exceeds the history: what it is short of is what saves have overwritten. */
  lemma WinsNeverOvercounted(cfg: Config, steps: seq<Step>, u: Uuid)
    requires u in Run(cfg, EMPTY_WORLD, steps).db.users
    ensures var w := Run(cfg, EMPTY_WORLD, steps);
            && w.db.users[u].winCount + Lost(w.lost, u) == |WonRows(w.db.histories, u)| == |WonGames(w.db.games, u)|
            && Lost(w.lost, u) >= 0
            && OneGameEach(w.db.games) && AtMostOneWaits(w.db.queue)
  {
    EmptyIsValid(cfg);
    RunKeepsValid(cfg, EMPTY_WORLD, steps);
  }

  /** One save keeps the ledger exactly if its copy has the win count the account has now. */
  lemma SaveKeepsLedgerIff(cfg: Config, w: World, s: Step)
    requires LedgerInv(w.db) && Saves(w, s)
    ensures LedgerInv(After(cfg, w, s).db) <==> s.copy.row.winCount == w.db.users[s.copy.user].winCount
  {
    SaveEffect(w, s);
    SaveKeepsBalance(w.db.users, w.db.games, w.db.histories, map[], s.copy.user, SavedRow(s));
  }

  // ---------- Deleted users ----------

  /** A deletion is undone by exactly the saves, of a login or a message, of a row of that user that
      was read before it. */
  lemma DeletionUndoneIff(cfg: Config, w: World, s: Step, u: Uuid)
    requires Valid(cfg, w) && IsDeletedUser(w.db.users, u)
    ensures !IsDeletedUser(After(cfg, w, s).db.users, u) <==> (s.Touch? || s.Login?) && s.copy.user == u && Saves(w, s)
  {
    if s.Commit? {
      if !Replaced(s.s) {
        DeletionKept(cfg, w.db, s.s, u);
      }
    } else if !s.Read? && Saves(w, s) {
      SaveEffect(w, s);
    }
  }

  lemma DeletedCopiesOnly(cfg: Config, w: World, s: Step, u: Uuid)
    requires IsDeletedUser(w.db.users, u) && forall c | c in w.copies && c.user == u :: c.row.IsDeleted()
    ensures forall c | c in After(cfg, w, s).copies && c.user == u :: c.row.IsDeleted()
  {
  }

  /** Once no copy of the row from before the deletion is held any more, the deletion is for good. */
  lemma {:induction false} DeletionSurvives(cfg: Config, w: World, steps: seq<Step>, u: Uuid)
    requires Valid(cfg, w) && IsDeletedUser(w.db.users, u)
    requires forall c | c in w.copies && c.user == u :: c.row.IsDeleted()
    ensures IsDeletedUser(Run(cfg, w, steps).db.users, u)
    decreases |steps|
  {
    if steps != [] {
      StepKeepsValid(cfg, w, steps[0]);
      DeletionUndoneIff(cfg, w, steps[0], u);
      DeletedCopiesOnly(cfg, w, steps[0], u);
      DeletionSurvives(cfg, After(cfg, w, steps[0]), steps[1..], u);
    }
  }

  /** Exactly when a step leaves deleted users without token, queue entry and active game. A login or a
      message of a user who was deleted since the read gives the account itself back instead. */
  lemma StepKeepsGoneOrRestores(cfg: Config, w: World, s: Step)
    requires Valid(cfg, w) && DeletedAreGone(w.db)
    ensures DeletedAreGone(After(cfg, w, s).db)
            <==> match s
                 case Commit(c) => Replaced(c) || KeepsGone(w.db, c)
                 case Delete(_, c, _) => !Saves(w, s) || !HasActiveGame(w.db.games, c.user)
                 case _ => true
  {
    match s
    case Commit(c) => if !Replaced(c) { StepKeepsGoneIff(cfg, w.db, c); }
    case Read(_) =>
    case Delete(admin, c, now) =>
      if Saves(w, s) {
        SavedDbIsTransaction(w, s);
        DeleteKeepsGoneIff(w.db, admin, c.user, c.row, now);
      }
    case _ => if Saves(w, s) { RestoredKeepsGone(w, s); }
  }

  lemma RestoredKeepsGone(w: World, s: Step)
    requires DeletedAreGone(w.db) && Saves(w, s) && !s.Delete?
    ensures DeletedAreGone(SavedDb(w.db, s))
  {
    var db1 := SavedDb(w.db, s);
    SaveEffect(w, s);
    forall u | IsDeletedUser(db1.users, u) ensures Gone(db1, u) {
      assert u != s.copy.user && Gone(w.db, u);
      assert forall id | id in db1.tokens && db1.tokens[id].user == u :: id in w.db.tokens;
    }
  }

  // ---------- Tokens ----------

  /** No token of a deleted user is left that is not revoked. */
  ghost predicate DeletedHoldNoTokens(db: Db) {
    forall id | id in db.tokens && IsDeletedUser(db.users, db.tokens[id].user) :: db.tokens[id].IsRevoked()
  }

  lemma CommitKeepsTokensRevoked(cfg: Config, db: Db, s: Duel.Step)
    requires GamesInv(cfg, db) && !Replaced(s) && DeletedHoldNoTokens(db)
    ensures DeletedHoldNoTokens(Apply(cfg, db, s))
  {
    match s
    case Register(id, username, role) => NewcomersAreNotDeleted(db, id, username, role);
    case TokenStep(t) =>
      forall u | IsDeletedUser(db.users, u)
        ensures var tokens := TokenTx(db, t).tokens;
                forall id | id in tokens && tokens[id].user == u :: tokens[id].IsRevoked()
      {
        TokensStayRevoked(db, t, u);
      }
    case StartMatching(user, now, entryId, picked, later, gameId) =>
      if entryId !in db.queue && OldestFirst(Queued(db, user, now, entryId).queue, 2, picked) {
        MatchEffect(db, Queued(db, user, now, entryId), picked, later, gameId);
      }
    case _ =>
      PlayKeepsTokens(cfg, db, s);
      StepKeepsAccounts(cfg, db, s);
  }

  lemma SaveKeepsTokensRevoked(w: World, s: Step)
    requires Saves(w, s) && DeletedHoldNoTokens(w.db)
    ensures DeletedHoldNoTokens(SavedDb(w.db, s))
  {
  }

  lemma {:induction false} RunKeepsTokensRevoked(cfg: Config, w: World, steps: seq<Step>)
    requires Valid(cfg, w) && DeletedHoldNoTokens(w.db)
    ensures DeletedHoldNoTokens(Run(cfg, w, steps).db)
    decreases |steps|
  {
    if steps != [] {
      var s := steps[0];
      if s.Commit? {
        if !Replaced(s.s) {
          CommitKeepsTokensRevoked(cfg, w.db, s.s);
        }
      } else if !s.Read? && Saves(w, s) {
        SaveKeepsTokensRevoked(w, s);
      }
      StepKeepsValid(cfg, w, s);
      RunKeepsTokensRevoked(cfg, After(cfg, w, s), steps[1..]);
    }
  }

  /** Whatever ran between a read and the transaction that relies on it, a deleted user never holds a
      usable token: the login that issues one saves the account as not deleted in the same commit. */
  lemma DeletedNeverHoldTokens(cfg: Config, steps: seq<Step>, id: Uuid)
    ensures var db := Run(cfg, EMPTY_WORLD, steps).db;
            id in db.tokens && IsDeletedUser(db.users, db.tokens[id].user) ==> db.tokens[id].IsRevoked()
  {
    EmptyIsValid(cfg);
    RunKeepsTokensRevoked(cfg, EMPTY_WORLD, steps);
  }
}
