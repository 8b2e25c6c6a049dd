/** Token families in the whole server: what its commits do to the table of refresh tokens is a run of
    module Tokens, in which deleting a user reads as revoking the user's tokens. */
module Families {
  import opened Common
  import opened Model
  import opened Duel
  import opened Effects
  import opened GameInvariant
  import opened Accounts
  import StaleRows
  import Tokens

  /** What a commit does to the tokens, None when it leaves them alone. */
  function TokenStepOf(db: Db, s: Step): Option<Tokens.Step> {
    match s
    case DeleteUser(_, target, now) => if target in db.users then Some(Tokens.RevokeUser(target, now)) else None
    case TokenStep(t) => Seen(db.users, t)
    case _ => None
  }

  function Applied(rows: Tokens.Rows, t: Option<Tokens.Step>): Tokens.Rows {
    match t
    case None => rows
    case Some(t1) => Tokens.RowsAfter(rows, t1)
  }

  lemma StartKeepsTokens(cfg: Config, db: Db, s: Step)
    requires s.StartMatching?
    ensures Apply(cfg, db, s).tokens == db.tokens
  {
    var mid := Queued(db, s.caller, s.insertedAt, s.entryId);
    if s.entryId !in db.queue && OldestFirst(mid.queue, 2, s.picked) {
      MatchEffect(db, mid, s.picked, s.createdAt, s.gameId);
    }
  }

  lemma OtherKeepsTokens(cfg: Config, db: Db, s: Step)
    requires GamesInv(cfg, db) && !s.DeleteUser? && !s.TokenStep?
    ensures Apply(cfg, db, s).tokens == db.tokens
  {
    if s.StartMatching? {
      StartKeepsTokens(cfg, db, s);
    } else if s.Register? {
      NewcomersAreNotDeleted(db, s.id, s.username, s.role);
    } else {
      PlayKeepsTokens(cfg, db, s);
    }
  }

  lemma TokensWritten(cfg: Config, db: Db, s: Step)
    requires s.DeleteUser? || s.TokenStep?
    ensures Apply(cfg, db, s).tokens == Applied(db.tokens, TokenStepOf(db, s))
  {
  }

  lemma CommitOnTokens(cfg: Config, db: Db, s: Step)
    requires GamesInv(cfg, db)
    ensures Apply(cfg, db, s).tokens == Applied(db.tokens, TokenStepOf(db, s))
  {
    if s.DeleteUser? || s.TokenStep? {
      TokensWritten(cfg, db, s);
    } else {
      OtherKeepsTokens(cfg, db, s);
      assert TokenStepOf(db, s) == None;
    }
  }

  /** The token steps of a run, in order. */
  ghost function TokensOf(cfg: Config, db: Db, steps: seq<Step>): seq<Tokens.Step>
    decreases |steps|
  {
    if steps == [] then []
    else
      var t, rest := TokenStepOf(db, steps[0]), TokensOf(cfg, Apply(cfg, db, steps[0]), steps[1..]);
      if t.Some? then [t.value] + rest else rest
  }

  /** The tokens of a run are those of its token steps. */
  lemma {:induction false} RunOnTokens(cfg: Config, db: Db, tw: Tokens.World, steps: seq<Step>)
    requires GamesInv(cfg, db) && tw.rows == db.tokens
    ensures Tokens.Run(tw, TokensOf(cfg, db, steps)).rows == Run(cfg, db, steps).tokens
    decreases |steps|
  {
    if steps != [] {
      var t, db1 := TokenStepOf(db, steps[0]), Apply(cfg, db, steps[0]);
      CommitOnTokens(cfg, db, steps[0]);
      StepKeepsGames(cfg, db, steps[0]);
      var rest := TokensOf(cfg, db1, steps[1..]);
      if t.Some? {
        assert ([t.value] + rest)[1..] == rest;
        RunOnTokens(cfg, db1, Tokens.After(tw, t.value), steps[1..]);
      } else {
        RunOnTokens(cfg, db1, tw, steps[1..]);
      }
    }
  }

  // ---------- With old account rows ----------

  function SavedStepOf(w: StaleRows.World, s: StaleRows.Step): Option<Tokens.Step> {
    match s
    case Commit(c) => if StaleRows.Replaced(c) then None else TokenStepOf(w.db, c)
    case Login(c, id, hash, family, expiresAt) =>
      if StaleRows.Saves(w, s) then Some(Tokens.Login(c.user, id, hash, family, expiresAt)) else None
    case Delete(_, c, now) => if StaleRows.Saves(w, s) then Some(Tokens.RevokeUser(c.user, now)) else None
    case _ => None
  }

  lemma SaveOnTokens(w: StaleRows.World, s: StaleRows.Step)
    requires StaleRows.Saves(w, s)
    ensures StaleRows.SavedDb(w.db, s).tokens == Applied(w.db.tokens, SavedStepOf(w, s))
  {
  }

  lemma StepOnTokens(cfg: Config, w: StaleRows.World, s: StaleRows.Step)
    requires GamesInv(cfg, w.db)
    ensures StaleRows.After(cfg, w, s).db.tokens == Applied(w.db.tokens, SavedStepOf(w, s))
  {
    if s.Commit? {
      if !StaleRows.Replaced(s.s) {
        CommitOnTokens(cfg, w.db, s.s);
      }
    } else if StaleRows.Saves(w, s) {
      SaveOnTokens(w, s);
    }
  }

  lemma ValidStepOnTokens(cfg: Config, w: StaleRows.World, s: StaleRows.Step)
    requires StaleRows.Valid(cfg, w)
    ensures StaleRows.Valid(cfg, StaleRows.After(cfg, w, s))
    ensures StaleRows.After(cfg, w, s).db.tokens == Applied(w.db.tokens, SavedStepOf(w, s))
  {
    StepOnTokens(cfg, w, s);
    StaleRows.StepKeepsValid(cfg, w, s);
  }

  ghost function SavedTokensOf(cfg: Config, w: StaleRows.World, steps: seq<StaleRows.Step>): seq<Tokens.Step>
    decreases |steps|
  {
    if steps == [] then []
    else
      var t, rest := SavedStepOf(w, steps[0]), SavedTokensOf(cfg, StaleRows.After(cfg, w, steps[0]), steps[1..]);
      if t.Some? then [t.value] + rest else rest
  }

  /** Every step of the run does to the tokens what its token step says. */
  ghost predicate StepByStep(cfg: Config, w: StaleRows.World, steps: seq<StaleRows.Step>)
    decreases |steps|
  {
    steps == [] ||
    var w1 := StaleRows.After(cfg, w, steps[0]);
    w1.db.tokens == Applied(w.db.tokens, SavedStepOf(w, steps[0])) && StepByStep(cfg, w1, steps[1..])
  }

  lemma {:induction false} ValidStepByStep(cfg: Config, w: StaleRows.World, steps: seq<StaleRows.Step>)
    requires StaleRows.Valid(cfg, w)
    ensures StepByStep(cfg, w, steps)
    decreases |steps|
  {
    if steps != [] {
      ValidStepOnTokens(cfg, w, steps[0]);
      ValidStepByStep(cfg, StaleRows.After(cfg, w, steps[0]), steps[1..]);
    }
  }

  lemma {:induction false} StepByStepOnTokens(cfg: Config, w: StaleRows.World, tw: Tokens.World,
                                              steps: seq<StaleRows.Step>)
    requires StepByStep(cfg, w, steps) && tw.rows == w.db.tokens
    ensures Tokens.Run(tw, SavedTokensOf(cfg, w, steps)).rows == StaleRows.Run(cfg, w, steps).db.tokens
    decreases |steps|
  {
    if steps != [] {
      var t, w1 := SavedStepOf(w, steps[0]), StaleRows.After(cfg, w, steps[0]);
      var rest := SavedTokensOf(cfg, w1, steps[1..]);
      if t.Some? {
        assert ([t.value] + rest)[1..] == rest;
        StepByStepOnTokens(cfg, w1, Tokens.After(tw, t.value), steps[1..]);
      } else {
        StepByStepOnTokens(cfg, w1, tw, steps[1..]);
      }
    }
  }

  /** The same when old account rows are saved. */
  lemma SavedRunOnTokens(cfg: Config, w: StaleRows.World, tw: Tokens.World, steps: seq<StaleRows.Step>)
    requires StaleRows.Valid(cfg, w) && tw.rows == w.db.tokens
    ensures Tokens.Run(tw, SavedTokensOf(cfg, w, steps)).rows == StaleRows.Run(cfg, w, steps).db.tokens
  {
    ValidStepByStep(cfg, w, steps);
    StepByStepOnTokens(cfg, w, tw, steps);
  }

  /** In every run of the whole server that draws new identifiers for its tokens, the stored tokens of
      a family form one path. */
  lemma ServerFamiliesAreLinear(cfg: Config, steps: seq<StaleRows.Step>)
    requires Tokens.AllFresh(Tokens.EMPTY_WORLD, SavedTokensOf(cfg, StaleRows.EMPTY_WORLD, steps))
    ensures Tokens.OnePath(StaleRows.Run(cfg, StaleRows.EMPTY_WORLD, steps).db.tokens)
  {
    StaleRows.EmptyIsValid(cfg);
    SavedRunOnTokens(cfg, StaleRows.EMPTY_WORLD, Tokens.EMPTY_WORLD, steps);
    Tokens.FamiliesAreLinear(SavedTokensOf(cfg, StaleRows.EMPTY_WORLD, steps));
  }

  /** Deleting a user kills every token family the user ever had, for good, even if a login that was
      under way restores the account afterwards. */
  lemma DeletionKillsFamilies(cfg: Config, w: StaleRows.World, tw: Tokens.World, s: StaleRows.Step,
                              afterwards: seq<StaleRows.Step>, family: Uuid)
    requires StaleRows.Valid(cfg, w) && Tokens.Linear(tw) && tw.rows == w.db.tokens
    requires s.Delete? && StaleRows.Saves(w, s)
    requires family in tw.families && tw.families[family].user == s.copy.user
    requires var tw1 := Tokens.After(tw, Tokens.RevokeUser(s.copy.user, s.now));
             Tokens.AllFresh(tw1, SavedTokensOf(cfg, StaleRows.After(cfg, w, s), afterwards))
    ensures Tokens.Dead(StaleRows.Run(cfg, StaleRows.After(cfg, w, s), afterwards).db.tokens, family)
  {
    var w1, t := StaleRows.After(cfg, w, s), Tokens.RevokeUser(s.copy.user, s.now);
    ValidStepOnTokens(cfg, w, s);
    SavedRunOnTokens(cfg, w1, Tokens.After(tw, t), afterwards);
    Tokens.LogoutKillsFamilies(tw, s.copy.user, s.now, SavedTokensOf(cfg, w1, afterwards), family);
  }
}
