/** Incremental copy of seven tables to the backup database, driven by a stored watermark
    (usecase/backup.go, repository/backup.go). */
module Backup {
  import opened Common

  /** A row as far as copying is concerned: everything in it, and its updated_at. */
  datatype Row = Row(content: int, updatedAt: Time)

  type Table = map<Uuid, Row>

  const TABLES: nat := 7

  type Database = tables: seq<Table> | |tables| == TABLES witness seq(TABLES, _ => map[])

  /** What goes wrong with one table in one attempt. A failed write may have stored part of its rows. */
  datatype Fault = NoFault | ReadFails | WriteFails(stored: set<Uuid>)

  /** The databases and the watermark kept in the status store. */
  datatype State = State(primary: Database, backup: Database, mark: Option<Time>)

  /** One run's surroundings: faults by attempt and table, whether the status store answers at
      the start and at the end of the run and accepts the final write, and the clock. */
  datatype Env = Env(
    faults: (nat, nat) -> Fault,
    maxRetries: int,
    readable: bool,
    readableAtEnd: bool,
    writable: bool,
    now: Time)

  // ---------- What a run computes ----------

  function Changed(p: Table, since: Option<Time>): Table {
    map id | id in p && (since.None? || p[id].updatedAt > since.value) :: p[id]
  }

  function Restricted(rows: Table, ids: set<Uuid>): Table {
    map id | id in rows && id in ids :: rows[id]
  }

  function CopiedTable(p: Table, b: Table, since: Option<Time>, fault: Fault): (Table, bool) {
    var rows := Changed(p, since);
    match fault
    case ReadFails => (b, false)
    case NoFault => (b + rows, true)
    case WriteFails(stored) =>
      if rows == map[] then (b, true)
      else (b + Restricted(rows, stored), false)
  }

  /** One attempt, from table `t` on: it stops at the first table that fails. */
  function Copied(primary: Database, b: Database, since: Option<Time>, faults: nat -> Fault, t: nat): (Database, bool)
    requires t <= TABLES
    decreases TABLES - t
  {
    if t == TABLES then (b, true)
    else
      var (table, ok) := CopiedTable(primary[t], b[t], since, faults(t));
      if ok then Copied(primary, b[t := table], since, faults, t + 1) else (b[t := table], false)
  }

  function Retried(primary: Database, b: Database, since: Option<Time>, faults: (nat, nat) -> Fault,
                   attempt: nat, max: nat): (Database, bool)
    requires attempt <= max
    decreases max - attempt
  {
    if attempt == max then (b, false)
    else
      var (next, ok) := Copied(primary, b, since, (t: nat) => faults(attempt, t), 0);
      if ok then (next, true) else Retried(primary, next, since, faults, attempt + 1, max)
  }

  function Retries(maxRetries: int): nat {
    if maxRetries <= 0 then 3 else maxRetries
  }

  /** The status store keeps whole seconds. */
  function WholeSeconds(t: Time): Time {
    t - t % SECOND
  }

  function Ran(s: State, env: Env): (State, Result<(), Error>) {
    if !env.readable then (s, Err(StoreFailure))
    else
      var (b, ok) := Retried(s.primary, s.backup, s.mark, env.faults, 0, Retries(env.maxRetries));
      if ok then
        if env.writable then (State(s.primary, b, Some(WholeSeconds(env.now))), Ok(()))
        else (State(s.primary, b, s.mark), Err(StoreFailure))
      else
        var preserved := if env.readableAtEnd then s.mark else None;
        (State(s.primary, b, if env.writable then preserved else s.mark), Err(StoreFailure))
  }

  // ---------- What it means ----------

  /** What a full copy of the primary onto `b` leaves. */
  function FullCopy(primary: Database, b: Database): Database {
    seq(TABLES, t requires 0 <= t < TABLES => b[t] + primary[t])
  }

  ghost predicate Holds(primary: Table, b: Table, id: Uuid) {
    id in primary && id in b && b[id] == primary[id]
  }

  /** Every primary row not newer than the watermark is in the backup as it is in the primary. */
  ghost predicate Covered(s: State) {
    s.mark.Some? ==>
      forall t, id | 0 <= t < TABLES && id in s.primary[t] && s.primary[t][id].updatedAt <= s.mark.value ::
        Holds(s.primary[t], s.backup[t], id)
  }

  /** `after` lies between `before` and a full copy: some rows brought up to date, none lost. */
  ghost predicate Between(primary: Table, before: Table, after: Table) {
    && before.Keys <= after.Keys <= before.Keys + primary.Keys
    && forall id | id in after :: Holds(primary, after, id) || (id in before && after[id] == before[id])
  }

  ghost predicate AllBetween(primary: Database, before: Database, after: Database) {
    forall t | 0 <= t < TABLES :: Between(primary[t], before[t], after[t])
  }

  ghost predicate CopiedFrom(primary: Database, b: Database, since: Option<Time>, from: nat) {
    forall t, id | from <= t < TABLES && id in Changed(primary[t], since) :: Holds(primary[t], b[t], id)
  }

  lemma {:induction false} CopyStaysBetween(primary: Database, before: Database, b: Database, since: Option<Time>,
                                            faults: nat -> Fault, t: nat)
    requires t <= TABLES && AllBetween(primary, before, b)
    ensures AllBetween(primary, before, Copied(primary, b, since, faults, t).0)
    decreases TABLES - t
  {
    if t < TABLES {
      var (table, ok) := CopiedTable(primary[t], b[t], since, faults(t));
      assert Between(primary[t], before[t], b[t]);
      assert Between(primary[t], before[t], table);
      if ok {
        CopyStaysBetween(primary, before, b[t := table], since, faults, t + 1);
      }
    }
  }

  lemma {:induction false} CopyKeepsEarlierTables(primary: Database, b: Database, since: Option<Time>,
                                                  faults: nat -> Fault, t: nat)
    requires t <= TABLES
    ensures Copied(primary, b, since, faults, t).0[..t] == b[..t]
    decreases TABLES - t
  {
    if t < TABLES {
      var (table, ok) := CopiedTable(primary[t], b[t], since, faults(t));
      if ok {
        CopyKeepsEarlierTables(primary, b[t := table], since, faults, t + 1);
        assert Copied(primary, b, since, faults, t).0[..t] == Copied(primary, b, since, faults, t).0[..t + 1][..t];
      }
    }
  }

  lemma {:induction false} CopyComplete(primary: Database, b: Database, since: Option<Time>, faults: nat -> Fault,
                                        t: nat)
    requires t <= TABLES && Copied(primary, b, since, faults, t).1
    ensures CopiedFrom(primary, Copied(primary, b, since, faults, t).0, since, t)
    decreases TABLES - t
  {
    if t < TABLES {
      var (table, ok) := CopiedTable(primary[t], b[t], since, faults(t));
      var r := Copied(primary, b, since, faults, t).0;
      CopyComplete(primary, b[t := table], since, faults, t + 1);
      CopyKeepsEarlierTables(primary, b[t := table], since, faults, t + 1);
      assert r[..t + 1][t] == table;
      assert forall id | id in Changed(primary[t], since) :: Holds(primary[t], table, id);
    }
  }

  lemma {:induction false} RetryOutcome(primary: Database, before: Database, b: Database, since: Option<Time>,
                                        faults: (nat, nat) -> Fault, attempt: nat, max: nat)
    requires attempt <= max && AllBetween(primary, before, b)
    ensures var (r, ok) := Retried(primary, b, since, faults, attempt, max);
            AllBetween(primary, before, r) && (ok ==> CopiedFrom(primary, r, since, 0))
    decreases max - attempt
  {
    if attempt < max {
      var once := (t: nat) => faults(attempt, t);
      var (next, ok) := Copied(primary, b, since, once, 0);
      CopyStaysBetween(primary, before, b, since, once, 0);
      if ok {
        CopyComplete(primary, b, since, once, 0);
      } else {
        RetryOutcome(primary, before, next, since, faults, attempt + 1, max);
      }
    }
  }

  /** Any run, whatever fails in it, keeps the backup's coverage and never advances the watermark
      unless it succeeds; a run that succeeds leaves exactly what a full copy would have left. */
  lemma RunIsSafe(s: State, env: Env)
    requires Covered(s)
    ensures var (r, result) := Ran(s, env);
            && Covered(r)
            && r.primary == s.primary
            && (result.Ok? ==> r.backup == FullCopy(s.primary, s.backup))
            && (result.Err? ==> r.mark == s.mark || r.mark == None)
  {
    if env.readable {
      RetryOutcome(s.primary, s.backup, s.backup, s.mark, env.faults, 0, Retries(env.maxRetries));
      var (b, ok) := Retried(s.primary, s.backup, s.mark, env.faults, 0, Retries(env.maxRetries));
      BetweenKeepsCovered(s, b);
      if ok {
        CompleteIsFullCopy(s, b);
      }
    }
  }

  lemma BetweenKeepsCovered(s: State, b: Database)
    requires Covered(s) && AllBetween(s.primary, s.backup, b)
    ensures Covered(s.(backup := b))
  {
    if s.mark.Some? {
      forall t, id | 0 <= t < TABLES && id in s.primary[t] && s.primary[t][id].updatedAt <= s.mark.value
        ensures Holds(s.primary[t], b[t], id)
      {
        assert Between(s.primary[t], s.backup[t], b[t]);
        assert Holds(s.primary[t], s.backup[t], id);
      }
    }
  }

  lemma CompleteIsFullCopy(s: State, b: Database)
    requires Covered(s) && AllBetween(s.primary, s.backup, b) && CopiedFrom(s.primary, b, s.mark, 0)
    ensures b == FullCopy(s.primary, s.backup)
    ensures forall t, id | 0 <= t < TABLES && id in s.primary[t] :: Holds(s.primary[t], b[t], id)
  {
    BetweenKeepsCovered(s, b);
    forall t, id | 0 <= t < TABLES && id in s.primary[t] ensures Holds(s.primary[t], b[t], id) {
      if !(s.mark.Some? && s.primary[t][id].updatedAt <= s.mark.value) {
        assert id in Changed(s.primary[t], s.mark);
      }
    }
    forall t | 0 <= t < TABLES ensures b[t] == s.backup[t] + s.primary[t] {
      assert Between(s.primary[t], s.backup[t], b[t]);
      forall id | id in s.backup[t] + s.primary[t] ensures id in b[t] && b[t][id] == (s.backup[t] + s.primary[t])[id] {
        if id in s.primary[t] { assert Holds(s.primary[t], b[t], id); }
      }
    }
  }

  // ---------- Whole histories ----------

  /** What can happen to the pair of databases. */
  datatype Event =
    | Write(table: nat, id: Uuid, row: Row)
    | Remove(table: nat, id: Uuid)
    | Sync(env: Env)

  /** Writes carry a stamp later than the watermark in force. */
  predicate Allowed(s: State, e: Event) {
    match e
    case Write(t, _, row) => t < TABLES && (s.mark.Some? ==> row.updatedAt > s.mark.value)
    case Remove(t, _) => t < TABLES
    case Sync(_) => true
  }

  function Happened(s: State, e: Event): State
    requires Allowed(s, e)
  {
    match e
    case Write(t, id, row) => s.(primary := s.primary[t := s.primary[t][id := row]])
    case Remove(t, id) => s.(primary := s.primary[t := s.primary[t] - {id}])
    case Sync(env) => Ran(s, env).0
  }

  predicate AllAllowed(s: State, events: seq<Event>)
    decreases |events|
  {
    events == [] || (Allowed(s, events[0]) && AllAllowed(Happened(s, events[0]), events[1..]))
  }

  function History(s: State, events: seq<Event>): State
    requires AllAllowed(s, events)
    decreases |events|
  {
    if events == [] then s else History(Happened(s, events[0]), events[1..])
  }

  lemma {:induction false} HistoryCovered(s: State, events: seq<Event>)
    requires Covered(s) && AllAllowed(s, events)
    ensures Covered(History(s, events))
    decreases |events|
  {
    if events != [] {
      if events[0].Sync? {
        RunIsSafe(s, events[0].env);
      }
      HistoryCovered(Happened(s, events[0]), events[1..]);
    }
  }

  /** From a system that has never synced, after any history of writes, removals, partial table
      failures and failed runs, a run that succeeds leaves every primary row in the backup. */
  lemma SuccessfulSyncIsFullCopy(start: State, events: seq<Event>, env: Env)
    requires start.mark == None && AllAllowed(start, events)
    requires Ran(History(start, events), env).1.Ok?
    ensures var s, r := History(start, events), Ran(History(start, events), env).0;
            && r.backup == FullCopy(s.primary, s.backup)
            && forall t, id | 0 <= t < TABLES && id in s.primary[t] :: Holds(s.primary[t], r.backup[t], id)
  {
    HistoryCovered(start, events);
    RunIsSafe(History(start, events), env);
  }

  /** Why the stamp matters: a row written after a successful run is copied by the next successful
      run if and only if its stamp is later than the watermark or the backup has that row already. */
  lemma LateWriteCopiedIff(s: State, t: nat, id: Uuid, row: Row, env: Env)
    requires t < TABLES && s.mark.Some? && s.backup == FullCopy(s.primary, s.backup)
    requires Ran(s.(primary := s.primary[t := s.primary[t][id := row]]), env).1.Ok?
    ensures var w := s.(primary := s.primary[t := s.primary[t][id := row]]);
            Holds(w.primary[t], Ran(w, env).0.backup[t], id)
            <==> row.updatedAt > s.mark.value || (id in s.backup[t] && s.backup[t][id] == row)
  {
    var w := s.(primary := s.primary[t := s.primary[t][id := row]]);
    var b := Ran(w, env).0.backup;
    RetryOutcome(w.primary, w.backup, w.backup, w.mark, env.faults, 0, Retries(env.maxRetries));
    assert Between(w.primary[t], w.backup[t], b[t]);
    if row.updatedAt > s.mark.value {
      assert id in Changed(w.primary[t], w.mark);
    } else {
      RetrySkipsOld(w.primary, w.backup, w.mark, env.faults, 0, Retries(env.maxRetries), t, id);
    }
  }

  lemma {:induction false} CopySkipsOld(primary: Database, b: Database, since: Option<Time>, faults: nat -> Fault,
                                        from: nat, t: nat, id: Uuid)
    requires from <= TABLES && t < TABLES && id !in Changed(primary[t], since)
    ensures var r := Copied(primary, b, since, faults, from).0;
            (id in r[t] <==> id in b[t]) && (id in b[t] ==> r[t][id] == b[t][id])
    decreases TABLES - from
  {
    if from < TABLES {
      var (table, ok) := CopiedTable(primary[from], b[from], since, faults(from));
      if ok {
        CopySkipsOld(primary, b[from := table], since, faults, from + 1, t, id);
      }
    }
  }

  lemma {:induction false} RetrySkipsOld(primary: Database, b: Database, since: Option<Time>,
                                         faults: (nat, nat) -> Fault, attempt: nat, max: nat, t: nat, id: Uuid)
    requires attempt <= max && t < TABLES && id !in Changed(primary[t], since)
    ensures var r := Retried(primary, b, since, faults, attempt, max).0;
            (id in r[t] <==> id in b[t]) && (id in b[t] ==> r[t][id] == b[t][id])
    decreases max - attempt
  {
    if attempt < max {
      var once := (t: nat) => faults(attempt, t);
      CopySkipsOld(primary, b, since, once, 0, t, id);
      var (next, ok) := Copied(primary, b, since, once, 0);
      if !ok {
        RetrySkipsOld(primary, next, since, faults, attempt + 1, max, t, id);
      }
    }
  }

  // ---------- The syncer ----------

  // ---------- When a run succeeds, and where it leaves the watermark ----------

  /** A fault that does not stop the copy of this table: none, or a failing write with nothing to write. */
  ghost predicate Passes(p: Table, since: Option<Time>, fault: Fault) {
    match fault
    case NoFault => true
    case ReadFails => false
    case WriteFails(_) => forall id | id in p :: since.Some? && p[id].updatedAt <= since.value
  }

  lemma TablePasses(p: Table, b: Table, since: Option<Time>, fault: Fault)
    ensures CopiedTable(p, b, since, fault).1 <==> Passes(p, since, fault)
  {
    if fault.WriteFails? {
      if Changed(p, since) != map[] {
        var id :| id in Changed(p, since);
        assert id in p;
      } else {
        assert forall id | id in p :: id !in Changed(p, since);
      }
    }
  }

  lemma {:induction false} CopyPasses(primary: Database, b: Database, since: Option<Time>, faults: nat -> Fault, t: nat)
    requires t <= TABLES
    ensures Copied(primary, b, since, faults, t).1
            <==> forall u | t <= u < TABLES :: Passes(primary[u], since, faults(u))
    decreases TABLES - t
  {
    if t < TABLES {
      TablePasses(primary[t], b[t], since, faults(t));
      var (table, ok) := CopiedTable(primary[t], b[t], since, faults(t));
      CopyPasses(primary, b[t := table], since, faults, t + 1);
    }
  }

  ghost predicate AttemptPasses(primary: Database, since: Option<Time>, faults: (nat, nat) -> Fault, attempt: nat) {
    forall u | 0 <= u < 7 :: Passes(primary[u], since, faults(attempt, u))
  }

  lemma {:induction false} RetryPasses(primary: Database, b: Database, since: Option<Time>, faults: (nat, nat) -> Fault,
                                       attempt: nat, max: nat)
    requires attempt <= max
    ensures Retried(primary, b, since, faults, attempt, max).1
            <==> exists a :: attempt <= a < max && AttemptPasses(primary, since, faults, a)
    decreases max - attempt
  {
    if attempt < max {
      var tableFaults := (t: nat) => faults(attempt, t);
      CopyPasses(primary, b, since, tableFaults, 0);
      assert AttemptPasses(primary, since, faults, attempt)
             <==> forall u | 0 <= u < TABLES :: Passes(primary[u], since, tableFaults(u));
      RetryPasses(primary, Copied(primary, b, since, tableFaults, 0).0, since, faults, attempt + 1, max);
    }
  }

  /** A run succeeds exactly if the status store can be read and written and one of the attempts, three
      where no other number is set, gets through all seven tables. */
  lemma RunSucceedsIff(s: State, env: Env)
    ensures Ran(s, env).1.Ok?
            <==> && env.readable && env.writable
                 && exists a :: 0 <= a < (if env.maxRetries <= 0 then 3 else env.maxRetries)
                                && AttemptPasses(s.primary, s.mark, env.faults, a)
  {
    RetryPasses(s.primary, s.backup, s.mark, env.faults, 0, Retries(env.maxRetries));
  }

  /** The watermark after a run. A successful run sets it to the start of the second in which it ended. A
      failed one leaves it, except that it is lost when the status can be written at the end but not read. */
  lemma MarkAfterRun(s: State, env: Env)
    ensures var (after, r) := Ran(s, env);
            if r.Ok? then
              && after.mark.Some? && after.mark.value % 1_000_000_000 == 0
              && after.mark.value <= env.now < after.mark.value + 1_000_000_000
            else after.mark == if env.readable && env.writable && !env.readableAtEnd then None else s.mark
  {
  }

  /** What a full copy is, row by row: the primary's rows, and the backup's where the primary has none. */
  lemma FullCopyMeans(primary: Database, b: Database, t: nat, id: Uuid)
    requires t < 7
    ensures id in FullCopy(primary, b)[t] <==> id in primary[t] || id in b[t]
    ensures id in primary[t] ==> FullCopy(primary, b)[t][id] == primary[t][id]
    ensures id in b[t] && id !in primary[t] ==> FullCopy(primary, b)[t][id] == b[t][id]
  {
  }

  lemma CopiedTwice(primary: Database, b: Database)
    ensures FullCopy(primary, FullCopy(primary, b)) == FullCopy(primary, b)
  {
    forall t | 0 <= t < TABLES ensures FullCopy(primary, FullCopy(primary, b))[t] == FullCopy(primary, b)[t] {
      assert b[t] + primary[t] + primary[t] == b[t] + primary[t];
    }
  }

  /** A row written after a successful run is copied by the next run that succeeds if it is stamped later
      than the start of the second in which the first one ended; so in particular if it is stamped later
      than that end. */
  lemma LaterWriteIsCopied(s: State, env: Env, t: nat, id: Uuid, row: Row, next: Env)
    requires Covered(s) && Ran(s, env).1.Ok? && t < 7
    requires row.updatedAt > env.now - env.now % 1_000_000_000
    requires var w := Ran(s, env).0;
             Ran(w.(primary := w.primary[t := w.primary[t][id := row]]), next).1.Ok?
    ensures var w := Ran(s, env).0;
            var after := Ran(w.(primary := w.primary[t := w.primary[t][id := row]]), next).0;
            id in after.backup[t] && after.backup[t][id] == row
  {
    var w := Ran(s, env).0;
    RunIsSafe(s, env);
    MarkAfterRun(s, env);
    CopiedTwice(s.primary, s.backup);
    LateWriteCopiedIff(w, t, id, row, next);
  }

  /** The largest stamp among the rows, None when there are none. */
  ghost predicate IsNewest(rows: Table, newest: Option<Time>) {
    && (newest == None <==> rows.Keys == {})
    && (newest.Some? ==> exists id :: id in rows && rows[id].updatedAt == newest.value)
    && (newest.Some? ==> forall id | id in rows :: rows[id].updatedAt <= newest.value)
  }

  /** The number of rows one attempt copies from table `t` on. */
  ghost function RowsToCopy(primary: Database, since: Option<Time>, t: nat): nat
    requires t <= TABLES
    decreases TABLES - t
  {
    if t == TABLES then 0 else |Changed(primary[t], since)| + RowsToCopy(primary, since, t + 1)
  }

  /** Which rows are to be copied: those stamped later than the watermark, or all without one. */
  lemma ChangedMeans(p: Table, since: Option<Time>, id: Uuid)
    ensures id in Changed(p, since) <==> id in p && (since == None || p[id].updatedAt > since.value)
    ensures id in Changed(p, since) ==> Changed(p, since)[id] == p[id]
  {
  }

  class BackupUseCase {
    var primary: Database
    var backup: Database
    var mark: Option<Time>
    var status: string

    ghost function Value(): State
      reads this
    {
      State(primary, backup, mark)
    }

    constructor (primary: Database, backup: Database)
      ensures Value() == State(primary, backup, None)
    {
      this.primary, this.backup := primary, backup;
      mark, status := None, "ok";
    }

    /** The largest stamp among the rows. */
    static method Newest(rows: Table) returns (newest: Option<Time>)
      ensures IsNewest(rows, newest)
    {
      newest := None;
      var left := rows.Keys;
      while left != {}
        invariant left <= rows.Keys
        invariant newest == None <==> left == rows.Keys
        invariant newest.Some? ==> exists id :: id in rows && rows[id].updatedAt == newest.value
        invariant forall id | id in rows.Keys - left :: newest.Some? && rows[id].updatedAt <= newest.value
      {
        var id :| id in left;
        if newest.None? || rows[id].updatedAt > newest.value {
          newest := Some(rows[id].updatedAt);
        }
        left := left - {id};
      }
    }

    /** The write of syncRows: all the rows, or those a failing write still stores. */
    static method Upsert(table: Table, rows: Table, fault: Fault) returns (after: Table, ok: bool)
      ensures ok <==> !fault.WriteFails?
      ensures after == table + if fault.WriteFails? then Restricted(rows, fault.stored) else rows
    {
      ok := !fault.WriteFails?;
      after := table + if ok then rows else Restricted(rows, fault.stored);
    }

    /** syncRows: one table. The largest stamp is computed for the caller, which drops it. */
    method SyncRows(t: nat, since: Option<Time>, fault: Fault) returns (n: nat, maxUpdated: Option<Time>, ok: bool)
      requires t < TABLES
      modifies this`backup
      ensures backup == old(backup)[t := CopiedTable(primary[t], old(backup)[t], since, fault).0]
      ensures ok == CopiedTable(primary[t], old(backup)[t], since, fault).1
      ensures ok ==> n == |Changed(primary[t], since)| && IsNewest(Changed(primary[t], since), maxUpdated)
    {
      n, maxUpdated, ok := 0, None, !fault.ReadFails?;
      var table := backup[t];
      if ok {
        var rows := Changed(primary[t], since);
        if rows == map[] {
          assert table + rows == table;
        } else {
          n := |rows|;
          maxUpdated := Newest(rows);
          table, ok := Upsert(table, rows, fault);
        }
      }
      backup := backup[t := table];
    }

    method Sync(since: Option<Time>, faults: nat -> Fault) returns (syncedRows: nat, maxUpdated: Option<Time>, ok: bool)
      modifies this`backup
      ensures (backup, ok) == Copied(primary, old(backup), since, faults, 0)
      ensures ok ==> syncedRows == RowsToCopy(primary, since, 0)
    {
      syncedRows, maxUpdated, ok := 0, None, true;
      for t := 0 to TABLES
        invariant ok && Copied(primary, backup, since, faults, t) == Copied(primary, old(backup), since, faults, 0)
        invariant syncedRows + RowsToCopy(primary, since, t) == RowsToCopy(primary, since, 0)
      {
        var n, m;
        n, m, ok := SyncRows(t, since, faults(t));
        if !ok {
          return;
        }
        syncedRows := syncedRows + n;
        if m.Some? && (maxUpdated.None? || m.value > maxUpdated.value) {
          maxUpdated := m;
        }
      }
    }

    method RunSync(env: Env) returns (r: Result<(), Error>)
      modifies this
      ensures (Value(), r) == Ran(old(Value()), env)
      ensures status == if r.Ok? then "ok" else if env.readable && env.writable then "error" else old(status)
    {
      if !env.readable {
        return Err(StoreFailure);
      }
      var since := mark;
      var max := Retries(env.maxRetries);
      for attempt := 0 to max
        invariant primary == old(primary) && mark == old(mark) == since && status == old(status)
        invariant Retried(primary, backup, since, env.faults, attempt, max)
                  == Retried(primary, old(backup), since, env.faults, 0, max)
      {
        var n, m, ok := Sync(since, (t: nat) => env.faults(attempt, t));
        if ok {
          if !env.writable {
            return Err(StoreFailure);
          }
          mark, status := Some(WholeSeconds(env.now)), "ok";
          return Ok(());
        }
      }
      if env.writable {
        mark, status := if env.readableAtEnd then mark else None, "error";
      }
      r := Err(StoreFailure);
    }
  }
}
