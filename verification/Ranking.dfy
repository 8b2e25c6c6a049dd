/** Rebuilding and reading the ranking (usecase/ranking.go). */
module Ranking {
  import opened Common
  import opened Model

  datatype Row = Row(user: Uuid, username: string, wins: nat)

  datatype Ranked = Ranked(user: Uuid, rank: nat, username: string, wins: nat)
  {
    function AsRow(): Row { Row(user, username, wins) }
  }

  // ---------- The order ----------

  /** The order of strings: lexicographic. */
  predicate Less(a: string, b: string) {
    b != "" && (a == "" || a[0] < b[0] || (a[0] == b[0] && Less(a[1..], b[1..])))
  }

  predicate Ahead(a: Row, b: Row) {
    a.wins > b.wins || (a.wins == b.wins && Less(a.username, b.username))
  }

  lemma {:induction false} LessTotal(a: string, b: string)
    ensures !(Less(a, b) && Less(b, a))
    ensures a == b || Less(a, b) || Less(b, a)
    ensures !Less(a, a)
  {
    if a != "" {
      LessTotal(a[1..], if b != "" then b[1..] else "");
      if b != "" {
        assert a == [a[0]] + a[1..] && b == [b[0]] + b[1..];
      }
    }
  }

  /** There is a first place at which the names differ, and there `a` has ended or has the smaller
      character. */
  ghost predicate NameBefore(a: string, b: string) {
    exists k: nat :: k <= |a| && k < |b| && a[..k] == b[..k] && (k == |a| || a[k] < b[k])
  }

  lemma {:induction false} LessMeans(a: string, b: string)
    ensures Less(a, b) <==> NameBefore(a, b)
  {
    if a != "" && b != "" && a[0] == b[0] {
      LessMeans(a[1..], b[1..]);
      if NameBefore(a[1..], b[1..]) {
        var k: nat :| k <= |a[1..]| && k < |b[1..]| && a[1..][..k] == b[1..][..k]
                      && (k == |a[1..]| || a[1..][k] < b[1..][k]);
        assert a[..k + 1] == [a[0]] + a[1..][..k] && b[..k + 1] == [b[0]] + b[1..][..k];
        assert k + 1 == |a| || a[k + 1] < b[k + 1];
      }
      if NameBefore(a, b) {
        var k: nat :| k <= |a| && k < |b| && a[..k] == b[..k] && (k == |a| || a[k] < b[k]);
        assert k > 0;
        assert a[1..][..k - 1] == a[..k][1..] && b[1..][..k - 1] == b[..k][1..];
        assert k - 1 == |a[1..]| || a[1..][k - 1] < b[1..][k - 1];
      }
    } else if Less(a, b) {
      assert a[..0] == b[..0];
    }
  }

  lemma {:induction false} LessTransitive(a: string, b: string, c: string)
    requires Less(a, b) && Less(b, c)
    ensures Less(a, c)
  {
    if a != "" && a[0] == b[0] == c[0] {
      LessTransitive(a[1..], b[1..], c[1..]);
    }
  }

  lemma AheadTransitive(a: Row, b: Row, c: Row)
    requires Ahead(a, b) && Ahead(b, c)
    ensures Ahead(a, c)
  {
    if a.wins == b.wins == c.wins {
      LessTransitive(a.username, b.username, c.username);
    }
  }

  // ---------- What a ranking is ----------

  predicate UniqueNames(users: map<Uuid, User>) {
    forall u, v | u in users && v in users && users[u].username == users[v].username :: u == v
  }

  predicate IsEligible(u: User) {
    !u.IsDeleted() && !u.IsMaster()
  }

  function RowOf(users: map<Uuid, User>, id: Uuid): Row
    requires id in users
  {
    Row(id, users[id].username, users[id].winCount)
  }

  function Eligible(users: map<Uuid, User>): set<Row> {
    set id | id in users && IsEligible(users[id]) :: RowOf(users, id)
  }

  predicate StrictlySorted(rows: seq<Row>) {
    forall i, j | 0 <= i < j < |rows| :: Ahead(rows[i], rows[j])
  }

  /** The table holds exactly the eligible users, best first, numbered from one. */
  ghost predicate IsRanking(users: map<Uuid, User>, table: seq<Ranked>) {
    && (forall i | 0 <= i < |table| :: table[i].rank == i + 1)
    && (forall i | 0 <= i < |table| :: table[i].AsRow() in Eligible(users))
    && (forall e | e in Eligible(users) :: exists i :: 0 <= i < |table| && table[i].AsRow() == e)
    && (forall i, j | 0 <= i < j < |table| :: Ahead(table[i].AsRow(), table[j].AsRow()))
  }

  lemma {:induction false} PrefixSize(table: seq<Ranked>, n: nat)
    requires n <= |table|
    requires forall i, j | 0 <= i < j < |table| :: Ahead(table[i].AsRow(), table[j].AsRow())
    ensures |set i | 0 <= i < n :: table[i].AsRow()| == n
  {
    if n > 0 {
      PrefixSize(table, n - 1);
      var before := set i | 0 <= i < n - 1 :: table[i].AsRow();
      var last := table[n - 1].AsRow();
      if last in before {
        var i :| 0 <= i < n - 1 && table[i].AsRow() == last;
        LessTotal(last.username, last.username);
        assert false;
      }
      assert (set i | 0 <= i < n :: table[i].AsRow()) == before + {last};
    }
  }

  /** A user's rank is one more than the number of eligible users ahead of them. */
  lemma RankCountsAhead(users: map<Uuid, User>, table: seq<Ranked>, i: nat)
    requires IsRanking(users, table) && i < |table|
    ensures table[i].rank == 1 + |set e | e in Eligible(users) && Ahead(e, table[i].AsRow())|
  {
    var ahead := set e | e in Eligible(users) && Ahead(e, table[i].AsRow());
    var prefix := set k | 0 <= k < i :: table[k].AsRow();
    forall e | e in ahead ensures e in prefix {
      var k :| 0 <= k < |table| && table[k].AsRow() == e;
      LessTotal(e.username, table[i].username);
      assert k < i;
    }
    assert ahead == prefix;
    PrefixSize(table, i);
  }

  /** More wins, or as many and the earlier name. */
  ghost predicate Better(wins: nat, name: string, wins2: nat, name2: string) {
    wins > wins2 || (wins == wins2 && NameBefore(name, name2))
  }

  predicate Plays(u: User) {
    u.deletedAt == None && u.role == RegularUser
  }

  /** The ranking table in field terms: one row for every user who is not deleted and no administrator,
      with that user's name and wins, most wins first and by name among equals, numbered from one. */
  ghost predicate BestFirst(users: map<Uuid, User>, table: seq<Ranked>) {
    && (forall i | 0 <= i < |table| ::
          && table[i].rank == i + 1 && table[i].user in users && Plays(users[table[i].user])
          && table[i].username == users[table[i].user].username && table[i].wins == users[table[i].user].winCount)
    && (forall u | u in users && Plays(users[u]) :: exists i :: 0 <= i < |table| && table[i].user == u)
    && (forall i, j | 0 <= i < j < |table| ::
          && table[i].user != table[j].user && table[i].wins >= table[j].wins
          && (table[i].wins == table[j].wins ==> NameBefore(table[i].username, table[j].username)))
  }

  lemma RankingIsBestFirst(users: map<Uuid, User>, table: seq<Ranked>)
    requires IsRanking(users, table)
    ensures BestFirst(users, table)
  {
    forall i | 0 <= i < |table|
      ensures table[i].user in users && Plays(users[table[i].user])
      ensures table[i].username == users[table[i].user].username && table[i].wins == users[table[i].user].winCount
    {
      assert table[i].AsRow() in Eligible(users);
    }
    forall u | u in users && Plays(users[u]) ensures exists i :: 0 <= i < |table| && table[i].user == u {
      assert RowOf(users, u) in Eligible(users);
      var i :| 0 <= i < |table| && table[i].AsRow() == RowOf(users, u);
    }
    forall i, j | 0 <= i < j < |table|
      ensures table[i].user != table[j].user && table[i].wins >= table[j].wins
      ensures table[i].wins == table[j].wins ==> NameBefore(table[i].username, table[j].username)
    {
      assert Ahead(table[i].AsRow(), table[j].AsRow());
      LessMeans(table[i].username, table[j].username);
      LessTotal(table[i].username, table[i].username);
    }
  }

  lemma SortedIsBetter(rows: seq<Row>)
    requires StrictlySorted(rows)
    ensures forall i, j | 0 <= i < j < |rows| :: Better(rows[i].wins, rows[i].username, rows[j].wins, rows[j].username)
  {
    forall i, j | 0 <= i < j < |rows| ensures Better(rows[i].wins, rows[i].username, rows[j].wins, rows[j].username) {
      LessMeans(rows[i].username, rows[j].username);
    }
  }

  lemma {:induction false} PrefixUsers(table: seq<Ranked>, n: nat)
    requires n <= |table| && forall i, j | 0 <= i < j < |table| :: table[i].user != table[j].user
    ensures |set i | 0 <= i < n :: table[i].user| == n
  {
    if n > 0 {
      PrefixUsers(table, n - 1);
      var before := set i | 0 <= i < n - 1 :: table[i].user;
      assert table[n - 1].user !in before;
      assert (set i | 0 <= i < n :: table[i].user) == before + {table[n - 1].user};
    }
  }

  lemma BetterIsEarlier(users: map<Uuid, User>, table: seq<Ranked>, i: nat, k: nat)
    requires BestFirst(users, table) && i < |table| && k < |table|
    ensures Better(table[k].wins, table[k].username, table[i].wins, table[i].username) <==> k < i
  {
    LessMeans(table[k].username, table[i].username);
    LessMeans(table[i].username, table[k].username);
    LessTotal(table[k].username, table[i].username);
    LessTotal(table[i].username, table[i].username);
  }

  /** A user's rank is one more than the number of ranked users with more wins, or as many and an earlier
      name. */
  lemma RankCountsBetter(users: map<Uuid, User>, table: seq<Ranked>, i: nat)
    requires BestFirst(users, table) && i < |table|
    ensures table[i].rank == 1 + |set u | u in users && Plays(users[u])
                                          && Better(users[u].winCount, users[u].username,
                                                    table[i].wins, table[i].username)|
  {
    var better := set u | u in users && Plays(users[u])
                          && Better(users[u].winCount, users[u].username, table[i].wins, table[i].username);
    var prefix := set k | 0 <= k < i :: table[k].user;
    forall u ensures u in better <==> u in prefix {
      if u in users && Plays(users[u]) {
        var k :| 0 <= k < |table| && table[k].user == u;
        BetterIsEarlier(users, table, i, k);
      }
      if u in prefix {
        var k :| 0 <= k < i && table[k].user == u;
        BetterIsEarlier(users, table, i, k);
      }
    }
    assert better == prefix;
    PrefixUsers(table, i);
  }

  /** Two rankings of the same users are equal, so it does not matter which sort made them. */
  lemma RankingUnique(users: map<Uuid, User>, a: seq<Ranked>, b: seq<Ranked>)
    requires IsRanking(users, a) && IsRanking(users, b)
    ensures a == b
  {
    SameRows(users, a, b);
    SameRows(users, b, a);
  }

  lemma SameRows(users: map<Uuid, User>, a: seq<Ranked>, b: seq<Ranked>)
    requires IsRanking(users, a) && IsRanking(users, b)
    ensures a <= b
  {
    forall i | 0 <= i < |a| ensures i < |b| && a[i] == b[i] {
      var e := a[i].AsRow();
      assert e in Eligible(users);
      var k :| 0 <= k < |b| && b[k].AsRow() == e;
      RankCountsAhead(users, a, i);
      RankCountsAhead(users, b, k);
      assert k == i;
    }
    if a != [] {
      var last := a[|a| - 1];
      assert |a| <= |b|;
    }
  }

  // ---------- Sorting ----------

  function Insert(r: Row, rows: seq<Row>): (s: seq<Row>)
    ensures multiset(s) == multiset(rows) + multiset{r}
  {
    if rows != [] && Ahead(rows[0], r) then
      assert rows == [rows[0]] + rows[1..];
      [rows[0]] + Insert(r, rows[1..])
    else [r] + rows
  }

  /** Stands for sort.Slice. Any other sort gives the same ranking, by RankingUnique. */
  function Sort(rows: seq<Row>): (s: seq<Row>)
    ensures multiset(s) == multiset(rows)
  {
    if rows == [] then []
    else
      assert rows == [rows[0]] + rows[1..];
      Insert(rows[0], Sort(rows[1..]))
  }

  predicate NamesDiffer(rows: seq<Row>) {
    forall i, j | 0 <= i < j < |rows| :: rows[i].username != rows[j].username
  }

  lemma {:induction false} InsertSorted(r: Row, rows: seq<Row>)
    requires StrictlySorted(rows) && forall x | x in rows :: x.username != r.username
    ensures StrictlySorted(Insert(r, rows))
  {
    if rows != [] && Ahead(rows[0], r) {
      var rest := Insert(r, rows[1..]);
      InsertSorted(r, rows[1..]);
      forall j | 0 <= j < |rest| ensures Ahead(rows[0], rest[j]) {
        assert rest[j] in multiset(rest);
        assert rest[j] == r || rest[j] in rows[1..];
      }
    } else {
      forall j | 0 <= j < |rows| ensures Ahead(r, rows[j]) {
        assert rows[j] in rows && rows[0] in rows;
        LessTotal(r.username, rows[0].username);
        if j > 0 { AheadTransitive(r, rows[0], rows[j]); }
      }
    }
  }

  lemma {:induction false} SortSorted(rows: seq<Row>)
    requires NamesDiffer(rows)
    ensures StrictlySorted(Sort(rows))
  {
    if rows != [] {
      SortSorted(rows[1..]);
      forall x | x in Sort(rows[1..]) ensures x.username != rows[0].username {
        assert x in multiset(rows[1..]);
        var k :| 0 <= k < |rows[1..]| && rows[1..][k] == x;
        assert rows[1..][k] == rows[k + 1];
      }
      InsertSorted(rows[0], Sort(rows[1..]));
    }
  }

  // ---------- The use case ----------

  /** `users` in the order the database happened to list them. */
  predicate Lists(users: map<Uuid, User>, listing: seq<Uuid>) {
    && (forall i | 0 <= i < |listing| :: listing[i] in users)
    && (forall i, j | 0 <= i < j < |listing| :: listing[i] != listing[j])
    && (forall u | u in users :: u in listing)
  }

  class RankingUseCase {
    /** The rankings table in rank order. */
    var table: seq<Ranked>

    constructor ()
      ensures table == []
    {
      table := [];
    }

    /** The eligible users in listing order. */
    static method Collect(users: map<Uuid, User>, listing: seq<Uuid>) returns (rows: seq<Row>)
      requires UniqueNames(users) && Lists(users, listing)
      ensures NamesDiffer(rows)
      ensures forall r :: r in rows <==> r in Eligible(users)
    {
      rows := [];
      for i := 0 to |listing|
        invariant NamesDiffer(rows)
        invariant forall r | r in rows ::
                    r.user in listing[..i] && IsEligible(users[r.user]) && RowOf(users, r.user) == r
        invariant forall k | 0 <= k < i && IsEligible(users[listing[k]]) :: RowOf(users, listing[k]) in rows
      {
        var u := users[listing[i]];
        assert listing[i] !in listing[..i];
        if u.IsDeleted() || u.IsMaster() {
          continue;
        }
        rows := rows + [RowOf(users, listing[i])];
      }
      forall r | r in Eligible(users) ensures r in rows {
        assert r.user in listing;
      }
    }

    static method ListForRebuild(users: map<Uuid, User>, listing: seq<Uuid>) returns (rows: seq<Row>)
      requires UniqueNames(users) && Lists(users, listing)
      ensures StrictlySorted(rows)
      ensures forall i, j | 0 <= i < j < |rows| ::
                Better(rows[i].wins, rows[i].username, rows[j].wins, rows[j].username)
      ensures forall r :: r in rows <==> r in Eligible(users)
    {
      rows := Collect(users, listing);
      SortSorted(rows);
      assert forall r :: r in rows <==> r in multiset(rows);
      rows := Sort(rows);
      assert forall r :: r in rows <==> r in multiset(rows);
      SortedIsBetter(rows);
    }

    method Rebuild(users: map<Uuid, User>, listing: seq<Uuid>)
      requires UniqueNames(users) && Lists(users, listing)
      modifies this
      ensures IsRanking(users, table) && BestFirst(users, table)
    {
      var rows := ListForRebuild(users, listing);
      var rankings: seq<Ranked> := [];
      for i := 0 to |rows|
        invariant |rankings| == i
        invariant forall k | 0 <= k < i :: rankings[k].AsRow() == rows[k] && rankings[k].rank == k + 1
      {
        rankings := rankings + [Ranked(rows[i].user, i + 1, rows[i].username, rows[i].wins)];
      }
      forall e | e in Eligible(users) ensures exists i :: 0 <= i < |rankings| && rankings[i].AsRow() == e {
        assert e in rows;
        var i :| 0 <= i < |rows| && rows[i] == e;
        assert rankings[i].AsRow() == e;
      }
      table := rankings;
      RankingIsBestFirst(users, table);
    }

    /** The first three of the ranking, whoever they are, and all of it when it is shorter. */
    method Get() returns (top: seq<Ranked>)
      ensures top <= table && |top| == if |table| < 3 then |table| else 3
    {
      var rows := table;
      if |rows| > 3 {
        rows := rows[..3];
      }
      top := [];
      for i := 0 to |rows|
        invariant top == rows[..i]
      {
        top := top + [rows[i]];
      }
    }
  }
}
