/** Leaderboards and ranks (pond-sec/app/scoring.py). */
module Scoring {
  import Schema

  /** A user; system administrators do not compete. */
  datatype User = User(id: nat, username: string, sysadmin: bool)

  datatype Solve = Solve(userId: nat, points: int, solvedAt: nat)

  datatype Row = Row(userId: nat, username: string, score: int, lastSolved: Schema.Option<nat>, solvedCount: nat,
                     flagsPlayed: nat)

  datatype Ranked = Ranked(row: Row, rank: nat)

  // ----- the table behind the boards -----------------------------------------------------------

  function Score(solves: seq<Solve>, userId: nat): int {
    if solves == [] then 0
    else
      var last := solves[|solves| - 1];
      Score(solves[..|solves| - 1], userId) + if last.userId == userId then last.points else 0
  }

  function LastSolved(solves: seq<Solve>, userId: nat): Schema.Option<nat> {
    if solves == [] then Schema.None
    else
      var before, last := LastSolved(solves[..|solves| - 1], userId), solves[|solves| - 1];
      if last.userId != userId then before
      else Schema.Some(if before.Some? && before.value > last.solvedAt then before.value else last.solvedAt)
  }

  function SolvedCount(solves: seq<Solve>, userId: nat): nat {
    if solves == [] then 0
    else SolvedCount(solves[..|solves| - 1], userId) + if solves[|solves| - 1].userId == userId then 1 else 0
  }

  /** How many of the submitted flags, listed by their users, are this user's. */
  function FlagsPlayed(plays: seq<nat>, userId: nat): nat {
    if plays == [] then 0 else FlagsPlayed(plays[..|plays| - 1], userId) + if plays[|plays| - 1] == userId then 1 else 0
  }

  function RowOf(solves: seq<Solve>, plays: seq<nat>, user: User): Row {
    Row(user.id, user.username, Score(solves, user.id), LastSolved(solves, user.id), SolvedCount(solves, user.id),
        FlagsPlayed(plays, user.id))
  }

  /** A row for every user who competes. */
  function Rows(users: seq<User>, solves: seq<Solve>, plays: seq<nat>): seq<Row> {
    if users == [] then []
    else
      var before, user := Rows(users[..|users| - 1], solves, plays), users[|users| - 1];
      if user.sysadmin then before else before + [RowOf(solves, plays, user)]
  }

  // ----- what the rows say ------------------------------------------------------------------------

  /** The last solve of a user: none exactly without solves, else the greatest of the user's
      times. */
  lemma {:induction false} LastIsGreatest(solves: seq<Solve>, userId: nat)
    ensures LastSolved(solves, userId).None? <==> forall s <- solves :: s.userId != userId
    ensures LastSolved(solves, userId).Some? ==>
              && (exists s <- solves :: s.userId == userId && s.solvedAt == LastSolved(solves, userId).value)
              && (forall s <- solves :: s.userId == userId ==> s.solvedAt <= LastSolved(solves, userId).value)
    decreases |solves|
  {
    if solves != [] {
      var n := |solves| - 1;
      LastIsGreatest(solves[..n], userId);
      assert solves == solves[..n] + [solves[n]];
      assert solves[n] in solves;
    }
  }

  /** Scores and counts add up, solve by solve and play by play. */
  lemma {:induction false} TotalsAdd(a: seq<Solve>, b: seq<Solve>, userId: nat)
    ensures Score(a + b, userId) == Score(a, userId) + Score(b, userId)
    ensures SolvedCount(a + b, userId) == SolvedCount(a, userId) + SolvedCount(b, userId)
    ensures |b| == 1 ==> Score(b, userId) == (if b[0].userId == userId then b[0].points else 0)
                         && SolvedCount(b, userId) == if b[0].userId == userId then 1 else 0
    decreases |b|
  {
    if b == [] {
      assert a + b == a;
    } else {
      var n := |b| - 1;
      assert (a + b)[..|a + b| - 1] == a + b[..n];
      TotalsAdd(a, b[..n], userId);
    }
  }

  lemma {:induction false} PlaysCounted(plays: seq<nat>, userId: nat)
    ensures FlagsPlayed(plays, userId) == multiset(plays)[userId]
    decreases |plays|
  {
    if plays != [] {
      var n := |plays| - 1;
      PlaysCounted(plays[..n], userId);
      assert plays == plays[..n] + [plays[n]];
    }
  }

  lemma {:induction false} SameTotals(a: seq<Solve>, b: seq<Solve>, userId: nat)
    requires multiset(a) == multiset(b)
    ensures Score(a, userId) == Score(b, userId) && SolvedCount(a, userId) == SolvedCount(b, userId)
    decreases |a|
  {
    if a == [] {
      assert |multiset(b)| == 0;
    } else {
      var n, last := |a| - 1, a[|a| - 1];
      assert last in multiset(a);
      var k :| 0 <= k < |b| && b[k] == last;
      assert a == a[..n] + [last];
      assert b == b[..k] + [last] + b[k + 1..];
      assert multiset(b[..k] + b[k + 1..]) == multiset(b) - multiset{last} == multiset(a[..n]);
      SameTotals(a[..n], b[..k] + b[k + 1..], userId);
      TotalsAdd(a[..n], [last], userId);
      TotalsAdd(b[..k] + [last], b[k + 1..], userId);
      TotalsAdd(b[..k], [last], userId);
      TotalsAdd(b[..k], b[k + 1..], userId);
    }
  }

  lemma SameLast(a: seq<Solve>, b: seq<Solve>, userId: nat)
    requires multiset(a) == multiset(b)
    ensures LastSolved(a, userId) == LastSolved(b, userId)
  {
    LastIsGreatest(a, userId);
    LastIsGreatest(b, userId);
    forall s ensures s in a <==> s in b {
      assert s in multiset(a) <==> s in multiset(b);
    }
  }

  /** The row of a user depends on which solves and plays there are, never on their order. */
  lemma RowInAnyOrder(solves: seq<Solve>, plays: seq<nat>, others: seq<Solve>, replays: seq<nat>, user: User)
    requires multiset(solves) == multiset(others) && multiset(plays) == multiset(replays)
    ensures RowOf(solves, plays, user) == RowOf(others, replays, user)
  {
    SameTotals(solves, others, user.id);
    SameLast(solves, others, user.id);
    PlaysCounted(plays, user.id);
    PlaysCounted(replays, user.id);
  }

  // ----- order ----------------------------------------------------------------------------------

  /** Alphabetical order of user names. */
  predicate NameBefore(a: string, b: string) {
    b != [] && (a == [] || a[0] < b[0] || (a[0] == b[0] && NameBefore(a[1..], b[1..])))
  }

  /** The sort key: high scores first, then early last solves, none last, then names. */
  predicate Before(a: Row, b: Row) {
    if a.score != b.score then a.score > b.score
    else if a.lastSolved != b.lastSolved then
      a.lastSolved.Some? && (b.lastSolved.None? || a.lastSolved.value < b.lastSolved.value)
    else NameBefore(a.username, b.username)
  }

  /** `row` goes behind everything that it is not to stand before. */
  function Insert(sorted: seq<Row>, row: Row): (r: seq<Row>)
    ensures |r| == |sorted| + 1
  {
    if sorted == [] || !Before(row, sorted[|sorted| - 1]) then sorted + [row]
    else Insert(sorted[..|sorted| - 1], row) + [sorted[|sorted| - 1]]
  }

  /** A stable sort. */
  function Sorted(rows: seq<Row>): (r: seq<Row>)
    ensures |r| == |rows|
  {
    if rows == [] then [] else Insert(Sorted(rows[..|rows| - 1]), rows[|rows| - 1])
  }

  ghost predicate Descending(rows: seq<Row>) {
    forall i, j :: 0 <= i < j < |rows| ==> rows[i].score >= rows[j].score
  }

  /** No row is to stand before one in front of it. */
  ghost predicate InOrder(rows: seq<Row>) {
    forall i, j :: 0 <= i < j < |rows| ==> !Before(rows[j], rows[i])
  }

  lemma InOrderDescends(rows: seq<Row>)
    requires InOrder(rows)
    ensures Descending(rows)
  {
    hide NameBefore;
  }

  lemma {:induction false} NameTransitive(a: string, b: string, c: string)
    requires !NameBefore(a, b) && !NameBefore(b, c)
    ensures !NameBefore(a, c)
    decreases |c|
  {
    if c != [] && b != [] && a != [] && a[0] == b[0] == c[0] {
      NameTransitive(a[1..], b[1..], c[1..]);
    }
  }

  lemma {:induction false} NameAsymmetric(a: string, b: string)
    requires NameBefore(a, b)
    ensures !NameBefore(b, a)
    decreases |a|
  {
    if a != [] && a[0] == b[0] {
      NameAsymmetric(a[1..], b[1..]);
    }
  }

  lemma BeforeTransitive(a: Row, b: Row, c: Row)
    requires !Before(a, b) && !Before(b, c)
    ensures !Before(a, c)
  {
    hide NameBefore;
    if a.score == b.score == c.score && a.lastSolved == b.lastSolved == c.lastSolved {
      NameTransitive(a.username, b.username, c.username);
    }
  }

  lemma BeforeAsymmetric(a: Row, b: Row)
    requires Before(a, b)
    ensures !Before(b, a)
  {
    hide NameBefore;
    if a.score == b.score && a.lastSolved == b.lastSolved {
      NameAsymmetric(a.username, b.username);
    }
  }

  /** Rows with distinct names are never tied. */
  lemma {:induction false} NamesDecide(a: string, b: string)
    requires !NameBefore(a, b) && !NameBefore(b, a)
    ensures a == b
    decreases |a|
  {
    if a != [] && b != [] {
      NamesDecide(a[1..], b[1..]);
    }
  }

  // ----- ranks -----------------------------------------------------------------------------------

  /** The rank that one pass gives row `k`: that of an equal score just before, else the
      position. */
  function RankAt(rows: seq<Row>, k: nat): nat
    requires k < |rows|
  {
    if k > 0 && rows[k].score == rows[k - 1].score then RankAt(rows, k - 1) else k + 1
  }

  function WithRanks(rows: seq<Row>): seq<Ranked> {
    seq(|rows|, k requires 0 <= k < |rows| => Ranked(rows[k], RankAt(rows, k)))
  }

  method RankRows(rows: seq<Row>) returns (ranked: seq<Ranked>)
    ensures ranked == WithRanks(rows)
  {
    ranked := [];
    var previousScore: Schema.Option<int> := Schema.None;
    var previousRank: nat := 0;
    for i := 0 to |rows|
      invariant ranked == WithRanks(rows)[..i]
      invariant if i == 0 then previousScore.None? else previousScore == Schema.Some(rows[i - 1].score)
      invariant i > 0 ==> previousRank == RankAt(rows, i - 1)
    {
      if Schema.Some(rows[i].score) == previousScore {
        ranked := ranked + [Ranked(rows[i], previousRank)];
      } else {
        ranked := ranked + [Ranked(rows[i], i + 1)];
        previousRank := i + 1;
        previousScore := Schema.Some(rows[i].score);
      }
    }
  }

  method SumPoints(solves: seq<Solve>, userId: nat) returns (score: int)
    ensures score == Score(solves, userId)
  {
    score := 0;
    for i := 0 to |solves|
      invariant score == Score(solves[..i], userId)
    {
      assert solves[..i + 1][..i] == solves[..i];
      if solves[i].userId == userId {
        score := score + solves[i].points;
      }
    }
    assert solves[..|solves|] == solves;
  }

  method OverallLeaderboard(users: seq<User>, solves: seq<Solve>, plays: seq<nat>, limit: nat)
    returns (board: seq<Ranked>)
    ensures board == WithRanks(Top(Sorted(Rows(users, solves, plays)), limit))
  {
    var rows: seq<Row> := [];
    for i := 0 to |users|
      invariant rows == Rows(users[..i], solves, plays)
    {
      assert users[..i + 1][..i] == users[..i];
      var user := users[i];
      if !user.sysadmin {
        var score := SumPoints(solves, user.id);
        rows := rows + [Row(user.id, user.username, score, LastSolved(solves, user.id), SolvedCount(solves, user.id),
                            FlagsPlayed(plays, user.id))];
      }
    }
    assert users[..|users|] == users;
    board := RankRows(Top(Sorted(rows), limit));
  }

  /** `rows[:limit]`. */
  function Top(rows: seq<Row>, limit: nat): seq<Row> {
    if limit <= |rows| then rows[..limit] else rows
  }

  /** How many of the competing users have a higher score. */
  function Higher(users: seq<User>, solves: seq<Solve>, score: int): nat {
    if users == [] then 0
    else
      var user := users[|users| - 1];
      Higher(users[..|users| - 1], solves, score) + if !user.sysadmin && Score(solves, user.id) > score then 1 else 0
  }

  /** The rank on a user's own page; none for a system administrator. */
  method RankOf(users: seq<User>, solves: seq<Solve>, me: User) returns (rank: Schema.Option<nat>)
    ensures rank == if me.sysadmin then Schema.None else Schema.Some(1 + Higher(users, solves, Score(solves, me.id)))
  {
    var score := SumPoints(solves, me.id);
    if me.sysadmin {
      return Schema.None;
    }
    var higherScorers := 0;
    for i := 0 to |users|
      invariant higherScorers == Higher(users[..i], solves, score)
    {
      assert users[..i + 1][..i] == users[..i];
      var other := users[i];
      if other.sysadmin || other.id == me.id {
        continue;
      }
      var otherScore := SumPoints(solves, other.id);
      if otherScore > score {
        higherScorers := higherScorers + 1;
      }
    }
    assert users[..|users|] == users;
    return Schema.Some(higherScorers + 1);
  }

  // ----- the boards agree with the pages ------------------------------------------------------------

  /** Rows with a higher score. */
  function Above(rows: seq<Row>, score: int): nat {
    if rows == [] then 0 else Above(rows[..|rows| - 1], score) + if rows[|rows| - 1].score > score then 1 else 0
  }

  lemma AbovePush(rows: seq<Row>, row: Row, score: int)
    ensures Above(rows + [row], score) == Above(rows, score) + if row.score > score then 1 else 0
  {
    assert (rows + [row])[..|rows|] == rows;
  }

  lemma {:induction false} InsertCounts(sorted: seq<Row>, row: Row, score: int)
    ensures Above(Insert(sorted, row), score) == Above(sorted, score) + if row.score > score then 1 else 0
    decreases |sorted|
  {
    hide Before;
    var n := |sorted| - 1;
    if sorted == [] || !Before(row, sorted[n]) {
      AbovePush(sorted, row, score);
    } else {
      InsertCounts(sorted[..n], row, score);
      AbovePush(Insert(sorted[..n], row), sorted[n], score);
    }
  }

  lemma {:induction false} InsertKeeps(sorted: seq<Row>, row: Row)
    ensures multiset(Insert(sorted, row)) == multiset(sorted) + multiset{row}
    decreases |sorted|
  {
    hide Before;
    var n := |sorted| - 1;
    if sorted != [] && Before(row, sorted[n]) {
      InsertKeeps(sorted[..n], row);
      LastRow(sorted);
    }
  }

  lemma {:induction false} InsertOrders(sorted: seq<Row>, row: Row)
    requires InOrder(sorted)
    ensures InOrder(Insert(sorted, row))
    decreases |sorted|
  {
    hide Before;
    var n := |sorted| - 1;
    if sorted != [] && Before(row, sorted[n]) {
      InsertOrders(sorted[..n], row);
      InsertInFront(sorted, row);
    } else {
      forall i | 0 <= i < |sorted| ensures !Before(row, sorted[i]) {
        if i < n {
          BeforeTransitive(row, sorted[n], sorted[i]);
        }
      }
    }
  }

  lemma InsertInFront(sorted: seq<Row>, row: Row)
    requires InOrder(sorted) && sorted != [] && Before(row, sorted[|sorted| - 1])
    ensures var n := |sorted| - 1;
            forall i :: 0 <= i < |Insert(sorted[..n], row)| ==> !Before(sorted[n], Insert(sorted[..n], row)[i])
  {
    hide Before, Insert;
    var n := |sorted| - 1;
    var front := Insert(sorted[..n], row);
    BeforeAsymmetric(row, sorted[n]);
    InsertKeeps(sorted[..n], row);
    forall i | 0 <= i < |front| ensures !Before(sorted[n], front[i]) {
      assert front[i] in multiset(front);
      assert front[i] in multiset(sorted[..n]) + multiset{row};
    }
  }

  ghost predicate IsBoard(sorted: seq<Row>, rows: seq<Row>, score: int) {
    InOrder(sorted) && multiset(sorted) == multiset(rows) && Above(sorted, score) == Above(rows, score)
  }

  lemma BoardStep(sorted: seq<Row>, rows: seq<Row>, row: Row, score: int)
    requires IsBoard(sorted, rows, score)
    ensures IsBoard(Insert(sorted, row), rows + [row], score)
  {
    hide Insert, InOrder, Above;
    InsertOrders(sorted, row);
    InsertKeeps(sorted, row);
    InsertCounts(sorted, row, score);
    AbovePush(rows, row, score);
  }

  lemma SortedLast(rows: seq<Row>)
    requires rows != []
    ensures Sorted(rows) == Insert(Sorted(rows[..|rows| - 1]), rows[|rows| - 1])
  {
    hide Insert;
  }

  lemma LastRow(rows: seq<Row>)
    requires rows != []
    ensures rows == rows[..|rows| - 1] + [rows[|rows| - 1]]
  {
  }

  /** Sorting keeps the rows and puts them in the order of the key: high scores first, then
      early last solves, then names. */
  lemma {:induction false} SortedIsBoard(rows: seq<Row>, score: int)
    ensures IsBoard(Sorted(rows), rows, score)
    decreases |rows|
  {
    if rows != [] {
      hide Insert, IsBoard, Sorted;
      var n := |rows| - 1;
      SortedLast(rows);
      LastRow(rows);
      SortedIsBoard(rows[..n], score);
      BoardStep(Sorted(rows[..n]), rows[..n], rows[n], score);
    } else {
      assert Sorted(rows) == [];
    }
  }

  /** Up to place `k` the names agree, and there the first one ends or has the lower character. */
  predicate DifferAt(a: string, b: string, k: nat) {
    k <= |a| && k < |b| && a[..k] == b[..k] && (k == |a| || a[k] < b[k])
  }

  lemma {:induction false} NamesDiffer(a: string, b: string)
    ensures NameBefore(a, b) <==> exists k: nat :: DifferAt(a, b, k)
    decreases |a|
  {
    if a != [] && b != [] {
      NamesDiffer(a[1..], b[1..]);
      forall k: nat | DifferAt(a, b, k) && k > 0 ensures DifferAt(a[1..], b[1..], k - 1) {
        assert a[..k][1..] == a[1..][..k - 1] && b[..k][1..] == b[1..][..k - 1];
      }
      forall k: nat | DifferAt(a[1..], b[1..], k) && a[0] == b[0] ensures DifferAt(a, b, k + 1) {
        assert a[..k + 1] == [a[0]] + a[1..][..k] && b[..k + 1] == [b[0]] + b[1..][..k];
      }
    }
    assert b != [] && (a == [] || a[0] < b[0]) ==> DifferAt(a, b, 0);
  }

  /** Of two rows of the board the upper one has the higher score; at equal scores the earlier
      last solve, where none counts as latest; and then not the later name. */
  lemma BoardOrder(rows: seq<Row>, i: nat, j: nat)
    requires i < j < |rows|
    ensures var a, b := Sorted(rows)[i], Sorted(rows)[j];
            && a.score >= b.score
            && (a.score == b.score && b.lastSolved.Some? ==>
                  a.lastSolved.Some? && a.lastSolved.value <= b.lastSolved.value)
            && (a.score == b.score && a.lastSolved == b.lastSolved ==>
                  !exists k: nat :: DifferAt(b.username, a.username, k))
  {
    hide NameBefore, Sorted;
    SortedIsBoard(rows, 0);
    assert !Before(Sorted(rows)[j], Sorted(rows)[i]);
    NamesDiffer(Sorted(rows)[j].username, Sorted(rows)[i].username);
  }

  /** Two rows of one name are the same row. */
  ghost predicate NamesTell(rows: seq<Row>) {
    forall x, y :: x in rows && y in rows && x.username == y.username ==> x == y
  }

  lemma TiedRows(x: Row, y: Row)
    requires !Before(x, y) && !Before(y, x)
    ensures x.username == y.username
  {
    hide NameBefore;
    NamesDecide(x.username, y.username);
  }

  lemma SameEnd(a: seq<Row>, b: seq<Row>)
    requires InOrder(a) && InOrder(b) && multiset(a) == multiset(b) && NamesTell(a) && a != [] && b != []
    ensures a[|a| - 1] == b[|b| - 1]
  {
    hide Before;
    var x, y := a[|a| - 1], b[|b| - 1];
    if x != y {
      assert x in multiset(b) && y in multiset(a);
      TiedRows(x, y);
    }
  }

  lemma FrontRows(a: seq<Row>)
    requires a != [] && InOrder(a) && NamesTell(a)
    ensures InOrder(a[..|a| - 1]) && NamesTell(a[..|a| - 1])
    ensures multiset(a[..|a| - 1]) == multiset(a) - multiset{a[|a| - 1]}
  {
    hide Before;
    LastRow(a);
  }

  lemma {:induction false} OrderIsUnique(a: seq<Row>, b: seq<Row>)
    requires InOrder(a) && InOrder(b) && multiset(a) == multiset(b) && NamesTell(a) && NamesTell(b)
    ensures a == b
    decreases |a|
  {
    assert |a| == |multiset(a)| == |multiset(b)| == |b|;
    if a != [] {
      SameEnd(a, b);
      FrontRows(a);
      FrontRows(b);
      hide InOrder, NamesTell;
      OrderIsUnique(a[..|a| - 1], b[..|b| - 1]);
      LastRow(a);
      LastRow(b);
    }
  }

  /** With distinct user names the board is the only list of its rows in this order, however
      the users were listed. */
  lemma OnlyBoard(rows: seq<Row>, other: seq<Row>)
    requires NamesTell(rows) && multiset(other) == multiset(rows) && InOrder(other)
    ensures other == Sorted(rows)
  {
    SortedIsBoard(rows, 0);
    SameNames(rows, other);
    SameNames(rows, Sorted(rows));
    OrderIsUnique(other, Sorted(rows));
  }

  lemma SameNames(rows: seq<Row>, other: seq<Row>)
    requires NamesTell(rows) && multiset(other) == multiset(rows)
    ensures NamesTell(other)
  {
    forall x | x in other ensures x in rows {
      assert x in multiset(other);
    }
  }

  lemma {:induction false} RowsAbove(users: seq<User>, solves: seq<Solve>, plays: seq<nat>, score: int)
    ensures Above(Rows(users, solves, plays), score) == Higher(users, solves, score)
    decreases |users|
  {
    if users != [] {
      var n := |users| - 1;
      RowsAbove(users[..n], solves, plays, score);
      if !users[n].sysadmin {
        AbovePush(Rows(users[..n], solves, plays), RowOf(solves, plays, users[n]), score);
      }
    }
  }

  /** Of the rows in front, `k` are higher when all of them are. */
  lemma {:induction false} AllAbove(rows: seq<Row>, k: nat, score: int)
    requires k <= |rows|
    requires forall i :: 0 <= i < |rows| ==> (rows[i].score > score <==> i < k)
    ensures Above(rows, score) == k
    decreases |rows|
  {
    if rows != [] {
      AllAbove(rows[..|rows| - 1], if k == |rows| then k - 1 else k, score);
    }
  }

  /** The one-pass rank is one more than the number of higher scores. */
  lemma {:induction false} RankCounts(rows: seq<Row>, k: nat)
    requires Descending(rows) && k < |rows|
    ensures RankAt(rows, k) == 1 + Above(rows, rows[k].score)
    decreases k
  {
    if k > 0 && rows[k].score == rows[k - 1].score {
      RankCounts(rows, k - 1);
    } else {
      AllAbove(rows, k, rows[k].score);
    }
  }

  /** Cutting a board off below a row does not change its rank. */
  lemma {:induction false} CutKeepsRank(rows: seq<Row>, limit: nat, k: nat)
    requires k < limit <= |rows|
    ensures RankAt(rows[..limit], k) == RankAt(rows, k)
    decreases k
  {
    if k > 0 {
      CutKeepsRank(rows, limit, k - 1);
    }
  }

  /** The row is a competing user's own. */
  ghost predicate OwnRow(users: seq<User>, solves: seq<Solve>, plays: seq<nat>, row: Row) {
    exists i :: 0 <= i < |users| && !users[i].sysadmin && row == RowOf(solves, plays, users[i])
  }

  lemma OwnRowStays(users: seq<User>, solves: seq<Solve>, plays: seq<nat>, row: Row)
    requires users != [] && OwnRow(users[..|users| - 1], solves, plays, row)
    ensures OwnRow(users, solves, plays, row)
  {
    hide RowOf;
    var front := users[..|users| - 1];
    var i :| 0 <= i < |front| && !front[i].sysadmin && row == RowOf(solves, plays, front[i]);
    assert !users[i].sysadmin && row == RowOf(solves, plays, users[i]);
  }

  lemma {:induction false} RowsAreUsers(users: seq<User>, solves: seq<Solve>, plays: seq<nat>, k: nat)
    requires k < |Rows(users, solves, plays)|
    ensures OwnRow(users, solves, plays, Rows(users, solves, plays)[k])
    decreases |users|
  {
    hide RowOf;
    var n := |users| - 1;
    var before := Rows(users[..n], solves, plays);
    if k < |before| {
      RowsAreUsers(users[..n], solves, plays, k);
      OwnRowStays(users, solves, plays, before[k]);
    } else {
      assert !users[n].sysadmin && Rows(users, solves, plays)[k] == RowOf(solves, plays, users[n]);
    }
  }

  lemma BoardParts(sorted: seq<Row>, rows: seq<Row>, score: int, k: nat) returns (i: nat)
    requires IsBoard(sorted, rows, score) && k < |sorted|
    ensures Descending(sorted) && Above(sorted, score) == Above(rows, score) && i < |rows| && rows[i] == sorted[k]
  {
    hide Descending, InOrder, Above;
    InOrderDescends(sorted);
    assert sorted[k] in multiset(sorted);
    assert sorted[k] in multiset(rows);
    i :| 0 <= i < |rows| && rows[i] == sorted[k];
  }

  lemma RankOnBoard(sorted: seq<Row>, limit: nat, k: nat)
    requires Descending(sorted) && k < |Top(sorted, limit)|
    ensures WithRanks(Top(sorted, limit))[k] == Ranked(sorted[k], 1 + Above(sorted, sorted[k].score))
  {
    hide Descending, Above;
    RankCounts(sorted, k);
    if limit <= |sorted| {
      CutKeepsRank(sorted, limit, k);
    }
  }

  /** Every row of a leaderboard is a competing user's own row, and its rank is the rank on
      that user's page, wherever the board is cut off. */
  lemma BoardAgreesWithPage(users: seq<User>, solves: seq<Solve>, plays: seq<nat>, limit: nat, k: nat)
    requires k < |Top(Sorted(Rows(users, solves, plays)), limit)|
    ensures var ranked := WithRanks(Top(Sorted(Rows(users, solves, plays)), limit))[k];
            ranked.rank == 1 + Higher(users, solves, ranked.row.score) && OwnRow(users, solves, plays, ranked.row)
  {
    hide Rows, Sorted, OwnRow, Higher, Above, Descending, RankAt, IsBoard;
    var rows := Rows(users, solves, plays);
    var sorted := Sorted(rows);
    SortedIsBoard(rows, sorted[k].score);
    var i := BoardParts(sorted, rows, sorted[k].score, k);
    RankOnBoard(sorted, limit, k);
    RowsAbove(users, solves, plays, sorted[k].score);
    RowsAreUsers(users, solves, plays, i);
  }
}
