/**
 * The log tables of the event store (`lifetrack_pro/db.py`) as in-memory
 * sequences: every log table has an `AUTOINCREMENT` id and a `user_id`
 * column, and its rows are kept in id order. Inserting appends a row under a
 * new, larger id; `DELETE ... WHERE user_id=?` keeps the other rows in order.
 */
module Tables {
  import opened Wrappers

  /** A row of a log table: its id, the owning user, and the table's other columns. */
  datatype Row<R> = Row(id: nat, user: int, data: R)

  /** A log table: its rows in id order and the id the next insert receives. */
  datatype Table<R> = Table(rows: seq<Row<R>>, nextId: nat)

  ghost predicate IdsAscending<R>(rows: seq<Row<R>>) {
    forall i, j :: 0 <= i < j < |rows| ==> rows[i].id < rows[j].id
  }

  /** Ids grow with position and stay below the next id to be issued. */
  ghost predicate TableValid<R>(t: Table<R>) {
    IdsAscending(t.rows) && forall i :: 0 <= i < |t.rows| ==> t.rows[i].id < t.nextId
  }

  /** A freshly created table: no rows, first id 1. */
  function EmptyTable<R>(): (t: Table<R>)
    ensures t.rows == [] && t.nextId == 1
    ensures TableValid(t)
  {
    Table([], 1)
  }

  /** `INSERT`: the new row goes last, under an id above every id in the table. */
  function Insert<R>(t: Table<R>, user: int, data: R): (t': Table<R>)
    ensures TableValid(t) ==> TableValid(t')
    ensures |t'.rows| == |t.rows| + 1 && t'.rows[..|t.rows|] == t.rows
    ensures t'.rows[|t.rows|] == Row(t.nextId, user, data)
    ensures TableValid(t) ==> forall i :: 0 <= i < |t.rows| ==> t.rows[i].id < t'.rows[|t.rows|].id
  {
    Table(t.rows + [Row(t.nextId, user, data)], t.nextId + 1)
  }

  /** `UPDATE ... WHERE id=?`: row `i` gets new columns and keeps its id and owner. */
  function UpdateAt<R>(t: Table<R>, i: nat, data: R): (t': Table<R>)
    requires i < |t.rows|
    ensures TableValid(t) ==> TableValid(t')
    ensures |t'.rows| == |t.rows| && t'.nextId == t.nextId
    ensures t'.rows[i] == Row(t.rows[i].id, t.rows[i].user, data)
    ensures forall j :: 0 <= j < |t.rows| && j != i ==> t'.rows[j] == t.rows[j]
  {
    Table(t.rows[i := Row(t.rows[i].id, t.rows[i].user, data)], t.nextId)
  }

  /** The rows owned by `user`, in id order. */
  function OwnedBy<R>(rows: seq<Row<R>>, user: int): seq<Row<R>>
    decreases |rows|
  {
    if rows == [] then []
    else OwnedBy(rows[..|rows| - 1], user) + (if rows[|rows| - 1].user == user then [rows[|rows| - 1]] else [])
  }

  /** `DELETE FROM ... WHERE user_id=?` on a sequence of rows. */
  function Purge<R>(rows: seq<Row<R>>, user: int): (r: seq<Row<R>>)
    ensures |r| <= |rows|
    decreases |rows|
  {
    if rows == [] then []
    else Purge(rows[..|rows| - 1], user) + (if rows[|rows| - 1].user == user then [] else [rows[|rows| - 1]])
  }

  lemma OwnedByAppend<R>(rows: seq<Row<R>>, r: Row<R>, user: int)
    ensures OwnedBy(rows + [r], user) == OwnedBy(rows, user) + (if r.user == user then [r] else [])
  {
    assert (rows + [r])[..|rows|] == rows;
  }

  /** Purging `user` leaves that user no rows. */
  lemma {:induction false} PurgeClears<R>(rows: seq<Row<R>>, user: int)
    ensures OwnedBy(Purge(rows, user), user) == []
    decreases |rows|
  {
    if rows != [] {
      var prefix, last := rows[..|rows| - 1], rows[|rows| - 1];
      PurgeClears(prefix, user);
      var rest := Purge(prefix, user);
      if last.user != user {
        assert Purge(rows, user) == rest + [last];
        OwnedByAppend(rest, last, user);
      } else {
        assert Purge(rows, user) == rest;
      }
    }
  }

  /** Purging `user` leaves every other user exactly the rows they had. */
  lemma {:induction false} PurgeKeepsOthers<R>(rows: seq<Row<R>>, user: int, other: int)
    requires other != user
    ensures OwnedBy(Purge(rows, user), other) == OwnedBy(rows, other)
    decreases |rows|
  {
    if rows != [] {
      var prefix, last := rows[..|rows| - 1], rows[|rows| - 1];
      PurgeKeepsOthers(prefix, user, other);
      var rest := Purge(prefix, user);
      assert OwnedBy(rows, other) == OwnedBy(prefix, other) + (if last.user == other then [last] else []);
      if last.user != user {
        assert Purge(rows, user) == rest + [last];
        OwnedByAppend(rest, last, other);
      } else {
        assert Purge(rows, user) == rest;
      }
    }
  }

  /** Every row that survives a purge was in the table and belongs to someone else. */
  lemma {:induction false} PurgeSubset<R>(rows: seq<Row<R>>, user: int)
    ensures forall x :: x in Purge(rows, user) ==> x in rows && x.user != user
    decreases |rows|
  {
    if rows != [] {
      var prefix, last := rows[..|rows| - 1], rows[|rows| - 1];
      PurgeSubset(prefix, user);
      assert forall x :: x in prefix ==> x in rows;
    }
  }

  lemma {:induction false} PurgeAscending<R>(rows: seq<Row<R>>, user: int)
    ensures IdsAscending(rows) ==> IdsAscending(Purge(rows, user))
    decreases |rows|
  {
    if rows != [] && IdsAscending(rows) {
      var prefix, last := rows[..|rows| - 1], rows[|rows| - 1];
      PurgeAscending(prefix, user);
      PurgeSubset(prefix, user);
      var rest := Purge(prefix, user);
      forall x | x in rest ensures x.id < last.id {
        var k :| 0 <= k < |prefix| && prefix[k] == x;
        assert rows[k] == x;
      }
    }
  }

  /** `DELETE FROM ... WHERE user_id=?` on a table; ids already issued are not reused. */
  function PurgeTable<R>(t: Table<R>, user: int): (t': Table<R>)
    ensures TableValid(t) ==> TableValid(t')
    ensures t'.rows == Purge(t.rows, user) && t'.nextId == t.nextId
  {
    PurgeAscending(t.rows, user);
    PurgeSubset(t.rows, user);
    Table(Purge(t.rows, user), t.nextId)
  }

  // ------------------------------------------------------------ queries

  /**
   * `... WHERE <p> ORDER BY id DESC LIMIT 1`: the position of the last row
   * satisfying `p`, which in a valid table is the one with the highest id.
   */
  function LastIndex<R>(rows: seq<Row<R>>, p: Row<R> -> bool): (r: Option<nat>)
    ensures r.Some? ==> r.value < |rows| && p(rows[r.value])
    ensures r.Some? ==> forall j :: r.value < j < |rows| ==> !p(rows[j])
    ensures r.None? ==> forall j :: 0 <= j < |rows| ==> !p(rows[j])
    decreases |rows|
  {
    if rows == [] then None
    else if p(rows[|rows| - 1]) then Some(|rows| - 1)
    else LastIndex(rows[..|rows| - 1], p)
  }

  /** The row `LastIndex` picks carries the highest id among the rows satisfying `p`. */
  lemma LastIndexHighestId<R>(rows: seq<Row<R>>, p: Row<R> -> bool, j: nat)
    requires IdsAscending(rows)
    requires j < |rows| && p(rows[j])
    ensures LastIndex(rows, p).Some?
    ensures rows[j].id <= rows[LastIndex(rows, p).value].id
  {
  }

  /** `SELECT COUNT(*) ... WHERE <p>`. */
  function Count<R>(rows: seq<Row<R>>, p: Row<R> -> bool): nat
    decreases |rows|
  {
    if rows == [] then 0
    else Count(rows[..|rows| - 1], p) + (if p(rows[|rows| - 1]) then 1 else 0)
  }

  lemma {:induction false} CountMonotone<R>(rows: seq<Row<R>>, p: Row<R> -> bool, q: Row<R> -> bool)
    requires forall r :: p(r) ==> q(r)
    ensures Count(rows, p) <= Count(rows, q)
    decreases |rows|
  {
    if rows != [] {
      CountMonotone(rows[..|rows| - 1], p, q);
    }
  }

  /** A weaker filter that admits one more row counts strictly more. */
  lemma {:induction false} CountGrows<R>(rows: seq<Row<R>>, p: Row<R> -> bool, q: Row<R> -> bool, i: nat)
    requires forall r :: p(r) ==> q(r)
    requires i < |rows| && q(rows[i]) && !p(rows[i])
    ensures Count(rows, p) < Count(rows, q)
    decreases |rows|
  {
    var prefix := rows[..|rows| - 1];
    if i == |rows| - 1 {
      CountMonotone(prefix, p, q);
    } else {
      assert prefix[i] == rows[i];
      CountGrows(prefix, p, q, i);
    }
  }

  /** A filter that admits only `user`'s rows counts at most the rows `user` owns. */
  lemma {:induction false} CountOwned<R>(rows: seq<Row<R>>, p: Row<R> -> bool, user: int)
    requires forall r :: p(r) ==> r.user == user
    ensures Count(rows, p) <= |OwnedBy(rows, user)|
    decreases |rows|
  {
    if rows != [] {
      CountOwned(rows[..|rows| - 1], p, user);
    }
  }

  /** `SELECT COALESCE(SUM(...), 0)`, where `f` is zero on the rows the `WHERE` clause drops. */
  function Sum<R>(rows: seq<Row<R>>, f: Row<R> -> int): int
    decreases |rows|
  {
    if rows == [] then 0 else Sum(rows[..|rows| - 1], f) + f(rows[|rows| - 1])
  }

  lemma SumAppend<R>(rows: seq<Row<R>>, r: Row<R>, f: Row<R> -> int)
    ensures Sum(rows + [r], f) == Sum(rows, f) + f(r)
  {
    assert (rows + [r])[..|rows|] == rows;
  }

  /** With no contributing row the sum is the `COALESCE` default, 0. */
  lemma {:induction false} SumZero<R>(rows: seq<Row<R>>, f: Row<R> -> int)
    requires forall j :: 0 <= j < |rows| ==> f(rows[j]) == 0
    ensures Sum(rows, f) == 0
    decreases |rows|
  {
    if rows != [] {
      SumZero(rows[..|rows| - 1], f);
    }
  }

  /** A non-zero sum has a row that contributes to it. */
  lemma {:induction false} SumWitness<R>(rows: seq<Row<R>>, f: Row<R> -> int) returns (i: nat)
    requires Sum(rows, f) != 0
    ensures i < |rows| && f(rows[i]) != 0
    decreases |rows|
  {
    var prefix := rows[..|rows| - 1];
    if f(rows[|rows| - 1]) != 0 {
      i := |rows| - 1;
    } else {
      i := SumWitness(prefix, f);
      assert prefix[i] == rows[i];
    }
  }
}
