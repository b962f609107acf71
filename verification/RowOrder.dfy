/**
 * Row ids of tables keyed by INTEGER PRIMARY KEY (without AUTOINCREMENT) and
 * the ascending order in which ORDER BY returns them.
 */
module RowOrder {

  ghost predicate IsMax(m: nat, ids: set<nat>) {
    m in ids && forall x | x in ids :: x <= m
  }

  lemma {:induction false} MaxExists(ids: set<nat>)
    requires ids != {}
    ensures exists m: nat :: IsMax(m, ids)
  {
    var x :| x in ids;
    var rest := ids - {x};
    assert ids == rest + {x};
    if rest == {} {
      assert IsMax(x, ids);
    } else {
      MaxExists(rest);
      var m: nat :| IsMax(m, rest);
      assert IsMax(if x > m then x else m, ids);
    }
  }

  ghost function MaxId(ids: set<nat>): (m: nat)
    ensures forall x | x in ids :: x <= m
    ensures if ids == {} then m == 0 else m in ids
  {
    if ids == {} then 0
    else
      MaxExists(ids);
      var m: nat :| IsMax(m, ids);
      m
  }

  /** The id the next inserted row receives: ids freed at the top are reused. */
  ghost function NextId(ids: set<nat>): (n: nat)
    ensures n !in ids && n >= 1
    ensures forall x | x in ids :: x < n
  {
    MaxId(ids) + 1
  }

  predicate StrictlyAscending(q: seq<nat>) {
    forall i, j :: 0 <= i < j < |q| ==> q[i] < q[j]
  }

  ghost function Ascending(ids: set<nat>): (q: seq<nat>)
    ensures StrictlyAscending(q)
    ensures forall x :: x in q <==> x in ids
  {
    if ids == {} then [] else
      var m := MaxId(ids);
      Ascending(ids - {m}) + [m]
  }

  /** Ascending order is the only strictly increasing listing of a set. */
  lemma {:induction false} AscendingUnique(q: seq<nat>, ids: set<nat>)
    requires StrictlyAscending(q)
    requires forall x :: x in q <==> x in ids
    ensures q == Ascending(ids)
  {
    if q == [] {
      assert ids == {};
    } else {
      var last := q[|q| - 1];
      var m := MaxId(ids);
      assert last in q && m in q;
      var k :| 0 <= k < |q| && q[k] == m;
      assert last == m;
      var front := q[..|q| - 1];
      assert q == front + [m];
      assert forall x :: x in front <==> x in ids - {m};
      AscendingUnique(front, ids - {m});
    }
  }

  method MaxRowId(ids: set<nat>) returns (m: nat)
    ensures m == MaxId(ids)
  {
    if ids == {} { return 0; }
    m :| m in ids;
    var rest := ids - {m};
    while rest != {}
      invariant m in ids
      invariant forall x | x in ids :: x in rest || x <= m
      decreases rest
    {
      var x :| x in rest;
      rest := rest - {x};
      if x > m { m := x; }
    }
  }

  method FreshRowId(ids: set<nat>) returns (n: nat)
    ensures n == NextId(ids)
  {
    var m := MaxRowId(ids);
    n := m + 1;
  }

  method OrderedById(ids: set<nat>) returns (q: seq<nat>)
    ensures q == Ascending(ids)
  {
    q := [];
    var rest := ids;
    while rest != {}
      invariant rest <= ids && StrictlyAscending(q)
      invariant forall x :: x in ids <==> x in rest || x in q
      invariant forall x, j | x in rest && 0 <= j < |q| :: x < q[j]
      decreases rest
    {
      var m := MaxRowId(rest);
      rest, q := rest - {m}, [m] + q;
    }
    AscendingUnique(q, ids);
  }

  /** A table after inserting `rows` one by one from row id `base` upwards. */
  ghost function InsertFrom<T>(table: map<nat, T>, base: nat, rows: seq<T>): map<nat, T> {
    if rows == [] then table else
      var last := |rows| - 1;
      InsertFrom(table, base, rows[..last])[base + last := rows[last]]
  }

  /** A table after inserting `rows` one by one, each at the next free id. */
  ghost function Append<T>(table: map<nat, T>, rows: seq<T>): map<nat, T> {
    InsertFrom(table, NextId(table.Keys), rows)
  }

  lemma {:induction false} InsertedRows<T>(table: map<nat, T>, base: nat, rows: seq<T>)
    requires forall k | k in table :: k < base
    ensures forall k :: k in InsertFrom(table, base, rows) <==> k in table || base <= k < base + |rows|
    ensures forall k | k in InsertFrom(table, base, rows) ::
              InsertFrom(table, base, rows)[k] == if k < base then table[k] else rows[k - base]
  {
    if rows != [] { InsertedRows(table, base, rows[..|rows| - 1]); }
  }

  /** The old rows stay; the new ones follow at consecutive fresh ids. */
  lemma {:induction false} AppendedRows<T>(table: map<nat, T>, rows: seq<T>)
    ensures forall k ::
      k in Append(table, rows) <==> k in table || NextId(table.Keys) <= k < NextId(table.Keys) + |rows|
    ensures forall k | k in Append(table, rows) ::
              Append(table, rows)[k] == if k in table then table[k] else rows[k - NextId(table.Keys)]
  {
    InsertedRows(table, NextId(table.Keys), rows);
  }

  /** The same, about one id. */
  lemma {:induction false} AppendedRow<T>(table: map<nat, T>, rows: seq<T>, k: nat)
    ensures var r, base := Append(table, rows), NextId(table.Keys);
      && (k in r <==> k in table || base <= k < base + |rows|)
      && (k in table ==> r[k] == table[k])
      && (k in r && k !in table ==> r[k] == rows[k - base])
  {
    AppendedRows(table, rows);
  }

  /** Inserting one more row uses the id right above the previous insert. */
  lemma {:induction false} AppendOne<T>(table: map<nat, T>, rows: seq<T>, row: T)
    ensures NextId(Append(table, rows).Keys) == NextId(table.Keys) + |rows|
    ensures Append(table, rows + [row]) == Append(table, rows)[NextId(table.Keys) + |rows| := row]
  {
    var base, r := NextId(table.Keys), Append(table, rows);
    assert (rows + [row])[..|rows|] == rows;
    AppendedRows(table, rows);
    if rows == [] {
      assert r.Keys == table.Keys;
    } else {
      assert base + |rows| - 1 in r.Keys;
    }
  }
}
