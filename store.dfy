/**
 * The relational store the models persist to, as values: a table is its rows in rowid
 * order, each row paired with its INTEGER PRIMARY KEY, and the next id the store will hand out.
 * Rows are inserted with increasing ids, so rowid order is also insertion order.
 */
module Store {
  import opened Results

  datatype Table<R> = Table(rows: seq<(int, R)>, nextId: int)

  /** Ids are positive, strictly increasing and below the next id to be assigned. */
  predicate Valid<R>(t: Table<R>)
  {
    && t.nextId >= 1
    && (forall i :: 0 <= i < |t.rows| ==> 1 <= t.rows[i].0 < t.nextId)
    && (forall i, j :: 0 <= i < j < |t.rows| ==> t.rows[i].0 < t.rows[j].0)
  }

  const Empty: Table<int> := Table([], 1)

  function FindRow<R>(rows: seq<(int, R)>, id: int): Option<R>
  {
    if rows == [] then None
    else if rows[0].0 == id then Some(rows[0].1)
    else FindRow(rows[1..], id)
  }

  /** The row stored under `id`, if any: `SELECT * FROM t WHERE id = ?`. */
  function Get<R>(t: Table<R>, id: int): Option<R> { FindRow(t.rows, id) }

  predicate Has<R>(t: Table<R>, id: int) { Get(t, id).Some? }

  /** INSERT: the row gets the next id. */
  function Insert<R>(t: Table<R>, r: R): (Table<R>, int)
  {
    (Table(t.rows + [(t.nextId, r)], t.nextId + 1), t.nextId)
  }

  function MapRows<R>(rows: seq<(int, R)>, id: int, f: R -> R): (r: seq<(int, R)>)
    ensures |r| == |rows|
    ensures forall i :: 0 <= i < |rows| ==> r[i].0 == rows[i].0
    ensures forall i :: 0 <= i < |rows| ==> r[i].1 == (if rows[i].0 == id then f(rows[i].1) else rows[i].1)
  {
    if rows == [] then [] else [(rows[0].0, if rows[0].0 == id then f(rows[0].1) else rows[0].1)] + MapRows(rows[1..], id, f)
  }

  function CountId<R>(rows: seq<(int, R)>, id: int): nat
  {
    if rows == [] then 0 else (if rows[0].0 == id then 1 else 0) + CountId(rows[1..], id)
  }

  /** UPDATE ... WHERE id = ?: rewrites the row with that id and reports the rows affected. */
  function Update<R>(t: Table<R>, id: int, f: R -> R): (Table<R>, nat)
  {
    (Table(MapRows(t.rows, id, f), t.nextId), CountId(t.rows, id))
  }

  /** UPDATE that replaces the row's whole content. */
  function Replace<R>(t: Table<R>, id: int, r: R): (Table<R>, nat)
  {
    Update(t, id, (_: R) => r)
  }

  function RemoveRows<R>(rows: seq<(int, R)>, id: int): (r: seq<(int, R)>)
    ensures |r| <= |rows|
    ensures forall i :: 0 <= i < |r| ==> r[i] in rows && r[i].0 != id
  {
    if rows == [] then []
    else if rows[0].0 == id then RemoveRows(rows[1..], id)
    else [rows[0]] + RemoveRows(rows[1..], id)
  }

  /** DELETE ... WHERE id = ?. */
  function Delete<R>(t: Table<R>, id: int): (Table<R>, nat)
  {
    (Table(RemoveRows(t.rows, id), t.nextId), CountId(t.rows, id))
  }

  /** The rows satisfying `p`, in rowid order: `SELECT * FROM t WHERE p`. */
  function Select<R>(rows: seq<(int, R)>, p: R -> bool): (r: seq<(int, R)>)
    ensures |r| <= |rows|
    ensures forall i :: 0 <= i < |r| ==> r[i] in rows && p(r[i].1)
  {
    if rows == [] then []
    else if p(rows[0].1) then [rows[0]] + Select(rows[1..], p)
    else Select(rows[1..], p)
  }

  /** `SELECT ... WHERE p LIMIT 1` with no ORDER BY: the lowest rowid that satisfies `p`. */
  function First<R>(rows: seq<(int, R)>, p: R -> bool): (r: Option<(int, R)>)
    ensures r.Some? ==> r.value in rows && p(r.value.1)
    ensures r.None? <==> (forall i :: 0 <= i < |rows| ==> !p(rows[i].1))
  {
    if rows == [] then None
    else if p(rows[0].1) then Some(rows[0])
    else First(rows[1..], p)
  }

  // ---------------------------------------------------------------- lemmas

  /** What a lookup sees after an update: the row rewritten by `f` when it is the target. */
  function UpdatedRow<R>(before: Option<R>, target: bool, f: R -> R): Option<R>
  {
    match before
    case None => None
    case Some(r) => Some(if target then f(r) else r)
  }

  lemma {:induction false} FindRowIn<R>(rows: seq<(int, R)>, id: int)
    ensures FindRow(rows, id).Some? <==> exists i :: 0 <= i < |rows| && rows[i].0 == id
    ensures FindRow(rows, id).Some? ==> (id, FindRow(rows, id).value) in rows
  {
    if rows != [] {
      FindRowIn(rows[1..], id);
      if rows[0].0 != id {
        assert forall i :: 1 <= i < |rows| ==> rows[i] == rows[1..][i - 1];
      }
    }
  }

  lemma {:induction false} FindRowAt<R>(rows: seq<(int, R)>, k: nat)
    requires k < |rows|
    requires forall i, j :: 0 <= i < j < |rows| ==> rows[i].0 < rows[j].0
    ensures FindRow(rows, rows[k].0) == Some(rows[k].1)
  {
    if k > 0 { FindRowAt(rows[1..], k - 1); }
  }

  lemma {:induction false} CountIdUnique<R>(rows: seq<(int, R)>, id: int)
    requires forall i, j :: 0 <= i < j < |rows| ==> rows[i].0 < rows[j].0
    ensures CountId(rows, id) == if FindRow(rows, id).Some? then 1 else 0
  {
    if rows != [] {
      CountIdUnique(rows[1..], id);
      if rows[0].0 == id {
        forall i | 0 <= i < |rows[1..]| ensures rows[1..][i].0 != id {
          assert rows[0].0 < rows[i + 1].0;
        }
        FindRowIn(rows[1..], id);
      }
    }
  }

  lemma {:induction false} ValidRemove<R>(rows: seq<(int, R)>, id: int)
    requires forall i, j :: 0 <= i < j < |rows| ==> rows[i].0 < rows[j].0
    ensures forall i, j :: 0 <= i < j < |RemoveRows(rows, id)| ==> RemoveRows(rows, id)[i].0 < RemoveRows(rows, id)[j].0
  {
    if rows != [] {
      ValidRemove(rows[1..], id);
      var rest := RemoveRows(rows[1..], id);
      forall k | 0 <= k < |rest| ensures rows[0].0 < rest[k].0 {
        var j :| 0 <= j < |rows[1..]| && rows[1..][j] == rest[k];
        assert rows[j + 1] == rest[k];
      }
    }
  }

  lemma {:induction false} FindRowMapped<R>(rows: seq<(int, R)>, id: int, f: R -> R, other: int)
    ensures FindRow(MapRows(rows, id, f), other) == UpdatedRow(FindRow(rows, other), other == id, f)
  {
    if rows != [] { FindRowMapped(rows[1..], id, f, other); }
  }

  lemma {:induction false} FindRowRemoved<R>(rows: seq<(int, R)>, id: int, other: int)
    ensures FindRow(RemoveRows(rows, id), other) == if other == id then None else FindRow(rows, other)
  {
    if rows != [] { FindRowRemoved(rows[1..], id, other); }
  }

  lemma {:induction false} FindRowAppend<R>(rows: seq<(int, R)>, newId: int, r: R, other: int)
    ensures FindRow(rows + [(newId, r)], other) ==
      if FindRow(rows, other).Some? then FindRow(rows, other) else if other == newId then Some(r) else None
  {
    if rows == [] {
    } else {
      assert (rows + [(newId, r)])[1..] == rows[1..] + [(newId, r)];
      FindRowAppend(rows[1..], newId, r, other);
    }
  }

  /** A lookup by a predicate the rewrite does not affect finds the same row, with its new content. */
  lemma {:induction false} FirstReplaced<R>(rows: seq<(int, R)>, id: int, r: R, p: R -> bool)
    requires forall i :: 0 <= i < |rows| && rows[i].0 == id ==> p(rows[i].1) == p(r)
    ensures First(MapRows(rows, id, (_: R) => r), p) ==
      match First(rows, p)
      case None => None
      case Some(f) => Some((f.0, if f.0 == id then r else f.1))
  {
    if rows != [] {
      assert forall i :: 0 <= i < |rows[1..]| ==> rows[1..][i] == rows[i + 1];
      FirstReplaced(rows[1..], id, r, p);
    }
  }

  /** Selecting over rows with one more row at the end. */
  lemma {:induction false} SelectAppend<R>(rows: seq<(int, R)>, row: (int, R), p: R -> bool)
    ensures Select(rows + [row], p) == Select(rows, p) + (if p(row.1) then [row] else [])
  {
    if rows == [] {
    } else {
      assert (rows + [row])[1..] == rows[1..] + [row];
      SelectAppend(rows[1..], row, p);
    }
  }

  /** Every row satisfying `p` is selected. */
  lemma {:induction false} SelectComplete<R>(rows: seq<(int, R)>, p: R -> bool, i: nat)
    requires i < |rows| && p(rows[i].1)
    ensures rows[i] in Select(rows, p)
  {
    if i > 0 { SelectComplete(rows[1..], p, i - 1); }
  }

  /** Rewriting a row with the content it already has changes nothing. */
  lemma {:induction false} MapRowsSame<R>(rows: seq<(int, R)>, id: int, r: R)
    requires forall i :: 0 <= i < |rows| && rows[i].0 == id ==> rows[i].1 == r
    ensures MapRows(rows, id, (_: R) => r) == rows
  {
    if rows != [] {
      assert forall i :: 0 <= i < |rows[1..]| ==> rows[1..][i] == rows[i + 1];
      MapRowsSame(rows[1..], id, r);
    }
  }

  /** Two rewrites of one row: the second wins. */
  lemma {:induction false} MapRowsOverwrite<R>(rows: seq<(int, R)>, id: int, r1: R, r2: R)
    ensures MapRows(MapRows(rows, id, (_: R) => r1), id, (_: R) => r2) == MapRows(rows, id, (_: R) => r2)
  {
    if rows != [] { MapRowsOverwrite(rows[1..], id, r1, r2); }
  }

  /** Writing a row and then writing back its old content restores the table. */
  lemma ReplaceRestores<R>(t: Table<R>, id: int, r0: R, r1: R)
    requires Valid(t) && Get(t, id) == Some(r0)
    ensures Replace(Replace(t, id, r1).0, id, r0).0 == t
  {
    MapRowsOverwrite(t.rows, id, r1, r0);
    forall i | 0 <= i < |t.rows| && t.rows[i].0 == id ensures t.rows[i].1 == r0 {
      FindRowAt(t.rows, i);
    }
    MapRowsSame(t.rows, id, r0);
  }

  /** INSERT keeps the table valid, stores the row under a fresh id and leaves every other row alone. */
  lemma InsertSpec<R>(t: Table<R>, r: R)
    requires Valid(t)
    ensures Valid(Insert(t, r).0)
    ensures !Has(t, Insert(t, r).1)
    ensures forall id :: Get(Insert(t, r).0, id) == if id == t.nextId then Some(r) else Get(t, id)
  {
    FindRowIn(t.rows, t.nextId);
    forall id ensures Get(Insert(t, r).0, id) == if id == t.nextId then Some(r) else Get(t, id) {
      FindRowAppend(t.rows, t.nextId, r, id);
      if id != t.nextId { FindRowIn(t.rows, id); }
    }
  }

  /** UPDATE keeps the table valid, changes only the row with that id, and affects one row iff it exists. */
  lemma UpdateSpec<R>(t: Table<R>, id: int, f: R -> R)
    requires Valid(t)
    ensures Valid(Update(t, id, f).0)
    ensures Update(t, id, f).1 == if Has(t, id) then 1 else 0
    ensures forall other :: Get(Update(t, id, f).0, other) == UpdatedRow(Get(t, other), other == id, f)
  {
    CountIdUnique(t.rows, id);
    forall other ensures Get(Update(t, id, f).0, other) == UpdatedRow(Get(t, other), other == id, f) {
      FindRowMapped(t.rows, id, f, other);
    }
  }

  /** DELETE keeps the table valid, removes exactly that id, and affects one row iff it existed. */
  lemma DeleteSpec<R>(t: Table<R>, id: int)
    requires Valid(t)
    ensures Valid(Delete(t, id).0)
    ensures Delete(t, id).1 == if Has(t, id) then 1 else 0
    ensures forall other :: Get(Delete(t, id).0, other) == if other == id then None else Get(t, other)
  {
    CountIdUnique(t.rows, id);
    ValidRemove(t.rows, id);
    forall other ensures Get(Delete(t, id).0, other) == if other == id then None else Get(t, other) {
      FindRowRemoved(t.rows, id, other);
    }
  }

  lemma {:induction false} MapRowsTwice<R>(rows: seq<(int, R)>, id: int, r: R)
    ensures MapRows(MapRows(rows, id, (_: R) => r), id, (_: R) => r) == MapRows(rows, id, (_: R) => r)
  {
    if rows != [] { MapRowsTwice(rows[1..], id, r); }
  }

  /** Writing the same content to a row twice leaves the table as writing it once. */
  lemma ReplaceIdempotent<R>(t: Table<R>, id: int, r: R)
    ensures Replace(Replace(t, id, r).0, id, r).0 == Replace(t, id, r).0
  {
    MapRowsTwice(t.rows, id, r);
  }
}
