/** What each active-record operation does to the object and to its table. */
module ActiveRecordProperties {
  import opened Results
  import opened Store
  import opened ActiveRecord
  import opened Text
  import opened Sorting

  /** ORDER BY on a column is a total preorder on values, so sorting by it is well defined. */
  lemma SqlLePreorder()
    ensures TotalPreorder(SqlLe)
  {
    forall a, b ensures SqlLe(a, b) || SqlLe(b, a) {
      if a.Text? && b.Text? { LexLeTotal(a.s, b.s); }
    }
    forall a, b, c | SqlLe(a, b) && SqlLe(b, c) ensures SqlLe(a, c) {
      if a.Text? && b.Text? && c.Text? { LexLeTrans(a.s, b.s, c.s); }
    }
  }

  /** The timestamp columns the layer writes itself. */
  predicate Stamp(c: string) { c == "created_at" || c == "updated_at" }

  /**
   * `insert` always succeeds on a valid table: the row goes in under a fresh id holding every
   * attribute but the key, both timestamps are `now`, the object adopts the id and exists.
   */
  lemma InsertStepSpec(m: Rec, t: Table<Attrs>, now: string)
    requires Valid(t)
    ensures var (m2, t2, ok) := InsertStep(m, t, now);
      && ok && Valid(t2) && !Has(t, t.nextId)
      && m2 == Rec(m.attributes[PrimaryKey := Int(t.nextId)], true)
      && Get(t2, t.nextId).Some?
      && (var cols := Get(t2, t.nextId).value;
        && PrimaryKey !in cols
        && Attr(cols, "created_at") == Text(now) && Attr(cols, "updated_at") == Text(now)
        && (forall c :: c != PrimaryKey && !Stamp(c) ==> (c in cols <==> c in m.attributes))
        && (forall c :: c != PrimaryKey && !Stamp(c) && c in m.attributes ==> cols[c] == m.attributes[c]))
      && (forall other :: other != t.nextId ==> Get(t2, other) == Get(t, other))
  {
    var data := ForSave(m)["created_at" := Text(now)]["updated_at" := Text(now)];
    InsertSpec(t, Columns(data));
  }

  /**
   * `update` reports success iff the model holds an integer id naming a stored row; then that
   * row's columns take every attribute and `updated_at := now`, and no other row changes.
   */
  lemma UpdateStepSpec(m: Rec, t: Table<Attrs>, now: string)
    requires Valid(t)
    ensures var (t2, ok) := UpdateStep(m, t, now);
      && Valid(t2)
      && (ok <==> KeyOf(m.attributes).Some? && Has(t, KeyOf(m.attributes).value))
      && (!ok ==> forall id :: Get(t2, id) == Get(t, id))
      && (ok ==> var k := KeyOf(m.attributes).value;
        && Get(t2, k).Some?
        && Attr(Get(t2, k).value, "updated_at") == Text(now)
        && (forall c :: c != PrimaryKey && c != "updated_at" && c in m.attributes ==> c in Get(t2, k).value && Get(t2, k).value[c] == m.attributes[c])
        && (forall c :: c != "updated_at" && c !in m.attributes ==> (c in Get(t2, k).value <==> c in Get(t, k).value))
        && (forall other :: other != k ==> Get(t2, other) == Get(t, other)))
  {
    var data := ForSave(m)["updated_at" := Text(now)];
    var key := KeyOf(m.attributes);
    if key.Some? {
      var f := (cols: Attrs) => cols + Columns(data);
      UpdateSpec(t, key.value, f);
      if Has(t, key.value) {
        assert Get(Update(t, key.value, f).0, key.value) == Some(f(Get(t, key.value).value));
      }
      forall id ensures !Has(t, key.value) ==> Get(Update(t, key.value, f).0, id) == Get(t, id) {
        if id == key.value && !Has(t, key.value) { assert Get(t, id).None?; }
      }
    }
  }

  /**
   * `delete` is refused for an object that does not exist. Otherwise it succeeds iff the
   * object's id names a stored row; that row goes, the object stops existing, and nothing
   * else changes.
   */
  lemma DeleteStepSpec(m: Rec, t: Table<Attrs>)
    requires Valid(t)
    ensures !m.persisted ==> DeleteStep(m, t) == (m, t, false)
    ensures var (m2, t2, ok) := DeleteStep(m, t);
      && Valid(t2)
      && (ok <==> m.persisted && KeyOf(m.attributes).Some? && Has(t, KeyOf(m.attributes).value))
      && (ok ==> (m2 == m.(persisted := false) && !Has(t2, KeyOf(m.attributes).value)
            && (forall other :: other != KeyOf(m.attributes).value ==> Get(t2, other) == Get(t, other))))
      && (!ok ==> m2 == m && forall id :: Get(t2, id) == Get(t, id))
  {
    var key := KeyOf(m.attributes);
    if m.persisted && key.Some? {
      DeleteSpec(t, key.value);
    }
  }

  /**
   * `find($id)` returns an existing model iff the row is stored; it holds the id and exactly
   * the row's admitted columns.
   */
  lemma FindSpecSpec(fillable: seq<string>, t: Table<Attrs>, id: int)
    ensures FindSpec(fillable, t, id).Some? <==> Has(t, id)
    ensures FindSpec(fillable, t, id).Some? ==>
      var m := FindSpec(fillable, t, id).value;
      var cols := Get(t, id).value;
      && m.persisted && m.attributes[PrimaryKey] == Int(id)
      && (forall c :: c != PrimaryKey ==> (c in m.attributes <==> c in cols && Admits(fillable, c)))
      && (forall c :: c != PrimaryKey && c in m.attributes ==> m.attributes[c] == cols[c])
  {
  }

  /**
   * Round trip: a model inserted into a valid table is found again under its new id, with
   * every admitted attribute as it was saved.
   */
  lemma InsertThenFind(fillable: seq<string>, m: Rec, t: Table<Attrs>, now: string)
    requires Valid(t)
    ensures var (m2, t2, _) := InsertStep(m, t, now);
      && FindSpec(fillable, t2, t.nextId).Some?
      && var r := FindSpec(fillable, t2, t.nextId).value;
        && r.persisted && r.attributes[PrimaryKey] == m2.attributes[PrimaryKey]
        && (forall c :: c != PrimaryKey && !Stamp(c) && c in m.attributes && Admits(fillable, c) ==>
              c in r.attributes && r.attributes[c] == m.attributes[c])
        && (forall c :: c != PrimaryKey && !Stamp(c) && c in r.attributes ==> c in m.attributes)
  {
    InsertStepSpec(m, t, now);
    FindSpecSpec(fillable, InsertStep(m, t, now).1, t.nextId);
  }

  /** Saving again right after an insert updates the new row: the object now holds its id. */
  lemma InsertThenSave(m: Rec, t: Table<Attrs>, now: string, later: string)
    requires Valid(t)
    ensures var (m2, t2, _) := InsertStep(m, t, now);
      SaveStep(m2, t2, later).2
  {
    InsertStepSpec(m, t, now);
    var (m2, t2, _) := InsertStep(m, t, now);
    UpdateStepSpec(m2, t2, later);
  }

  /** With the id kept, saving a found model rewrites its row. */
  lemma FindThenSave(fillable: seq<string>, t: Table<Attrs>, id: int, now: string)
    requires Valid(t) && Has(t, id)
    ensures FindSpec(fillable, t, id).Some?
    ensures SaveStep(FindSpec(fillable, t, id).value, t, now).2
    ensures DeleteStep(FindSpec(fillable, t, id).value, t).2
  {
    var m := FindSpec(fillable, t, id).value;
    UpdateStepSpec(m, t, now);
    DeleteStepSpec(m, t);
  }

  /**
   * As written, a model loaded by `find` has no id whenever its class's `fillable` is
   * non-empty and omits `id` (every model class of the system): saving it runs
   * `UPDATE ... WHERE id = NULL`, which changes nothing and reports failure, and `delete`
   * likewise fails.
   */
  lemma FindThenSaveComoEscrito(fillable: seq<string>, t: Table<Attrs>, id: int, now: string)
    requires fillable != [] && PrimaryKey !in fillable
    requires Has(t, id)
    ensures FindSpecComoEscrito(fillable, t, id).Some?
    ensures PrimaryKey !in FindSpecComoEscrito(fillable, t, id).value.attributes
    ensures var m := FindSpecComoEscrito(fillable, t, id).value;
      SaveStep(m, t, now) == (m, t, false) && DeleteStep(m, t) == (m, t, false)
  {
  }
}
