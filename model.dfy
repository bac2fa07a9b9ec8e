/**
 * The generic active-record layer every model class inherits: a model is a map of attributes
 * plus an `exists` flag, persisted to one table of the store. Table rows hold the columns
 * other than the primary key, which is the row's id.
 */
module ActiveRecord {
  import opened Results
  import opened Store
  import opened Text

  /** A PHP value as it travels between a model and SQLite. */
  datatype Value = Null | Int(i: int) | Num(r: real) | Text(s: string)

  type Attrs = map<string, Value>

  const PrimaryKey: string := "id"

  /** PHP's `empty()` on a scalar. */
  predicate EmptyValue(v: Value)
  {
    match v
    case Null => true
    case Int(i) => i == 0
    case Num(r) => r == 0.0
    case Text(s) => s == "" || s == "0"
  }

  /** SQL `column = ?` against an integer binding: equal numbers match, NULL and text never do. */
  predicate SqlEqInt(v: Value, n: int) { v == Int(n) || v == Num(n as real) }

  /** SQLite's storage-class order: NULL, then numbers by value, then text by BINARY collation. */
  function Rank(v: Value): int
  {
    match v
    case Null => 0
    case Int(_) => 1
    case Num(_) => 1
    case Text(_) => 2
  }

  function NumOf(v: Value): real
  {
    match v
    case Int(i) => i as real
    case Num(r) => r
    case _ => 0.0
  }

  predicate SqlLe(a: Value, b: Value)
  {
    if Rank(a) != Rank(b) then Rank(a) < Rank(b)
    else if a.Text? && b.Text? then LexLe(a.s, b.s)
    else NumOf(a) <= NumOf(b)
  }

  /** The snapshot of a model object: `$attributes` and `$exists`. */
  datatype Rec = Rec(attributes: Attrs, persisted: bool)

  /** `fill` copies a key when `fillable` lists it or when `fillable` is empty. */
  predicate Admits(fillable: seq<string>, key: string) { key in fillable || fillable == [] }

  /** The attributes after `fill($input)`: admitted keys of the input overwrite, everything else stays. */
  function Filled(attrs: Attrs, fillable: seq<string>, input: Attrs): (r: Attrs)
    ensures forall k :: k in r <==> k in attrs || (k in input && Admits(fillable, k))
    ensures forall k :: k in input && Admits(fillable, k) ==> r[k] == input[k]
    ensures forall k :: k in attrs && !(k in input && Admits(fillable, k)) ==> r[k] == attrs[k]
  {
    attrs + map k | k in input && Admits(fillable, k) :: input[k]
  }

  /** One more input key handled by `fill`: it overwrites when admitted and is ignored otherwise. */
  lemma FilledStep(attrs: Attrs, fillable: seq<string>, input: Attrs, rest: set<string>, k: string)
    requires k in rest && rest <= input.Keys
    ensures Filled(attrs, fillable, input - (rest - {k})) ==
      if Admits(fillable, k) then Filled(attrs, fillable, input - rest)[k := input[k]]
      else Filled(attrs, fillable, input - rest)
  {
    var i1 := input - rest;
    assert input - (rest - {k}) == i1[k := input[k]];
    FilledUpdate(attrs, fillable, i1, k, input[k]);
  }

  /** Adding one key to the input of `fill` only matters when the key is admitted. */
  lemma FilledUpdate(attrs: Attrs, fillable: seq<string>, input: Attrs, k: string, v: Value)
    ensures Filled(attrs, fillable, input[k := v]) ==
      if Admits(fillable, k) then Filled(attrs, fillable, input)[k := v]
      else Filled(attrs, fillable, input)
  {
    var before := Filled(attrs, fillable, input);
    var after := Filled(attrs, fillable, input[k := v]);
    var expected := if Admits(fillable, k) then before[k := v] else before;
    assert after.Keys == expected.Keys;
    forall j | j in after
      ensures after[j] == expected[j]
    {
    }
    assert after == expected;
  }

  /** `$this->attributes[$name] ?? null`. */
  function Attr(attrs: Attrs, name: string): (v: Value)
    ensures name !in attrs ==> v == Null
    ensures name in attrs ==> v == attrs[name]
  {
    if name in attrs then attrs[name] else Null
  }

  /** The key an `UPDATE`/`DELETE ... WHERE id = ?` binds; a missing or null id matches no row. */
  function KeyOf(attrs: Attrs): (k: Option<int>)
    ensures k.Some? <==> PrimaryKey in attrs && attrs[PrimaryKey].Int?
    ensures k.Some? ==> attrs[PrimaryKey] == Int(k.value)
  {
    if PrimaryKey in attrs && attrs[PrimaryKey].Int? then Some(attrs[PrimaryKey].i) else None
  }

  /** `getAttributesForSave`: a model that does not exist yet never sends a non-null id. */
  function ForSave(m: Rec): (r: Attrs)
    ensures m.persisted ==> r == m.attributes
    ensures !m.persisted ==> PrimaryKey !in r || r[PrimaryKey] == Null
    ensures forall k :: k != PrimaryKey ==> (k in r <==> k in m.attributes)
    ensures forall k :: k in r ==> k in m.attributes && r[k] == m.attributes[k]
  {
    if PrimaryKey in m.attributes && m.attributes[PrimaryKey] != Null && !m.persisted
    then m.attributes - {PrimaryKey}
    else m.attributes
  }

  /** The columns a write stores besides the key (a null id is assigned by the store). */
  function Columns(data: Attrs): Attrs { data - {PrimaryKey} }

  /** A fetched row: its columns and its id. */
  function Fetched(id: int, cols: Attrs): Attrs { cols[PrimaryKey := Int(id)] }

  /** `insert`: stamps both timestamps, stores the row and adopts the returned id. */
  function InsertStep(m: Rec, t: Table<Attrs>, now: string): (Rec, Table<Attrs>, bool)
  {
    var data := ForSave(m)["created_at" := Text(now)]["updated_at" := Text(now)];
    var (t2, id) := Insert(t, Columns(data));
    if id != 0 then (Rec(m.attributes[PrimaryKey := Int(id)], true), t2, true)
    else (m, t2, false)
  }

  /** `update`: writes every attribute plus `updated_at` to the row whose id the model holds. */
  function UpdateStep(m: Rec, t: Table<Attrs>, now: string): (Table<Attrs>, bool)
  {
    var data := ForSave(m)["updated_at" := Text(now)];
    match KeyOf(m.attributes)
    case None => (t, false)
    case Some(k) =>
      var (t2, n) := Update(t, k, (cols: Attrs) => cols + Columns(data));
      (t2, n > 0)
  }

  /** `save`: update when the model exists, insert otherwise. */
  function SaveStep(m: Rec, t: Table<Attrs>, now: string): (Rec, Table<Attrs>, bool)
  {
    if m.persisted then (m, UpdateStep(m, t, now).0, UpdateStep(m, t, now).1)
    else InsertStep(m, t, now)
  }

  /** `delete`: refused for a model that does not exist; clears `exists` when a row went. */
  function DeleteStep(m: Rec, t: Table<Attrs>): (Rec, Table<Attrs>, bool)
  {
    if !m.persisted then (m, t, false)
    else match KeyOf(m.attributes)
      case None => (m, t, false)
      case Some(k) =>
        var (t2, n) := Delete(t, k);
        if n > 0 then (m.(persisted := false), t2, true) else (m, t2, false)
  }

  /** A model built from a fetched row, keeping the row's id (the loaders the rest of the model uses). */
  function Loaded(fillable: seq<string>, id: int, cols: Attrs): Rec
  {
    Rec(Filled(map[], fillable, Fetched(id, cols))[PrimaryKey := Int(id)], true)
  }

  /** `find($id)`, with the id kept. */
  function FindSpec(fillable: seq<string>, t: Table<Attrs>, id: int): Option<Rec>
  {
    match Get(t, id)
    case None => None
    case Some(cols) => Some(Loaded(fillable, id, cols))
  }

  /** `new static($data)` as written: `fill` drops the id unless `fillable` admits it. */
  function LoadedComoEscrito(fillable: seq<string>, id: int, cols: Attrs): Rec
  {
    Rec(Filled(map[], fillable, Fetched(id, cols)), true)
  }

  /** `find($id)` as written. */
  function FindSpecComoEscrito(fillable: seq<string>, t: Table<Attrs>, id: int): Option<Rec>
  {
    match Get(t, id)
    case None => None
    case Some(cols) => Some(LoadedComoEscrito(fillable, id, cols))
  }

  /** One table of the store. */
  class Tabela {
    var t: Table<Attrs>

    constructor (t0: Table<Attrs>)
      ensures t == t0
    {
      t := t0;
    }
  }

  /** A model object bound to its table; `fillable` is the subclass's list. */
  class Model {
    const tabela: Tabela
    const fillable: seq<string>
    var attributes: Attrs
    var persisted: bool

    function Snap(): Rec
      reads this
    {
      Rec(attributes, persisted)
    }

    /** `new static($attributes)`. */
    constructor (tabela: Tabela, fillable: seq<string>, input: Attrs)
      ensures this.tabela == tabela && this.fillable == fillable
      ensures attributes == Filled(map[], fillable, input) && !persisted
    {
      this.tabela := tabela;
      this.fillable := fillable;
      attributes := map[];
      persisted := false;
      new;
      Fill(input);
    }

    /** `fill`: a loop over the input's keys. */
    method Fill(input: Attrs)
      modifies this
      ensures attributes == Filled(old(attributes), fillable, input)
      ensures persisted == old(persisted)
    {
      var rest := input.Keys;
      while rest != {}
        invariant rest <= input.Keys
        invariant attributes == Filled(old(attributes), fillable, input - rest)
        invariant persisted == old(persisted)
        decreases rest
      {
        var k :| k in rest;
        FilledStep(old(attributes), fillable, input, rest, k);
        if Admits(fillable, k) {
          attributes := attributes[k := input[k]];
        }
        rest := rest - {k};
      }
      assert input - rest == input;
    }

    /** `__get`. */
    function Get(name: string): (v: Value)
      reads this
      ensures v == Attr(attributes, name)
    {
      if name in attributes then attributes[name] else Null
    }

    /** `__set`. */
    method Set(name: string, v: Value)
      modifies this
      ensures attributes == old(attributes)[name := v] && persisted == old(persisted)
    {
      attributes := attributes[name := v];
    }

    method Insert(now: string) returns (ok: bool)
      modifies this, tabela
      ensures (Snap(), tabela.t, ok) == InsertStep(old(Snap()), old(tabela.t), now)
    {
      var data := ForSave(Snap())["created_at" := Text(now)]["updated_at" := Text(now)];
      var ins := Store.Insert(tabela.t, Columns(data));
      var t2, id := ins.0, ins.1;
      tabela.t := t2;
      if id != 0 {
        attributes := attributes[PrimaryKey := Int(id)];
        persisted := true;
        ok := true;
      } else {
        ok := false;
      }
    }

    method Update(now: string) returns (ok: bool)
      modifies tabela
      ensures (tabela.t, ok) == UpdateStep(Snap(), old(tabela.t), now)
    {
      var data := ForSave(Snap())["updated_at" := Text(now)];
      var key := KeyOf(attributes);
      if key.None? {
        ok := false;
      } else {
        var r := Store.Update(tabela.t, key.value, (cols: Attrs) => cols + Columns(data));
        tabela.t := r.0;
        ok := r.1 > 0;
      }
    }

    method Save(now: string) returns (ok: bool)
      modifies this, tabela
      ensures (Snap(), tabela.t, ok) == SaveStep(old(Snap()), old(tabela.t), now)
    {
      if persisted {
        ok := Update(now);
      } else {
        ok := Insert(now);
      }
    }

    method Delete() returns (ok: bool)
      modifies this, tabela
      ensures (Snap(), tabela.t, ok) == DeleteStep(old(Snap()), old(tabela.t))
    {
      if !persisted {
        return false;
      }
      var key := KeyOf(attributes);
      if key.None? {
        return false;
      }
      var r := Store.Delete(tabela.t, key.value);
      tabela.t := r.0;
      if r.1 > 0 {
        persisted := false;
        ok := true;
      } else {
        ok := false;
      }
    }

    /** `find($id)`, the loaded model keeping its id. */
    static method Find(tabela: Tabela, fillable: seq<string>, id: int) returns (m: Model?)
      ensures m == null <==> FindSpec(fillable, tabela.t, id).None?
      ensures m != null ==> (fresh(m) && m.tabela == tabela && m.fillable == fillable
        && m.Snap() == FindSpec(fillable, tabela.t, id).value)
    {
      var row := Store.Get(tabela.t, id);
      if row.None? {
        return null;
      }
      m := Load(tabela, fillable, id, row.value);
    }

    /** A model built from a fetched row (`new static($data)`), marked existing, with its id kept. */
    static method Load(tabela: Tabela, fillable: seq<string>, id: int, cols: Attrs) returns (m: Model)
      ensures fresh(m) && m.tabela == tabela && m.fillable == fillable
      ensures m.Snap() == Loaded(fillable, id, cols)
    {
      m := new Model(tabela, fillable, Fetched(id, cols));
      m.Set(PrimaryKey, Int(id));
      m.persisted := true;
    }

    /** `find($id)` as written. */
    static method FindComoEscrito(tabela: Tabela, fillable: seq<string>, id: int) returns (m: Model?)
      ensures m == null <==> FindSpecComoEscrito(fillable, tabela.t, id).None?
      ensures m != null ==> (fresh(m) && m.tabela == tabela && m.fillable == fillable
        && m.Snap() == FindSpecComoEscrito(fillable, tabela.t, id).value)
    {
      var row := Store.Get(tabela.t, id);
      if row.None? {
        return null;
      }
      m := new Model(tabela, fillable, Fetched(id, row.value));
      m.persisted := true;
    }

    /** `create($attributes)`: a new model, saved. */
    static method Create(tabela: Tabela, fillable: seq<string>, input: Attrs, now: string) returns (m: Model, ok: bool)
      modifies tabela
      ensures fresh(m) && m.tabela == tabela && m.fillable == fillable
      ensures (m.Snap(), tabela.t, ok) == InsertStep(Rec(Filled(map[], fillable, input), false), old(tabela.t), now)
    {
      m := new Model(tabela, fillable, input);
      ok := m.Save(now);
    }
  }
}
