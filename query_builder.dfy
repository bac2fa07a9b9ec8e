/**
 * The fluent SQL builder: its state (table, selected columns, conditions, joins, orderings,
 * limit, bindings), and the statements and parameter lists it hands to the connection.
 * Executing a statement is not modelled; each operation returns the text and the bindings.
 */
module Queries {
  import opened Results
  import opened Text
  import ActiveRecord

  type Value = ActiveRecord.Value

  /** One `where`/`orWhere` condition; `boolean` is `AND` or `OR`. */
  datatype WhereClause = WhereClause(column: string, operator: string, value: Value, boolean: string)

  /** One `join`/`leftJoin`; `kind` is `INNER` or `LEFT`. */
  datatype JoinClause = JoinClause(kind: string, table: string, first: string, operator: string, second: string)

  /** A snapshot of the builder's fields. */
  datatype Query = Query(
    table: string,
    selects: seq<string>,
    wheres: seq<WhereClause>,
    joins: seq<JoinClause>,
    orderBy: seq<string>,
    limitValue: Option<int>,
    bindings: seq<Value>)

  /** What `create($table)` starts from. */
  function Nova(table: string): Query
  {
    Query(table, ["*"], [], [], [], None, [])
  }

  /** The bindings are the values of the conditions, in the order the conditions were added. */
  predicate Consistent(q: Query)
  {
    |q.bindings| == |q.wheres| && forall i :: 0 <= i < |q.wheres| ==> q.bindings[i] == q.wheres[i].value
  }

  /** The text of the condition at position `index`: every one but the first carries its boolean. */
  function Condicao(w: WhereClause, index: nat): string
  {
    (if index > 0 then w.boolean + " " else "") + w.column + " " + w.operator + " ?"
  }

  function Condicoes(ws: seq<WhereClause>): (r: seq<string>)
    ensures |r| == |ws| && forall k :: 0 <= k < |ws| ==> r[k] == Condicao(ws[k], k)
  {
    seq(|ws|, k requires 0 <= k < |ws| => Condicao(ws[k], k))
  }

  /** The WHERE part shared by SELECT, UPDATE and DELETE; empty when there are no conditions. */
  function WherePart(ws: seq<WhereClause>): string
  {
    if ws == [] then "" else " WHERE " + Join(Condicoes(ws), " ")
  }

  function JoinSql(j: JoinClause): string
  {
    " " + j.kind + " JOIN " + j.table + " ON " + j.first + " " + j.operator + " " + j.second
  }

  function JoinsSql(js: seq<JoinClause>): string
  {
    if js == [] then "" else JoinsSql(js[..|js| - 1]) + JoinSql(js[|js| - 1])
  }

  function OrderPart(orderBy: seq<string>): string
  {
    if orderBy == [] then "" else " ORDER BY " + Join(orderBy, ", ")
  }

  function LimitPart(limit: Option<int>): string
  {
    if limit.None? then "" else " LIMIT " + IntToString(limit.value)
  }

  /** `toSql`. */
  function SelectSql(q: Query): string
  {
    "SELECT " + Join(q.selects, ", ") + " FROM " + q.table + JoinsSql(q.joins)
      + WherePart(q.wheres) + OrderPart(q.orderBy) + LimitPart(q.limitValue)
  }

  /** `count` runs the same query with the selected columns replaced. */
  const CountSelect := "COUNT(*) as total"

  function CountQuery(q: Query): Query
  {
    q.(selects := [CountSelect])
  }

  /** The columns and the values of an insert or update, in the array's order. */
  function Colunas(data: seq<(string, Value)>): (r: seq<string>)
    ensures |r| == |data| && forall i :: 0 <= i < |data| ==> r[i] == data[i].0
  {
    seq(|data|, i requires 0 <= i < |data| => data[i].0)
  }

  function Valores(data: seq<(string, Value)>): (r: seq<Value>)
    ensures |r| == |data| && forall i :: 0 <= i < |data| ==> r[i] == data[i].1
  {
    seq(|data|, i requires 0 <= i < |data| => data[i].1)
  }

  function Interrogacoes(n: nat): (r: seq<string>)
    ensures |r| == n && forall i :: 0 <= i < n ==> r[i] == "?"
  {
    seq(n, i => "?")
  }

  function InsertSql(table: string, data: seq<(string, Value)>): string
  {
    "INSERT INTO " + table + " (" + Join(Colunas(data), ", ") + ") VALUES (" + Join(Interrogacoes(|data|), ", ") + ")"
  }

  function Atribuicao(column: string): string
  {
    column + " = ?"
  }

  function UpdateSql(table: string, sets: seq<string>, ws: seq<WhereClause>): string
  {
    "UPDATE " + table + " SET " + Join(sets, ", ") + WherePart(ws)
  }

  function DeleteSql(table: string, ws: seq<WhereClause>): string
  {
    "DELETE FROM " + table + WherePart(ws)
  }

  /** The WHERE text, built as the source builds it: one condition string per clause, then joined with spaces. */
  method WhereString(ws: seq<WhereClause>) returns (s: string)
    ensures s == WherePart(ws)
  {
    s := "";
    if ws != [] {
      var whereStrings: seq<string> := [];
      var index := 0;
      while index < |ws|
        invariant 0 <= index <= |ws|
        invariant |whereStrings| == index
        invariant forall k :: 0 <= k < index ==> whereStrings[k] == Condicao(ws[k], k)
      {
        var w := ws[index];
        var whereString := w.column + " " + w.operator + " ?";
        if index > 0 {
          whereString := w.boolean + " " + whereString;
        }
        whereStrings := whereStrings + [whereString];
        index := index + 1;
      }
      assert whereStrings == Condicoes(ws);
      s := " WHERE " + Join(whereStrings, " ");
    }
  }

  class QueryBuilder {
    var table: string
    var selects: seq<string>
    var wheres: seq<WhereClause>
    var joins: seq<JoinClause>
    var orderBy: seq<string>
    var limitValue: Option<int>
    var bindings: seq<Value>

    function Snap(): Query
      reads this
    {
      Query(table, selects, wheres, joins, orderBy, limitValue, bindings)
    }

    /** `create($table)`. */
    constructor (table: string)
      ensures Snap() == Nova(table)
    {
      this.table := table;
      selects := ["*"];
      wheres := [];
      joins := [];
      orderBy := [];
      limitValue := None;
      bindings := [];
    }

    method Table(t: string)
      modifies this
      ensures Snap() == old(Snap()).(table := t)
    {
      table := t;
    }

    /** `select` with an array of columns. */
    method Select(columns: seq<string>)
      modifies this
      ensures Snap() == old(Snap()).(selects := columns)
    {
      selects := columns;
    }

    /** `select` with a single column name, wrapped in a one-element list. */
    method SelectOne(column: string)
      modifies this
      ensures Snap() == old(Snap()).(selects := [column])
    {
      selects := [column];
    }

    method Where(column: string, operator: string, value: Value)
      modifies this
      ensures Snap() == old(Snap()).(wheres := old(wheres) + [WhereClause(column, operator, value, "AND")],
                                     bindings := old(bindings) + [value])
    {
      wheres := wheres + [WhereClause(column, operator, value, "AND")];
      bindings := bindings + [value];
    }

    method OrWhere(column: string, operator: string, value: Value)
      modifies this
      ensures Snap() == old(Snap()).(wheres := old(wheres) + [WhereClause(column, operator, value, "OR")],
                                     bindings := old(bindings) + [value])
    {
      wheres := wheres + [WhereClause(column, operator, value, "OR")];
      bindings := bindings + [value];
    }

    method Join(t: string, first: string, operator: string, second: string)
      modifies this
      ensures Snap() == old(Snap()).(joins := old(joins) + [JoinClause("INNER", t, first, operator, second)])
    {
      joins := joins + [JoinClause("INNER", t, first, operator, second)];
    }

    method LeftJoin(t: string, first: string, operator: string, second: string)
      modifies this
      ensures Snap() == old(Snap()).(joins := old(joins) + [JoinClause("LEFT", t, first, operator, second)])
    {
      joins := joins + [JoinClause("LEFT", t, first, operator, second)];
    }

    method OrderBy(column: string, direction: string)
      modifies this
      ensures Snap() == old(Snap()).(orderBy := old(orderBy) + [column + " " + direction])
    {
      orderBy := orderBy + [column + " " + direction];
    }

    method Limit(value: int)
      modifies this
      ensures Snap() == old(Snap()).(limitValue := Some(value))
    {
      limitValue := Some(value);
    }

    /** `toSql`: SELECT, FROM, the joins in order, then WHERE, ORDER BY and LIMIT when present. */
    method ToSql() returns (sql: string)
      ensures sql == SelectSql(Snap())
    {
      var head := "SELECT " + Text.Join(selects, ", ") + " FROM " + table;
      sql := head;
      var i := 0;
      while i < |joins|
        invariant 0 <= i <= |joins|
        invariant sql == head + JoinsSql(joins[..i])
      {
        assert joins[..i + 1][..i] == joins[..i];
        sql := sql + JoinSql(joins[i]);
        i := i + 1;
      }
      assert joins[..|joins|] == joins;
      ghost var upToJoins := sql;
      var w := WhereString(wheres);
      sql := sql + w;
      ghost var upToWhere := sql;
      assert upToWhere == upToJoins + WherePart(wheres);
      if orderBy != [] {
        sql := sql + " ORDER BY " + Text.Join(orderBy, ", ");
      }
      assert sql == upToWhere + OrderPart(orderBy);
      ghost var upToOrder := sql;
      if limitValue != None {
        sql := sql + " LIMIT " + IntToString(limitValue.value);
      }
      assert sql == upToOrder + LimitPart(limitValue);
      assert SelectSql(Snap()) == head + JoinsSql(joins) + WherePart(wheres) + OrderPart(orderBy) + LimitPart(limitValue);
    }

    /** `first`: sets the limit to 1, then the query and its bindings. */
    method First() returns (sql: string, params: seq<Value>)
      modifies this
      ensures Snap() == old(Snap()).(limitValue := Some(1))
      ensures sql == SelectSql(Snap()) && params == bindings
    {
      Limit(1);
      sql := ToSql();
      params := bindings;
    }

    /** `find($id)`: `where('id', '=', $id)` followed by `first`. */
    method Find(id: int) returns (sql: string, params: seq<Value>)
      modifies this
      ensures Snap() == old(Snap()).(wheres := old(wheres) + [WhereClause("id", "=", ActiveRecord.Int(id), "AND")],
                                     bindings := old(bindings) + [ActiveRecord.Int(id)],
                                     limitValue := Some(1))
      ensures sql == SelectSql(Snap()) && params == bindings
    {
      Where("id", "=", ActiveRecord.Int(id));
      sql, params := First();
    }

    /** `insert`: one column name and one `?` per entry, the values in column order. */
    method Insert(data: seq<(string, Value)>) returns (sql: string, params: seq<Value>)
      ensures sql == InsertSql(table, data) && params == Valores(data)
    {
      sql := "INSERT INTO " + table + " (" + Text.Join(Colunas(data), ", ") + ") VALUES ("
        + Text.Join(Interrogacoes(|data|), ", ") + ")";
      params := Valores(data);
    }

    /** `update`: one `column = ?` per entry; the entry values come before the condition bindings. */
    method Update(data: seq<(string, Value)>) returns (sql: string, params: seq<Value>)
      ensures sql == UpdateSql(table, seq(|data|, i requires 0 <= i < |data| => Atribuicao(data[i].0)), wheres)
      ensures params == Valores(data) + bindings
    {
      var sets: seq<string> := [];
      var values: seq<Value> := [];
      var i := 0;
      while i < |data|
        invariant 0 <= i <= |data|
        invariant |sets| == i && |values| == i
        invariant forall k :: 0 <= k < i ==> sets[k] == Atribuicao(data[k].0) && values[k] == data[k].1
      {
        sets := sets + [data[i].0 + " = ?"];
        values := values + [data[i].1];
        i := i + 1;
      }
      assert sets == seq(|data|, i requires 0 <= i < |data| => Atribuicao(data[i].0));
      assert values == Valores(data);
      params := values + bindings;
      sql := "UPDATE " + table + " SET " + Text.Join(sets, ", ");
      var w := WhereString(wheres);
      sql := sql + w;
    }

    /** `delete`: the conditions, with their bindings. */
    method Delete() returns (sql: string, params: seq<Value>)
      ensures sql == DeleteSql(table, wheres) && params == bindings
    {
      sql := "DELETE FROM " + table;
      var w := WhereString(wheres);
      sql := sql + w;
      params := bindings;
    }

    /** `count`: the query with `COUNT(*) as total` selected; the selected columns are restored afterwards. */
    method Count() returns (sql: string, params: seq<Value>)
      modifies this
      ensures Snap() == old(Snap())
      ensures sql == SelectSql(CountQuery(Snap())) && params == bindings
    {
      var originalSelects := selects;
      selects := [CountSelect];
      sql := ToSql();
      params := bindings;
      selects := originalSelects;
    }
  }
}
