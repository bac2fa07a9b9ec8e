/**
 * What the builder's statements promise: one `?` per binding, in the order the values are
 * passed, and the SELECT text of the builder's own test scenario.
 */
module QueryProperties {
  import opened Results
  import opened Text
  import ActiveRecord
  import opened Queries

  /** A fresh builder has no conditions and no bindings. */
  lemma NovaConsistente(table: string)
    ensures Consistent(Nova(table)) && Nova(table).bindings == [] && Nova(table).selects == ["*"]
  {
  }

  /** `where`/`orWhere` add one condition and its value as one binding; `Consistent` survives. */
  lemma {:induction false} WhereMantem(q: Query, w: WhereClause)
    requires Consistent(q)
    ensures Consistent(q.(wheres := q.wheres + [w], bindings := q.bindings + [w.value]))
    ensures (q.bindings + [w.value])[|q.bindings|] == w.value
  {
    var q' := q.(wheres := q.wheres + [w], bindings := q.bindings + [w.value]);
    forall i | 0 <= i < |q'.wheres| ensures q'.bindings[i] == q'.wheres[i].value {
      if i < |q.wheres| {
        assert q'.bindings[i] == q.bindings[i] && q'.wheres[i] == q.wheres[i];
      }
    }
  }

  /** No identifier, operator or direction the builder was given contains a `?`. */
  predicate SemInterrogacao(q: Query)
  {
    && '?' !in q.table
    && (forall i :: 0 <= i < |q.selects| ==> '?' !in q.selects[i])
    && (forall i :: 0 <= i < |q.orderBy| ==> '?' !in q.orderBy[i])
    && (forall i :: 0 <= i < |q.joins| ==> LimpoJoin(q.joins[i]))
    && (forall i :: 0 <= i < |q.wheres| ==> LimpoWhere(q.wheres[i]))
  }

  predicate LimpoJoin(j: JoinClause)
  {
    '?' !in j.kind && '?' !in j.table && '?' !in j.first && '?' !in j.operator && '?' !in j.second
  }

  predicate LimpoWhere(w: WhereClause)
  {
    '?' !in w.column && '?' !in w.operator && '?' !in w.boolean
  }

  lemma {:induction false} JoinAbsent(xs: seq<string>, sep: string, c: char)
    requires c !in sep && forall i :: 0 <= i < |xs| ==> c !in xs[i]
    ensures c !in Join(xs, sep)
  {
    if |xs| > 1 {
      JoinAbsent(xs[1..], sep, c);
    }
  }

  /** Joining pieces that hold one `c` each, with a separator that holds none. */
  lemma {:induction false} JoinCount(xs: seq<string>, sep: string, c: char)
    requires c !in sep && forall i :: 0 <= i < |xs| ==> CountChar(xs[i], c) == 1
    ensures CountChar(Join(xs, sep), c) == |xs|
  {
    if |xs| > 1 {
      JoinCount(xs[1..], sep, c);
      var rest := Join(xs[1..], sep);
      assert Join(xs, sep) == xs[0] + sep + rest;
      CountCharAppend(xs[0] + sep, rest, c);
      CountCharAppend(xs[0], sep, c);
      CountCharAbsent(sep, c);
      assert CountChar(xs[0], c) == 1;
    } else if |xs| == 0 {
      assert Join(xs, sep) == "";
    }
  }

  lemma UmaInterrogacao(x: string)
    requires '?' !in x
    ensures CountChar(x + "?", '?') == 1
  {
    CountCharAppend(x, "?", '?');
    CountCharAbsent(x, '?');
    assert "?"[1..] == "";
  }

  lemma CondicaoConta(w: WhereClause, index: nat)
    requires LimpoWhere(w)
    ensures CountChar(Condicao(w, index), '?') == 1
  {
    var x := (if index > 0 then w.boolean + " " else "") + w.column + " " + w.operator + " ";
    assert Condicao(w, index) == x + "?";
    UmaInterrogacao(x);
  }

  /** The WHERE part holds exactly one `?` per condition. */
  lemma WherePartConta(ws: seq<WhereClause>)
    requires forall i :: 0 <= i < |ws| ==> LimpoWhere(ws[i])
    ensures CountChar(WherePart(ws), '?') == |ws|
  {
    if ws != [] {
      var cs := Condicoes(ws);
      forall i | 0 <= i < |cs| ensures CountChar(cs[i], '?') == 1 {
        CondicaoConta(ws[i], i);
      }
      JoinCount(cs, " ", '?');
      CountCharAppend(" WHERE ", Join(cs, " "), '?');
      CountCharAbsent(" WHERE ", '?');
    } else {
      CountCharAbsent("", '?');
    }
  }

  lemma {:induction false} JoinsAbsent(js: seq<JoinClause>)
    requires forall i :: 0 <= i < |js| ==> LimpoJoin(js[i])
    ensures '?' !in JoinsSql(js)
  {
    if js != [] {
      JoinsAbsent(js[..|js| - 1]);
      assert LimpoJoin(js[|js| - 1]);
    }
  }

  lemma IntSemInterrogacao(n: int)
    ensures '?' !in IntToString(n)
  {
    var d := NatToString(if n < 0 then -n else n);
    assert forall i :: 0 <= i < |d| ==> IsDigit(d[i]);
  }

  /**
   * The SELECT statement holds exactly one `?` per condition, so the prepared statement
   * takes exactly the bindings the builder collected.
   */
  lemma SelectPlaceholders(q: Query)
    requires Consistent(q) && SemInterrogacao(q)
    ensures CountChar(SelectSql(q), '?') == |q.wheres| == |q.bindings|
  {
    var a := "SELECT " + Join(q.selects, ", ") + " FROM " + q.table;
    JoinAbsent(q.selects, ", ", '?');
    JoinsAbsent(q.joins);
    var aj := a + JoinsSql(q.joins);
    var w := WherePart(q.wheres);
    var o := OrderPart(q.orderBy);
    var l := LimitPart(q.limitValue);
    JoinAbsent(q.orderBy, ", ", '?');
    if q.limitValue.Some? {
      IntSemInterrogacao(q.limitValue.value);
    }
    assert '?' !in o && '?' !in l && '?' !in aj;
    WherePartConta(q.wheres);
    CountCharAppend(aj + w + o, l, '?');
    CountCharAppend(aj + w, o, '?');
    CountCharAppend(aj, w, '?');
    CountCharAbsent(aj, '?');
    CountCharAbsent(o, '?');
    CountCharAbsent(l, '?');
  }

  /** `count` keeps the conditions, so its statement takes the same bindings. */
  lemma CountPlaceholders(q: Query)
    requires Consistent(q) && SemInterrogacao(q)
    ensures CountChar(SelectSql(CountQuery(q)), '?') == |q.bindings|
    ensures CountQuery(q).wheres == q.wheres && CountQuery(q).selects == [CountSelect]
  {
    assert '?' !in CountSelect;
    SelectPlaceholders(CountQuery(q));
  }

  /** The INSERT statement: one `?` per column, and the values passed are the entries' values in order. */
  lemma InsertPlaceholders(table: string, data: seq<(string, Value)>)
    requires '?' !in table && forall i :: 0 <= i < |data| ==> '?' !in data[i].0
    ensures CountChar(InsertSql(table, data), '?') == |data| == |Valores(data)|
    ensures forall i :: 0 <= i < |data| ==> Valores(data)[i] == data[i].1 && Colunas(data)[i] == data[i].0
  {
    var cols := Colunas(data);
    JoinAbsent(cols, ", ", '?');
    var x := "INSERT INTO " + table + " (" + Join(cols, ", ") + ") VALUES (";
    var qs := Interrogacoes(|data|);
    forall i | 0 <= i < |qs| ensures CountChar(qs[i], '?') == 1 {
      UmaInterrogacao("");
      assert "" + "?" == qs[i];
    }
    JoinCount(qs, ", ", '?');
    CountCharAppend(x + Join(qs, ", "), ")", '?');
    CountCharAppend(x, Join(qs, ", "), '?');
    CountCharAbsent(x, '?');
    CountCharAbsent(")", '?');
  }

  /**
   * The UPDATE statement: one `?` per assignment followed by one per condition, matching
   * the parameter list, which is the entry values followed by the condition bindings.
   */
  lemma UpdatePlaceholders(q: Query, data: seq<(string, Value)>)
    requires Consistent(q) && '?' !in q.table
    requires forall i :: 0 <= i < |data| ==> '?' !in data[i].0
    requires forall i :: 0 <= i < |q.wheres| ==> LimpoWhere(q.wheres[i])
    ensures var sets := seq(|data|, i requires 0 <= i < |data| => Atribuicao(data[i].0));
      CountChar(UpdateSql(q.table, sets, q.wheres), '?') == |Valores(data) + q.bindings|
    ensures forall i :: 0 <= i < |data| ==> (Valores(data) + q.bindings)[i] == data[i].1
    ensures forall i :: 0 <= i < |q.wheres| ==> (Valores(data) + q.bindings)[|data| + i] == q.wheres[i].value
  {
    var sets := seq(|data|, i requires 0 <= i < |data| => Atribuicao(data[i].0));
    forall i | 0 <= i < |sets| ensures CountChar(sets[i], '?') == 1 {
      UmaInterrogacao(data[i].0 + " = ");
      assert data[i].0 + " = " + "?" == sets[i];
    }
    JoinCount(sets, ", ", '?');
    var x := "UPDATE " + q.table + " SET ";
    WherePartConta(q.wheres);
    CountCharAppend(x + Join(sets, ", "), WherePart(q.wheres), '?');
    CountCharAppend(x, Join(sets, ", "), '?');
    CountCharAbsent(x, '?');
  }

  /** The DELETE statement: one `?` per condition, matching the bindings. */
  lemma DeletePlaceholders(q: Query)
    requires Consistent(q) && '?' !in q.table
    requires forall i :: 0 <= i < |q.wheres| ==> LimpoWhere(q.wheres[i])
    ensures CountChar(DeleteSql(q.table, q.wheres), '?') == |q.bindings|
  {
    WherePartConta(q.wheres);
    CountCharAppend("DELETE FROM " + q.table, WherePart(q.wheres), '?');
    CountCharAbsent("DELETE FROM " + q.table, '?');
  }

  /** The builder state of the scenario in the builder's test, and the bindings it collects. */
  function ExemploQuery(): Query
  {
    Query("clientes", ["nome", "email"],
          [WhereClause("ativo", "=", ActiveRecord.Int(1), "AND"),
           WhereClause("created_at", ">", ActiveRecord.Text("2025-01-01"), "AND")],
          [], ["nome ASC"], Some(10), [ActiveRecord.Int(1), ActiveRecord.Text("2025-01-01")])
  }

  /** The scenario of the builder's test: two AND conditions, one ordering, a limit of 10. */
  method ExemploTeste() returns (sql: string, params: seq<Value>)
    ensures sql == "SELECT nome, email FROM clientes WHERE ativo = ? AND created_at > ? ORDER BY nome ASC LIMIT 10"
    ensures params == [ActiveRecord.Int(1), ActiveRecord.Text("2025-01-01")]
  {
    var qb := new QueryBuilder("clientes");
    qb.Select(["nome", "email"]);
    qb.Where("ativo", "=", ActiveRecord.Int(1));
    qb.Where("created_at", ">", ActiveRecord.Text("2025-01-01"));
    qb.OrderBy("nome", "ASC");
    assert "nome" + " " + "ASC" == "nome ASC";
    qb.Limit(10);
    assert qb.Snap() == ExemploQuery();
    sql := qb.ToSql();
    params := qb.bindings;
    SqlExemplo(qb.Snap(), sql);
  }

  lemma SqlExemplo(q: Query, sql: string)
    requires q == ExemploQuery() && sql == SelectSql(q)
    ensures sql == "SELECT nome, email FROM clientes WHERE ativo = ? AND created_at > ? ORDER BY nome ASC LIMIT 10"
  {
    ColunasExemplo(q.selects);
    WhereExemplo(q.wheres);
    OrderExemplo(q.orderBy);
    LimitExemplo(q.limitValue);
    var cols, w, o, l := "nome, email", " WHERE ativo = ? AND created_at > ?", " ORDER BY nome ASC", " LIMIT 10";
    assert sql == "SELECT " + cols + " FROM " + "clientes" + "" + w + o + l;
    var p1 := "SELECT " + cols + " FROM " + "clientes" + "";
    Passo1(p1);
    var p2 := p1 + w;
    Passo2(p1, w, p2);
    var p3 := p2 + o;
    Passo3(p2, o, p3);
    Passo4(p3, l, sql);
  }

  lemma Passo1(p: string)
    requires p == "SELECT " + "nome, email" + " FROM " + "clientes" + ""
    ensures p == "SELECT nome, email FROM clientes"
  {
  }

  lemma Passo2(a: string, b: string, c: string)
    requires a == "SELECT nome, email FROM clientes" && b == " WHERE ativo = ? AND created_at > ?" && c == a + b
    ensures c == "SELECT nome, email FROM clientes WHERE ativo = ? AND created_at > ?"
  {
  }

  lemma Passo3(a: string, b: string, c: string)
    requires a == "SELECT nome, email FROM clientes WHERE ativo = ? AND created_at > ?" && b == " ORDER BY nome ASC" && c == a + b
    ensures c == "SELECT nome, email FROM clientes WHERE ativo = ? AND created_at > ? ORDER BY nome ASC"
  {
  }

  lemma Passo4(a: string, b: string, c: string)
    requires a == "SELECT nome, email FROM clientes WHERE ativo = ? AND created_at > ? ORDER BY nome ASC" && b == " LIMIT 10" && c == a + b
    ensures c == "SELECT nome, email FROM clientes WHERE ativo = ? AND created_at > ? ORDER BY nome ASC LIMIT 10"
  {
  }

  lemma ColunasExemplo(selects: seq<string>)
    requires selects == ["nome", "email"]
    ensures Join(selects, ", ") == "nome, email"
  {
    assert selects[1..] == ["email"];
  }

  lemma WhereExemplo(ws: seq<WhereClause>)
    requires ws == [WhereClause("ativo", "=", ActiveRecord.Int(1), "AND"),
                    WhereClause("created_at", ">", ActiveRecord.Text("2025-01-01"), "AND")]
    ensures WherePart(ws) == " WHERE ativo = ? AND created_at > ?"
  {
    var cs := Condicoes(ws);
    PrimeiraExemplo(ws[0], cs[0]);
    SegundaExemplo(ws[1], cs[1]);
    JoinPair(cs, " ");
    WhereJunta(cs[0], cs[1], WherePart(ws));
  }

  lemma PrimeiraExemplo(w: WhereClause, c: string)
    requires w == WhereClause("ativo", "=", ActiveRecord.Int(1), "AND") && c == Condicao(w, 0)
    ensures c == "ativo = ?"
  {
  }

  lemma SegundaExemplo(w: WhereClause, c: string)
    requires w == WhereClause("created_at", ">", ActiveRecord.Text("2025-01-01"), "AND") && c == Condicao(w, 1)
    ensures c == "AND created_at > ?"
  {
  }

  lemma WhereJunta(c0: string, c1: string, w: string)
    requires c0 == "ativo = ?" && c1 == "AND created_at > ?" && w == " WHERE " + (c0 + " " + c1)
    ensures w == " WHERE ativo = ? AND created_at > ?"
  {
  }

  lemma OrderExemplo(orderBy: seq<string>)
    requires orderBy == ["nome ASC"]
    ensures OrderPart(orderBy) == " ORDER BY nome ASC"
  {
  }

  lemma LimitExemplo(limit: Option<int>)
    requires limit == Some(10)
    ensures LimitPart(limit) == " LIMIT 10"
  {
    assert NatToString(1) == "1";
    assert NatToString(10) == NatToString(1) + [DigitChar(0)];
  }
}
