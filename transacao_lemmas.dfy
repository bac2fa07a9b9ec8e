/** What a movement record holds and how it is stored and queried. */
module TransacaoProperties {
  import opened Results
  import opened Store
  import opened Text
  import opened Sorting
  import opened ActiveRecord
  import opened ActiveRecordProperties
  import opened Transacoes

  /** Every key the factories pass is fillable, so `fill` keeps them all. */
  lemma FillableKeeps(input: Attrs)
    requires forall k :: k in input ==> k in Fillable
    ensures Filled(map[], Fillable, input) == input
  {
    assert Filled(map[], Fillable, input).Keys == input.Keys;
  }

  /**
   * A deposit record credits the account (destination = its id, no origin), charges no fee
   * and snapshots the balance before and after the deposit.
   */
  lemma DepositoSpec(contaId: int, saldo: real, valor: real, descricao: Option<string>, now: string)
    ensures var a := Filled(map[], Fillable, Deposito(Int(contaId), saldo, valor, descricao, now));
      && a == Deposito(Int(contaId), saldo, valor, descricao, now)
      && Attr(a, "conta_destino_id") == Int(contaId) && Attr(a, "conta_origem_id") == Null
      && Attr(a, "tipo_operacao") == Text("deposito") && Attr(a, "tarifa") == Num(0.0)
      && Attr(a, "saldo_posterior") == Num(saldo + valor) && Attr(a, "saldo_anterior") == Num(saldo)
      && Attr(a, "status") == Text("concluida")
      && IsCredito(Rec(a, true), contaId)
      && (contaId != 0 ==> !IsDebito(Rec(a, true), contaId))
  {
    var d := Deposito(Int(contaId), saldo, valor, descricao, now);
    DepositoChaves(d, contaId, saldo, valor, descricao, now);
    FillableKeeps(d);
    DepositoCampos(d, contaId, saldo, valor, descricao, now);
  }

  lemma DepositoChaves(d: Attrs, contaId: int, saldo: real, valor: real, descricao: Option<string>, now: string)
    requires d == Deposito(Int(contaId), saldo, valor, descricao, now)
    ensures forall k :: k in d ==> k in Fillable
  {
  }

  lemma DepositoCampos(d: Attrs, contaId: int, saldo: real, valor: real, descricao: Option<string>, now: string)
    requires d == Deposito(Int(contaId), saldo, valor, descricao, now)
    ensures Attr(d, "conta_destino_id") == Int(contaId) && Attr(d, "conta_origem_id") == Null
    ensures Attr(d, "tipo_operacao") == Text("deposito") && Attr(d, "tarifa") == Num(0.0)
    ensures Attr(d, "saldo_posterior") == Num(saldo + valor) && Attr(d, "saldo_anterior") == Num(saldo)
    ensures Attr(d, "status") == Text("concluida")
    ensures descricao.None? ==> Attr(d, "descricao") == Text("Depósito em conta")
    ensures descricao.Some? ==> Attr(d, "descricao") == Text(descricao.value)
  {
  }

  /**
   * A withdrawal record debits the account (origin = its id, no destination) and its closing
   * balance is the opening one less the amount and the fee.
   */
  lemma SaqueSpec(contaId: int, saldo: real, valor: real, tarifa: real, descricao: Option<string>, now: string)
    ensures var a := Filled(map[], Fillable, Saque(Int(contaId), saldo, valor, tarifa, descricao, now));
      && a == Saque(Int(contaId), saldo, valor, tarifa, descricao, now)
      && Attr(a, "conta_origem_id") == Int(contaId) && Attr(a, "conta_destino_id") == Null
      && Attr(a, "tipo_operacao") == Text("saque") && Attr(a, "tarifa") == Num(tarifa)
      && Attr(a, "saldo_posterior") == Num(saldo - (valor + tarifa)) && Attr(a, "saldo_anterior") == Num(saldo)
      && Attr(a, "status") == Text("concluida")
      && IsDebito(Rec(a, true), contaId)
      && (contaId != 0 ==> !IsCredito(Rec(a, true), contaId))
  {
    var d := Saque(Int(contaId), saldo, valor, tarifa, descricao, now);
    SaqueChaves(d, contaId, saldo, valor, tarifa, descricao, now);
    FillableKeeps(d);
    SaqueCampos(d, contaId, saldo, valor, tarifa, descricao, now);
  }

  lemma SaqueChaves(d: Attrs, contaId: int, saldo: real, valor: real, tarifa: real, descricao: Option<string>, now: string)
    requires d == Saque(Int(contaId), saldo, valor, tarifa, descricao, now)
    ensures forall k :: k in d ==> k in Fillable
  {
  }

  lemma SaqueCampos(d: Attrs, contaId: int, saldo: real, valor: real, tarifa: real, descricao: Option<string>, now: string)
    requires d == Saque(Int(contaId), saldo, valor, tarifa, descricao, now)
    ensures Attr(d, "conta_origem_id") == Int(contaId) && Attr(d, "conta_destino_id") == Null
    ensures Attr(d, "tipo_operacao") == Text("saque") && Attr(d, "tarifa") == Num(tarifa)
    ensures Attr(d, "saldo_posterior") == Num(saldo - (valor + tarifa)) && Attr(d, "saldo_anterior") == Num(saldo)
    ensures Attr(d, "status") == Text("concluida")
    ensures descricao.None? ==> Attr(d, "descricao") == Text("Saque em conta")
    ensures descricao.Some? ==> Attr(d, "descricao") == Text(descricao.value)
  {
  }

  /** After `save` the status and the date are never empty; an empty status becomes 'concluida'. */
  lemma SaveDefaults(m: Rec, t: Table<Attrs>, now: string)
    requires now != "" && now != "0"
    ensures var a := SaveTransacao(m, t, now).0.attributes;
      && !EmptyValue(Attr(a, "status")) && !EmptyValue(Attr(a, "data_transacao"))
      && (EmptyValue(Attr(m.attributes, "status")) ==> Attr(a, "status") == Text("concluida"))
      && (!EmptyValue(Attr(m.attributes, "status")) ==> Attr(a, "status") == Attr(m.attributes, "status"))
  {
  }

  /**
   * Saving a new record on a valid table inserts its attributes plus `created_at` (and no
   * `updated_at` of its own) under a fresh id, which the object adopts.
   */
  lemma SaveNovo(m: Rec, t: Table<Attrs>, now: string)
    requires Valid(t) && !m.persisted
    ensures var (m2, t2, ok) := SaveTransacao(m, t, now);
      var a := Preparado(m.attributes, now);
      && ok && Valid(t2) && m2 == Rec(a[PrimaryKey := Int(t.nextId)], true)
      && Get(t2, t.nextId) == Some(Columns(a["created_at" := Text(now)]))
      && ("updated_at" in Get(t2, t.nextId).value <==> "updated_at" in m.attributes)
      && (forall other :: other != t.nextId ==> Get(t2, other) == Get(t, other))
  {
    InsertSpec(t, Columns(Preparado(m.attributes, now)["created_at" := Text(now)]));
  }

  /**
   * Saving an existing record succeeds iff it holds an id naming a stored row; that row then
   * carries every attribute but the id, and nothing else changes.
   */
  lemma SaveExistente(m: Rec, t: Table<Attrs>, now: string)
    requires Valid(t) && m.persisted
    ensures var (m2, t2, ok) := SaveTransacao(m, t, now);
      var a := Preparado(m.attributes, now);
      && Valid(t2) && m2 == Rec(a, true)
      && (ok <==> KeyOf(m.attributes).Some? && Has(t, KeyOf(m.attributes).value))
      && (ok ==> Get(t2, KeyOf(m.attributes).value) == Some(Get(t, KeyOf(m.attributes).value).value + Columns(a)))
      && (forall other :: (!ok || other != KeyOf(m.attributes).value) ==> Get(t2, other) == Get(t, other))
  {
    var a := Preparado(m.attributes, now);
    assert KeyOf(a) == KeyOf(m.attributes);
    if KeyOf(a).Some? {
      var k := KeyOf(a).value;
      var f := (cols: Attrs) => cols + Columns(a);
      UpdateSpec(t, k, f);
      forall other | !Has(t, k) || other != k ensures Get(Update(t, k, f).0, other) == Get(t, other) {
        if other == k { assert Get(t, k).None?; }
      }
    }
  }

  /**
   * Creating a record from fillable attributes that already hold their defaults and no id
   * stores exactly those attributes plus `created_at`, under the next id, which the object adopts.
   */
  lemma CriarSpec(t: Table<Attrs>, d: Attrs, now: string)
    requires Valid(t) && (forall k :: k in d ==> k in Fillable) && Preparado(d, now) == d
    ensures var (m2, t2, ok) := SaveTransacao(Rec(Filled(map[], Fillable, d), false), t, now);
      && ok && m2.persisted && Attr(m2.attributes, PrimaryKey) == Int(t.nextId)
      && Get(t2, t.nextId) == Some(d["created_at" := Text(now)])
  {
    FillableKeeps(d);
    assert PrimaryKey !in Fillable;
    assert PrimaryKey !in d;
    SaveNovo(Rec(d, false), t, now);
    assert Columns(d["created_at" := Text(now)]) == d["created_at" := Text(now)];
  }

  /** `registrarDeposito` on a valid table stores exactly the deposit's fields plus `created_at`. */
  lemma RegistrarDepositoSpec(t: Table<Attrs>, contaId: int, saldo: real, valor: real, descricao: Option<string>, now: string)
    requires Valid(t) && now != "" && now != "0"
    ensures var (m2, t2, ok) := SaveTransacao(Rec(Filled(map[], Fillable, Deposito(Int(contaId), saldo, valor, descricao, now)), false), t, now);
      && ok && m2.persisted && Attr(m2.attributes, PrimaryKey) == Int(t.nextId)
      && Get(t2, t.nextId) == Some(Deposito(Int(contaId), saldo, valor, descricao, now)["created_at" := Text(now)])
  {
    var d := Deposito(Int(contaId), saldo, valor, descricao, now);
    assert d["status"] == Text("concluida") && d["data_transacao"] == Text(now);
    assert Preparado(d, now) == d;
    CriarSpec(t, d, now);
  }

  /** `registrarSaque` on a valid table stores exactly the withdrawal's fields plus `created_at`. */
  lemma RegistrarSaqueSpec(t: Table<Attrs>, contaId: int, saldo: real, valor: real, tarifa: real, descricao: Option<string>, now: string)
    requires Valid(t) && now != "" && now != "0"
    ensures var (m2, t2, ok) := SaveTransacao(Rec(Filled(map[], Fillable, Saque(Int(contaId), saldo, valor, tarifa, descricao, now)), false), t, now);
      && ok && m2.persisted && Attr(m2.attributes, PrimaryKey) == Int(t.nextId)
      && Get(t2, t.nextId) == Some(Saque(Int(contaId), saldo, valor, tarifa, descricao, now)["created_at" := Text(now)])
  {
    var d := Saque(Int(contaId), saldo, valor, tarifa, descricao, now);
    assert d["status"] == Text("concluida") && d["data_transacao"] == Text(now);
    assert Preparado(d, now) == d;
    CriarSpec(t, d, now);
  }

  lemma DataDescPreorder()
    ensures TotalPreorder(DataDesc)
  {
    SqlLePreorder();
    forall x: (int, Attrs), y: (int, Attrs) ensures DataDesc(x, y) || DataDesc(y, x) {
      assert SqlLe(Attr(y.1, "data_transacao"), Attr(x.1, "data_transacao")) || SqlLe(Attr(x.1, "data_transacao"), Attr(y.1, "data_transacao"));
    }
    forall x: (int, Attrs), y: (int, Attrs), z: (int, Attrs) | DataDesc(x, y) && DataDesc(y, z) ensures DataDesc(x, z) {
      var vx, vy, vz := Attr(x.1, "data_transacao"), Attr(y.1, "data_transacao"), Attr(z.1, "data_transacao");
      assert SqlLe(vz, vy) && SqlLe(vy, vx);
    }
  }

  /**
   * `buscarPorConta` returns stored rows that name the account as origin or destination,
   * newest first, `limite` of them at most (all when `limite` is negative); when the limit
   * does not cut, it returns every such row.
   */
  lemma PorContaSpec(t: Table<Attrs>, contaId: int, limite: int)
    ensures var sel := Select(t.rows, (cols: Attrs) => Envolve(cols, contaId));
      var r := PorConta(t, contaId, limite);
      && |r| == (if 0 <= limite < |sel| then limite else |sel|)
      && SortedBy(r, DataDesc)
      && (forall i :: 0 <= i < |r| ==> r[i] in t.rows && Envolve(r[i].1, contaId))
      && ((limite < 0 || limite >= |sel|) ==> multiset(r) == multiset(sel))
      && multiset(r) <= multiset(sel)
      && (0 < |r| ==> forall x | x in multiset(sel) - multiset(r) :: DataDesc(r[|r| - 1], x))
  {
    var p := (cols: Attrs) => Envolve(cols, contaId);
    var sel := Select(t.rows, p);
    var sorted := SortBy(sel, DataDesc);
    DataDescPreorder();
    SortBySpec(sel, DataDesc);
    var r := PorConta(t, contaId, limite);
    assert r == sorted[..|r|];
    PorContaLinhas(t, contaId, limite);
    PorContaCorte(t, contaId, limite);
  }

  /** Every row `buscarPorConta` returns is a stored row naming the account as origin or destination. */
  lemma PorContaLinhas(t: Table<Attrs>, contaId: int, limite: int)
    ensures var r := PorConta(t, contaId, limite);
      forall i :: 0 <= i < |r| ==> r[i] in t.rows && Envolve(r[i].1, contaId)
  {
    var p := (cols: Attrs) => Envolve(cols, contaId);
    var sel := Select(t.rows, p);
    var sorted := SortBy(sel, DataDesc);
    DataDescPreorder();
    SortBySpec(sel, DataDesc);
    var r := PorConta(t, contaId, limite);
    assert r == sorted[..|r|];
    forall i | 0 <= i < |r| ensures r[i] in t.rows && Envolve(r[i].1, contaId) {
      assert r[i] == sorted[i];
      assert sorted[i] in multiset(sorted);
      assert r[i] in multiset(sel);
    }
  }

  /** Under a cutting limit, the rows kept are distinct rows of the selection, and those cut off are no newer than the last kept. */
  lemma PorContaCorte(t: Table<Attrs>, contaId: int, limite: int)
    ensures var sel := Select(t.rows, (cols: Attrs) => Envolve(cols, contaId));
      var r := PorConta(t, contaId, limite);
      && multiset(r) <= multiset(sel)
      && (0 < |r| ==> forall x | x in multiset(sel) - multiset(r) :: DataDesc(r[|r| - 1], x))
  {
    var sel := Select(t.rows, (cols: Attrs) => Envolve(cols, contaId));
    var sorted := SortBy(sel, DataDesc);
    DataDescPreorder();
    SortBySpec(sel, DataDesc);
    var r := PorConta(t, contaId, limite);
    assert r == sorted[..|r|];
    if 0 < |r| {
      SortedPrefix(sorted, |r|, DataDesc);
    }
  }

  /** With its default limit, `buscarPorConta` returns at most 50 records, and all of them when there are no more. */
  lemma PorContaPadrao(t: Table<Attrs>, contaId: int)
    ensures var sel := Select(t.rows, (cols: Attrs) => Envolve(cols, contaId));
      && |PorConta(t, contaId, LimitePadrao)| <= 50
      && (|sel| <= 50 ==> multiset(PorConta(t, contaId, LimitePadrao)) == multiset(sel))
  {
    PorContaSpec(t, contaId, LimitePadrao);
  }

  /** A withdrawal recorded with the default fee charges nothing: the closing balance is the opening one less the amount. */
  lemma SaqueSemTarifa(contaId: int, saldo: real, valor: real, descricao: Option<string>, now: string)
    ensures var a := Filled(map[], Fillable, Saque(Int(contaId), saldo, valor, 0.0, descricao, now));
      Attr(a, "tarifa") == Num(0.0) && Attr(a, "saldo_posterior") == Num(saldo - valor)
  {
    SaqueSpec(contaId, saldo, valor, 0.0, descricao, now);
  }

  /** Every record `buscarPorConta` loads is, by `isDebito` or `isCredito`, a movement of that account. */
  lemma BuscadosDaConta(t: Table<Attrs>, contaId: int, limite: int)
    ensures forall i :: 0 <= i < |PorConta(t, contaId, limite)| ==>
      var row := PorConta(t, contaId, limite)[i];
      IsDebito(Loaded(Fillable, row.0, row.1), contaId) || IsCredito(Loaded(Fillable, row.0, row.1), contaId)
  {
    PorContaLinhas(t, contaId, limite);
  }
}
