/**
 * The movement record `Transacao`: a model over the `transacoes` table whose factories
 * snapshot an account's balance, with its own `save` (no `updated_at`) and a per-account query.
 */
module Transacoes {
  import opened Results
  import opened Store
  import opened Text
  import opened Sorting
  import opened ActiveRecord
  import Contas

  const Fillable: seq<string> := [
    "conta_origem_id", "conta_destino_id", "tipo_operacao", "valor", "tarifa",
    "descricao", "saldo_anterior", "saldo_posterior", "data_transacao", "status"]

  /** `$conta->id`: null until the account has been saved. */
  function IdDe(stored: bool, id: int): Value { if stored then Int(id) else Null }

  function DescricaoOu(descricao: Option<string>, padrao: string): string
  {
    if descricao.Some? then descricao.value else padrao
  }

  /** The attributes `registrarDeposito` passes to `create`. */
  function Deposito(conta: Value, saldo: real, valor: real, descricao: Option<string>, now: string): Attrs
  {
    map[
      "conta_destino_id" := conta,
      "tipo_operacao" := Text("deposito"),
      "valor" := Num(valor),
      "tarifa" := Num(0.0),
      "descricao" := Text(DescricaoOu(descricao, "Depósito em conta")),
      "saldo_anterior" := Num(saldo),
      "saldo_posterior" := Num(saldo + valor),
      "data_transacao" := Text(now),
      "status" := Text("concluida")]
  }

  /** The attributes `registrarSaque` passes to `create` (the caller's default fee is 0). */
  function Saque(conta: Value, saldo: real, valor: real, tarifa: real, descricao: Option<string>, now: string): Attrs
  {
    map[
      "conta_origem_id" := conta,
      "tipo_operacao" := Text("saque"),
      "valor" := Num(valor),
      "tarifa" := Num(tarifa),
      "descricao" := Text(DescricaoOu(descricao, "Saque em conta")),
      "saldo_anterior" := Num(saldo),
      "saldo_posterior" := Num(saldo - (valor + tarifa)),
      "data_transacao" := Text(now),
      "status" := Text("concluida")]
  }

  /** The two defaults `save` fills in when they are `empty()`. */
  function Preparado(attrs: Attrs, now: string): Attrs
  {
    var a1 := if EmptyValue(Attr(attrs, "status")) then attrs["status" := Text("concluida")] else attrs;
    if EmptyValue(Attr(a1, "data_transacao")) then a1["data_transacao" := Text(now)] else a1
  }

  /**
   * `Transacao::save`: an existing record rewrites every attribute but `id` to the row with its
   * id; a new one is inserted with `created_at` only, then adopts the new id.
   */
  function SaveTransacao(m: Rec, t: Table<Attrs>, now: string): (Rec, Table<Attrs>, bool)
  {
    var a := Preparado(m.attributes, now);
    if m.persisted then
      match KeyOf(a)
      case None => (Rec(a, true), t, false)
      case Some(k) =>
        var (t2, n) := Update(t, k, (cols: Attrs) => cols + Columns(a));
        (Rec(a, true), t2, n > 0)
    else
      var (t2, id) := Insert(t, Columns(a["created_at" := Text(now)]));
      if id != 0 then (Rec(a[PrimaryKey := Int(id)], true), t2, true)
      else (Rec(a, false), t2, false)
  }

  /** `conta_origem_id = ? OR conta_destino_id = ?`. */
  predicate Envolve(cols: Attrs, contaId: int)
  {
    SqlEqInt(Attr(cols, "conta_origem_id"), contaId) || SqlEqInt(Attr(cols, "conta_destino_id"), contaId)
  }

  /** `ORDER BY data_transacao DESC`. */
  function DataDesc(x: (int, Attrs), y: (int, Attrs)): bool
  {
    SqlLe(Attr(y.1, "data_transacao"), Attr(x.1, "data_transacao"))
  }

  /** The rows `buscarPorConta` fetches. */
  function PorConta(t: Table<Attrs>, contaId: int, limite: int): seq<(int, Attrs)>
  {
    Limit(SortBy(Select(t.rows, (cols: Attrs) => Envolve(cols, contaId)), DataDesc), limite)
  }

  /** PHP 8 loose `==` between a stored value and an int (`null == 0` holds). */
  predicate LooseEqInt(v: Value, n: int)
  {
    match v
    case Null => n == 0
    case Int(i) => i == n
    case Num(r) => r == n as real
    case Text(s) => s == IntToString(n)
  }

  /** `isDebito($contaId)`. */
  predicate IsDebito(m: Rec, contaId: int) { LooseEqInt(Attr(m.attributes, "conta_origem_id"), contaId) }

  /** `isCredito($contaId)`. */
  predicate IsCredito(m: Rec, contaId: int) { LooseEqInt(Attr(m.attributes, "conta_destino_id"), contaId) }

  /** `save()` on a `Transacao` object. */
  method Salvar(m: Model, now: string) returns (ok: bool)
    modifies m, m.tabela
    ensures (m.Snap(), m.tabela.t, ok) == SaveTransacao(old(m.Snap()), old(m.tabela.t), now)
  {
    if EmptyValue(m.Get("status")) {
      m.Set("status", Text("concluida"));
    }
    if EmptyValue(m.Get("data_transacao")) {
      m.Set("data_transacao", Text(now));
    }
    if m.persisted {
      var key := KeyOf(m.attributes);
      if key.None? {
        return false;
      }
      var data := Columns(m.attributes);
      var r := Update(m.tabela.t, key.value, (cols: Attrs) => cols + data);
      m.tabela.t := r.0;
      ok := r.1 > 0;
    } else {
      var data := m.attributes["created_at" := Text(now)];
      var ins := Insert(m.tabela.t, Columns(data));
      m.tabela.t := ins.0;
      if ins.1 != 0 {
        m.Set(PrimaryKey, Int(ins.1));
        m.persisted := true;
        ok := true;
      } else {
        ok := false;
      }
    }
  }

  /** `registrarDeposito`: `create` with the account's current balance; the account is not touched. */
  method RegistrarDeposito(tabela: Tabela, conta: Contas.Conta, valor: real, descricao: Option<string>, now: string)
    returns (m: Model, ok: bool)
    modifies tabela
    ensures fresh(m) && m.tabela == tabela && m.fillable == Fillable
    ensures (m.Snap(), tabela.t, ok) == SaveTransacao(
      Rec(Filled(map[], Fillable, Deposito(IdDe(conta.stored, conta.id), conta.saldo, valor, descricao, now)), false),
      old(tabela.t), now)
  {
    var saldoAnterior := conta.saldo;
    m := new Model(tabela, Fillable, Deposito(IdDe(conta.stored, conta.id), saldoAnterior, valor, descricao, now));
    ok := Salvar(m, now);
  }

  /** `registrarSaque`. */
  method RegistrarSaque(tabela: Tabela, conta: Contas.Conta, valor: real, tarifa: real, descricao: Option<string>, now: string)
    returns (m: Model, ok: bool)
    modifies tabela
    ensures fresh(m) && m.tabela == tabela && m.fillable == Fillable
    ensures (m.Snap(), tabela.t, ok) == SaveTransacao(
      Rec(Filled(map[], Fillable, Saque(IdDe(conta.stored, conta.id), conta.saldo, valor, tarifa, descricao, now)), false),
      old(tabela.t), now)
  {
    var saldoAnterior := conta.saldo;
    m := new Model(tabela, Fillable, Saque(IdDe(conta.stored, conta.id), saldoAnterior, valor, tarifa, descricao, now));
    ok := Salvar(m, now);
  }

  /** `registrarSaque($conta, $valor)` with the fee left out: the default fee of 0. */
  method RegistrarSaqueSemTarifa(tabela: Tabela, conta: Contas.Conta, valor: real, descricao: Option<string>, now: string)
    returns (m: Model, ok: bool)
    modifies tabela
    ensures fresh(m) && m.tabela == tabela && m.fillable == Fillable
    ensures (m.Snap(), tabela.t, ok) == SaveTransacao(
      Rec(Filled(map[], Fillable, Saque(IdDe(conta.stored, conta.id), conta.saldo, valor, 0.0, descricao, now)), false),
      old(tabela.t), now)
  {
    m, ok := RegistrarSaque(tabela, conta, valor, 0.0, descricao, now);
  }

  /** The number of records `buscarPorConta` returns when the caller passes no limit. */
  const LimitePadrao: int := 50

  /** `buscarPorConta($contaId)` with the limit left out: at most 50 records. */
  method BuscarPorContaPadrao(tabela: Tabela, contaId: int) returns (ms: seq<Model>)
    ensures |ms| == |PorConta(tabela.t, contaId, LimitePadrao)|
    ensures forall i :: 0 <= i < |ms| ==> fresh(ms[i]) && ms[i].tabela == tabela && ms[i].fillable == Fillable
    ensures forall i :: 0 <= i < |ms| ==>
      ms[i].Snap() == Loaded(Fillable, PorConta(tabela.t, contaId, LimitePadrao)[i].0, PorConta(tabela.t, contaId, LimitePadrao)[i].1)
  {
    ms := BuscarPorConta(tabela, contaId, LimitePadrao);
  }

  /** `buscarPorConta`: one existing model per fetched row, in the query's order. */
  method BuscarPorConta(tabela: Tabela, contaId: int, limite: int) returns (ms: seq<Model>)
    ensures |ms| == |PorConta(tabela.t, contaId, limite)|
    ensures forall i :: 0 <= i < |ms| ==> fresh(ms[i]) && ms[i].tabela == tabela && ms[i].fillable == Fillable
    ensures forall i :: 0 <= i < |ms| ==>
      ms[i].Snap() == Loaded(Fillable, PorConta(tabela.t, contaId, limite)[i].0, PorConta(tabela.t, contaId, limite)[i].1)
  {
    ms := Carregar(tabela, PorConta(tabela.t, contaId, limite));
  }

  /** The `array_map` of `buscarPorConta`: a loaded model per row. */
  method Carregar(tabela: Tabela, data: seq<(int, Attrs)>) returns (ms: seq<Model>)
    ensures |ms| == |data|
    ensures forall i :: 0 <= i < |ms| ==> fresh(ms[i]) && ms[i].tabela == tabela && ms[i].fillable == Fillable
    ensures forall i :: 0 <= i < |ms| ==> ms[i].Snap() == Loaded(Fillable, data[i].0, data[i].1)
  {
    ms := [];
    var i := 0;
    while i < |data|
      invariant 0 <= i <= |data| && |ms| == i
      invariant forall j :: 0 <= j < i ==> fresh(ms[j]) && ms[j].tabela == tabela && ms[j].fillable == Fillable
      invariant forall j :: 0 <= j < i ==> ms[j].Snap() == Loaded(Fillable, data[j].0, data[j].1)
    {
      var m := Model.Load(tabela, Fillable, data[i].0, data[i].1);
      ms := ms + [m];
      i := i + 1;
    }
  }
}
