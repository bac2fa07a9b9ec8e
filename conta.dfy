/**
 * The account objects (Conta and its two concrete classes). Each method changes the object's
 * attributes in place and saves through the shared store handle; each is proved to do exactly
 * what the matching function of ContaSpec describes.
 */
module Contas {
  import opened Results
  import opened Store
  import opened Text
  import opened Ledger
  import opened ContaSpec
  import CC = ContaCorrente
  import CP = ContaPoupanca
  import ContaProperties

  lemma FirstOfKindAt(accts: seq<Acct>, k: Kind, i: nat)
    requires i < |accts| && accts[i].kind == k
    requires forall j :: 0 <= j < i ==> accts[j].kind != k
    ensures FirstOfKind(accts, k) == Some(accts[i])
  {
    if i > 0 { FirstOfKindAt(accts[1..], k, i - 1); }
  }

  class Conta {
    const bank: Bank
    /** The object's class: ContaCorrente or ContaPoupanca. */
    const kind: Kind
    var id: int
    var stored: bool
    var numero: string
    var clienteId: int
    var tipo: string
    var saldo: real
    var limite: real
    var bloqueada: bool
    var limiteDiario: real

    function Snap(): Acct reads this
    {
      Acct(kind, id, stored, numero, clienteId, tipo, saldo, limite, bloqueada, limiteDiario)
    }

    /** `new $className($data)`: an object holding the given attributes. */
    constructor (bank: Bank, a: Acct)
      ensures this.bank == bank && Snap() == a
    {
      this.bank := bank;
      kind := a.kind;
      id, stored, numero, clienteId, tipo := a.id, a.stored, a.numero, a.clienteId, a.tipo;
      saldo, limite, bloqueada, limiteDiario := a.saldo, a.limite, a.bloqueada, a.limiteDiario;
    }

    // ---------------------------------------------------------------- queries

    predicate IsBloqueada() reads this { bloqueada }

    function GetSaldo(): real reads this { saldo }

    function SaldoDisponivel(): (r: real) reads this
      ensures kind == Corrente ==> r == saldo + limite
      ensures kind == Poupanca ==> r == saldo
    {
      ContaSpec.SaldoDisponivel(Snap())
    }

    /** `temSaldoSuficiente(v)`: exactly when the available balance covers `v`. */
    predicate TemSaldoSuficiente(v: real) reads this
      ensures TemSaldoSuficiente(v) <==> v <= (if kind == Corrente then saldo + limite else saldo)
    {
      ContaSpec.TemSaldoSuficiente(Snap(), v)
    }

    // ---------------------------------------------------------------- number generation and lookups

    /** `gerarNumeroConta`: draw until a number no account carries comes up. */
    static method GerarNumeroConta(bank: Bank) returns (r: Option<string>)
      modifies bank
      ensures bank.contas == old(bank.contas) && bank.clientes == old(bank.clientes)
      ensures var g := Generate(old(bank.draws), bank.contas);
        && (g.None? ==> r.None? && bank.draws == [])
        && (g.Some? ==> r == Some(g.value.0) && bank.draws == g.value.1)
    {
      while true
        invariant bank.contas == old(bank.contas) && bank.clientes == old(bank.clientes)
        invariant Generate(bank.draws, bank.contas) == Generate(old(bank.draws), bank.contas)
        decreases |bank.draws|
      {
        if bank.draws == [] { return None; }
        var numero := FormatDraw(bank.draws[0]);
        var existe := NumberTaken(bank.contas, numero);
        bank.draws := bank.draws[1..];
        if !existe { return Some(numero); }
      }
    }

    /** `buscarPorNumero(n)` called on `caller` (None: the abstract Conta). */
    static method BuscarPorNumero(bank: Bank, n: string, caller: Option<Kind>) returns (r: Result<Conta?, Error>)
      ensures var spec := ContaSpec.BuscarPorNumero(bank.contas, n, caller);
        && (r.Err? <==> spec.Err?) && (r.Err? ==> r.error == spec.error)
        && (r.Ok? ==> (r.value == null <==> spec.value.None?))
        && (r.Ok? && r.value != null ==> fresh(r.value) && r.value.bank == bank && r.value.Snap() == spec.value.value)
    {
      var f := First(bank.contas.rows, (row: ContaRow) => row.numero == n);
      if f.None? { return Ok(null); }
      var k := KindFor(f.value.1.tipo, caller);
      if k.None? { return Err(ClasseAbstrata); }
      var c := new Conta(bank, Load(k.value, f.value.0, f.value.1));
      return Ok(c);
    }

    /** `buscarPorCliente(clienteId)` called on `caller`: one fresh object per row, oldest first. */
    static method BuscarPorCliente(bank: Bank, clienteId: int, caller: Option<Kind>) returns (r: Result<seq<Conta>, Error>)
      ensures var spec := ContaSpec.BuscarPorCliente(bank.contas, clienteId, caller);
        && (r.Err? <==> spec.Err?) && (r.Err? ==> r.error == spec.error)
        && (r.Ok? ==> |r.value| == |spec.value| && forall i :: 0 <= i < |r.value| ==>
              fresh(r.value[i]) && r.value[i].bank == bank && r.value[i].Snap() == spec.value[i])
    {
      var rows := RowsDoCliente(bank.contas, clienteId);
      var acc: seq<Conta> := [];
      var i := 0;
      while i < |rows|
        invariant 0 <= i <= |rows| && |acc| == i
        invariant forall j :: 0 <= j < i ==> KindFor(rows[j].1.tipo, caller).Some?
        invariant forall j :: 0 <= j < i ==>
          fresh(acc[j]) && acc[j].bank == bank && acc[j].Snap() == Load(KindFor(rows[j].1.tipo, caller).value, rows[j].0, rows[j].1)
      {
        var k := KindFor(rows[i].1.tipo, caller);
        if k.None? {
          ContaProperties.LoadAllSpec(rows, caller);
          return Err(ClasseAbstrata);
        }
        var c := new Conta(bank, Load(k.value, rows[i].0, rows[i].1));
        acc := acc + [c];
        i := i + 1;
      }
      ContaProperties.LoadAllSpec(rows, caller);
      return Ok(acc);
    }

    // ---------------------------------------------------------------- persistence

    /** Conta::save then Model::save. */
    method Save() returns (r: Result<bool, Error>)
      modifies this, bank
      ensures Outcome(Snap(), bank.State(), r) == Persist(old(Snap()), old(bank.State()))
    {
      if EmptyStr(numero) {
        var n := GerarNumeroConta(bank);
        if n.None? { return Err(NumerosEsgotados); }
        numero := n.value;
      }
      var guard := SaveGuard(bank.clientes, clienteId);
      if guard.Some? { return Err(guard.value); }
      if stored {
        var (t, affected) := Replace(bank.contas, id, RowOf(Snap()));
        bank.contas := t;
        r := Ok(affected > 0);
      } else {
        var (t, newId) := Insert(bank.contas, RowOf(Snap()));
        bank.contas := t;
        id, stored := newId, true;
        r := Ok(true);
      }
    }

    // ---------------------------------------------------------------- Conta

    method Creditar(v: real) returns (r: Result<bool, Error>)
      modifies this, bank
      ensures Outcome(Snap(), bank.State(), r) == ContaSpec.Creditar(old(Snap()), v, old(bank.State()))
    {
      if v <= 0.0 { return Err(ValorInvalido); }
      ghost var a0 := Snap();
      saldo := saldo + v;
      assert Snap() == a0.(saldo := a0.saldo + v);
      r := Save();
    }

    /** `debitar(v)`, with ContaPoupanca's override for savings. */
    method Debitar(v: real) returns (r: Result<bool, Error>)
      modifies this, bank
      ensures Outcome(Snap(), bank.State(), r) == ContaSpec.Debitar(old(Snap()), v, old(bank.State()))
    {
      if kind == Poupanca && v > saldo { return Err(PoupancaSemChequeEspecial); }
      if v <= 0.0 { return Err(ValorInvalido); }
      if IsBloqueada() { return Err(ContaBloqueada); }
      if !TemSaldoSuficiente(v) { return Err(SaldoInsuficiente); }
      saldo := saldo - v;
      r := Save();
    }

    method Bloquear() returns (r: Result<bool, Error>)
      modifies this, bank
      ensures Outcome(Snap(), bank.State(), r) == ContaSpec.Bloquear(old(Snap()), old(bank.State()))
    {
      bloqueada := true;
      r := Save();
    }

    method Desbloquear() returns (r: Result<bool, Error>)
      modifies this, bank
      ensures Outcome(Snap(), bank.State(), r) == ContaSpec.Desbloquear(old(Snap()), old(bank.State()))
    {
      bloqueada := false;
      r := Save();
    }

    /** The debit-then-credit every transfer ends with. */
    method MoveTo(dest: Conta, debito: real, credito: real) returns (r: Result<bool, Error>)
      requires dest.bank == bank && dest != this
      modifies this, dest, bank
      ensures Outcome2(Snap(), dest.Snap(), bank.State(), r) ==
        MoveFunds(old(Snap()), old(dest.Snap()), debito, credito, old(bank.State()))
    {
      r := Debitar(debito);
      if r.Err? { return; }
      var r2 := dest.Creditar(credito);
      r := if r2.Err? then r2 else Ok(true);
    }

    method TransferirPara(dest: Conta, v: real) returns (r: Result<bool, Error>)
      requires dest.bank == bank
      modifies this, dest, bank
      ensures Outcome2(Snap(), dest.Snap(), bank.State(), r) ==
        ContaSpec.TransferirPara(old(Snap()), old(dest.Snap()), v, old(bank.State()))
    {
      if numero == dest.numero { return Err(MesmaConta); }
      var total := TotalComTarifa(Snap(), v);
      if !TemSaldoSuficiente(total) { return Err(SaldoInsuficienteTarifa); }
      r := MoveTo(dest, total, v);
    }

    // ---------------------------------------------------------------- ContaCorrente / ContaPoupanca

    method Sacar(v: real) returns (r: Result<bool, Error>)
      modifies this, bank
      ensures Outcome(Snap(), bank.State(), r) == ContaSpec.Sacar(old(Snap()), v, old(bank.State()))
    {
      if v > limiteDiario { return Err(LimiteDiarioExcedido); }
      var total := if kind == Corrente then v + CC.Tarifa("saque") else v;
      r := Debitar(total);
    }

    method Depositar(v: real) returns (r: Result<bool, Error>)
      modifies this, bank
      ensures Outcome(Snap(), bank.State(), r) == ContaSpec.Depositar(old(Snap()), v, old(bank.State()))
    {
      r := Creditar(v);
    }

    method Pix(dest: Conta, v: real) returns (r: Result<bool, Error>)
      requires dest.bank == bank
      modifies this, dest, bank
      ensures Outcome2(Snap(), dest.Snap(), bank.State(), r) == ContaSpec.Pix(old(Snap()), old(dest.Snap()), v, old(bank.State()))
    {
      if numero == dest.numero { return Err(PixMesmaConta); }
      r := MoveTo(dest, v, v);
    }

    method Ted(dest: Conta, v: real) returns (r: Result<bool, Error>)
      requires dest.bank == bank
      modifies this, dest, bank
      ensures dest != this ==>
        Outcome2(Snap(), dest.Snap(), bank.State(), r) == ContaSpec.Ted(old(Snap()), old(dest.Snap()), v, old(bank.State()))
      ensures dest == this ==> Outcome(Snap(), bank.State(), r) == TedSelf(old(Snap()), v, old(bank.State()))
    {
      var total := TedTotal(Snap(), v);
      if dest == this {
        r := MoveWithin(total, v);
      } else {
        r := MoveTo(dest, total, v);
      }
    }

    /** Debit-then-credit on this one object. */
    method MoveWithin(debito: real, credito: real) returns (r: Result<bool, Error>)
      modifies this, bank
      ensures Outcome(Snap(), bank.State(), r) == MoveFundsSelf(old(Snap()), debito, credito, old(bank.State()))
    {
      r := Debitar(debito);
      if r.Err? { return; }
      var r2 := Creditar(credito);
      r := if r2.Err? then r2 else Ok(true);
    }

    method AlterarLimite(novo: real) returns (r: Result<bool, Error>)
      requires kind == Corrente
      modifies this, bank
      ensures Outcome(Snap(), bank.State(), r) == ContaSpec.AlterarLimite(old(Snap()), novo, old(bank.State()))
    {
      if novo < 0.0 { return Err(LimiteNegativo); }
      if CC.ValorUsado(saldo) > novo { return Err(LimiteAbaixoDoUso); }
      limite := novo;
      r := Save();
    }

    method AplicarRendimento() returns (r: Result<bool, Error>)
      requires kind == Poupanca
      modifies this, bank
      ensures Outcome(Snap(), bank.State(), r) == ContaSpec.AplicarRendimento(old(Snap()), old(bank.State()))
    {
      var rendimento := CP.Rendimento(saldo);
      if rendimento > 0.0 {
        saldo := saldo + rendimento;
        r := Save();
      } else {
        r := Ok(true);
      }
    }

    method TransferirParaContaCorrente(v: real) returns (r: Result<bool, Error>)
      requires kind == Poupanca
      modifies this, bank
      ensures Outcome(Snap(), bank.State(), r) ==
        ContaSpec.TransferirParaContaCorrente(old(Snap()), v, old(bank.State()))
    {
      var contas := BuscarPorCliente(bank, clienteId, Some(Poupanca));
      ghost var spec := ContaSpec.BuscarPorCliente(bank.contas, clienteId, Some(Poupanca));
      if contas.Err? { return Err(SemContaCorrente); }
      var idx := PrimeiraCorrente(contas.value);
      if idx < 0 { return Err(SemContaCorrente); }
      FirstOfKindAt(spec.value, Corrente, idx);
      r := MoveTo(contas.value[idx], v, v);
    }

    /** The `instanceof ContaCorrente` search: the index of the first checking account, or -1. */
    static method PrimeiraCorrente(contas: seq<Conta>) returns (idx: int)
      ensures -1 <= idx < |contas|
      ensures idx >= 0 ==> contas[idx].kind == Corrente && forall j :: 0 <= j < idx ==> contas[j].kind != Corrente
      ensures idx < 0 <==> forall j :: 0 <= j < |contas| ==> contas[j].kind != Corrente
    {
      var i := 0;
      while i < |contas|
        invariant 0 <= i <= |contas|
        invariant forall j :: 0 <= j < i ==> contas[j].kind != Corrente
      {
        if contas[i].kind == Corrente { return i; }
        i := i + 1;
      }
      return -1;
    }

    /** `projetarRendimento(meses)`: the month-by-month loop; the stored balance is not touched. */
    method ProjetarRendimento(meses: int) returns (r: seq<CP.Mes>)
      requires kind == Poupanca
      ensures r == CP.Projecao(saldo, meses)
    {
      var saldoAtual := saldo;
      r := [];
      var mes := 1;
      while mes <= meses
        invariant 1 <= mes <= (if meses >= 1 then meses + 1 else 1)
        invariant |r| == mes - 1 && saldoAtual == CP.Composto(saldo, mes - 1)
        invariant forall j :: 0 <= j < |r| ==>
          r[j] == CP.Mes(j + 1, CP.Composto(saldo, j) * CP.RendimentoMensal, CP.Composto(saldo, j + 1))
      {
        var rendimento := saldoAtual * CP.RendimentoMensal;
        CP.ComposeStep(saldo, mes - 1);
        saldoAtual := saldoAtual + rendimento;
        r := r + [CP.Mes(mes, rendimento, saldoAtual)];
        mes := mes + 1;
      }
      assert |r| == |CP.Projecao(saldo, meses)|;
    }
  }

  /** `criar`: a new object, filled with a fresh number and the kind's defaults, then saved. */
  method Criar(bank: Bank, k: Kind, clienteId: int, limite: real) returns (c: Conta, r: Result<bool, Error>)
    modifies bank
    ensures fresh(c) && c.bank == bank
    ensures Outcome(c.Snap(), bank.State(), r) == ContaSpec.Criar(k, clienteId, limite, old(bank.State()))
  {
    var n := Conta.GerarNumeroConta(bank);
    if n.None? {
      c := new Conta(bank, Acct(k, 0, false, "", 0, "", 0.0, 0.0, false, 0.0));
      return c, Err(NumerosEsgotados);
    }
    var a := match k
      case Corrente => Acct(k, 0, false, n.value, clienteId, "corrente", 0.00, limite, false, 5000.00)
      case Poupanca => Acct(k, 0, false, n.value, clienteId, "poupanca", 0.00, 0.00, false, 3000.00);
    c := new Conta(bank, a);
    r := c.Save();
  }

  /** `ContaCorrente::criar($clienteId)` with the limit argument left out: the 500.00 default. */
  method CriarCorrente(bank: Bank, clienteId: int) returns (c: Conta, r: Result<bool, Error>)
    modifies bank
    ensures fresh(c) && c.bank == bank
    ensures Outcome(c.Snap(), bank.State(), r) == ContaSpec.Criar(Corrente, clienteId, CC.LimitePadrao, old(bank.State()))
  {
    c, r := Criar(bank, Corrente, clienteId, CC.LimitePadrao);
  }
}
