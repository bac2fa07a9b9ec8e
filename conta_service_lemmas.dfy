/** Properties of the ContaService use cases. */
module ContaServiceProperties {
  import opened Results
  import opened Store
  import opened Text
  import opened Ledger
  import opened ContaSpec
  import opened ContaService
  import CC = ContaCorrente
  import ContaProperties
  import Clientes

  // ---------------------------------------------------------------- lookups by number

  /** The account `Localizar` returns is the stored row with that number, loaded under its own id. */
  lemma LocalizarFound(numero: string, db: Db)
    requires Valid(db.contas) && Localizar(numero, db).Ok?
    ensures var a := Localizar(numero, db).value;
      && a.stored && a.numero == numero
      && Get(db.contas, a.id) == Some(RowOf(a))
      && KindFor(a.tipo, None) == Some(a.kind)
  {
    var f := First(db.contas.rows, (r: ContaRow) => r.numero == numero).value;
    var k :| 0 <= k < |db.contas.rows| && db.contas.rows[k] == f;
    FindRowAt(db.contas.rows, k);
  }

  /** After the found account's row is rewritten with the same number and type, the lookup sees the new content. */
  lemma LocalizarAfterRewrite(numero: string, db: Db, a2: Acct)
    requires Valid(db.contas) && Localizar(numero, db).Ok?
    requires var a := Localizar(numero, db).value;
      a2.numero == a.numero && a2.tipo == a.tipo && a2.kind == a.kind && a2.id == a.id && a2.stored
    ensures Localizar(numero, db.(contas := Replace(db.contas, a2.id, RowOf(a2)).0)) == Ok(a2)
  {
    var rows := db.contas.rows;
    var p := (r: ContaRow) => r.numero == numero;
    var f := First(rows, p).value;
    var k :| 0 <= k < |rows| && rows[k] == f;
    forall i | 0 <= i < |rows| && rows[i].0 == a2.id ensures p(rows[i].1) == p(RowOf(a2)) {
      assert i == k;
    }
    FirstReplaced(rows, a2.id, RowOf(a2), p);
  }

  /** Saving a looked-up account whose owner is on file rewrites exactly its row and reports success. */
  lemma PersistLoaded(numero: string, db: Db, a2: Acct)
    requires Valid(db.contas) && Localizar(numero, db).Ok? && !EmptyStr(numero)
    requires var a := Localizar(numero, db).value;
      a2.numero == a.numero && a2.tipo == a.tipo && a2.kind == a.kind && a2.id == a.id && a2.stored
    requires SaveGuard(db.clientes, a2.clienteId).None?
    ensures Persist(a2, db) == Outcome(a2, db.(contas := Replace(db.contas, a2.id, RowOf(a2)).0), Ok(true))
  {
    LocalizarFound(numero, db);
    UpdateSpec(db.contas, a2.id, (_: ContaRow) => RowOf(a2));
  }

  // ---------------------------------------------------------------- opening an account

  lemma KindForNone(tipo: string, k: Kind)
    ensures KindFor(tipo, None) == Some(k) <==> tipo == TipoDe(k)
  {
  }

  /**
   * The opening checks, in order: client missing, client inactive, a stored account of an
   * unknown type (the abstract class cannot be instantiated), an account of the same kind
   * already there, and for checking only a limit outside [0, 10000].
   */
  lemma AberturaGuardSpec(k: Kind, clienteId: int, limite: real, db: Db)
    ensures Get(db.clientes, clienteId).None? ==> AberturaGuard(k, clienteId, limite, db) == Some(ClienteNaoEncontrado)
    ensures Get(db.clientes, clienteId).Some? && !Clientes.Ativo(Get(db.clientes, clienteId).value) ==>
      AberturaGuard(k, clienteId, limite, db) == Some(ClienteInativo)
    ensures k == Poupanca ==> AberturaGuard(k, clienteId, limite, db) != Some(LimiteAberturaForaDaFaixa)
    ensures var rows := RowsDoCliente(db.contas, clienteId);
      AberturaGuard(k, clienteId, limite, db).None? <==>
        && Get(db.clientes, clienteId).Some? && Clientes.Ativo(Get(db.clientes, clienteId).value)
        && (forall i :: 0 <= i < |rows| ==> rows[i].1.tipo == "corrente" || rows[i].1.tipo == "poupanca")
        && (forall i :: 0 <= i < |rows| ==> rows[i].1.tipo != TipoDe(k))
        && (k == Corrente ==> 0.0 <= limite <= 10000.0)
  {
    var rows := RowsDoCliente(db.contas, clienteId);
    ContaProperties.LoadAllSpec(rows, None);
    var r := LoadAll(rows, None);
    if r.Ok? {
      forall i | 0 <= i < |rows| ensures r.value[i].kind == k <==> rows[i].1.tipo == TipoDe(k) {
        KindForNone(rows[i].1.tipo, k);
      }
    }
  }

  /** A successful opening stores a fresh account of that kind for that client, with the kind's defaults. */
  lemma AberturaSpec(k: Kind, clienteId: int, limite: real, db: Db)
    requires Valid(db.contas) && Valid(db.clientes)
    ensures var o := Abertura(k, clienteId, limite, db);
      && (o.result.Err? ==> o.db.contas == db.contas && o.conta.None?)
      && (AberturaGuard(k, clienteId, limite, db).None? && Generate(db.draws, db.contas).Some? ==> o.result == Ok(true))
      && (o.result.Ok? ==>
            && o.conta.Some? && AberturaGuard(k, clienteId, limite, db).None?
            && var c := o.conta.value;
            && c.kind == k && c.clienteId == clienteId && c.tipo == TipoDe(k)
            && c.saldo == 0.0 && !c.bloqueada
            && c.limite == (if k == Corrente then limite else 0.0)
            && c.limiteDiario == (if k == Corrente then 5000.0 else 3000.0)
            && !NumberTaken(db.contas, c.numero)
            && o.db.contas.rows == db.contas.rows + [(c.id, RowOf(c))]
            && o.db.clientes == db.clientes)
  {
    if AberturaGuard(k, clienteId, limite, db).None? {
      if clienteId == 0 { FindRowIn(db.clientes.rows, 0); }
      assert SaveGuard(db.clientes, clienteId).None?;
      ContaProperties.CriarSpec(k, clienteId, limite, db);
    }
  }

  /** Opening the same kind twice for one client: the second attempt is refused. */
  lemma AberturaUnica(k: Kind, clienteId: int, limite: real, limite2: real, db: Db)
    requires Valid(db.contas) && Valid(db.clientes)
    requires Abertura(k, clienteId, limite, db).result.Ok?
    ensures AberturaGuard(k, clienteId, limite2, Abertura(k, clienteId, limite, db).db) == Some(JaPossui(k))
  {
    var o := Abertura(k, clienteId, limite, db);
    AberturaSpec(k, clienteId, limite, db);
    AberturaGuardSpec(k, clienteId, limite, db);
    var c := o.conta.value;
    var p := (r: ContaRow) => r.clienteId == clienteId;
    SelectAppend(db.contas.rows, (c.id, RowOf(c)), p);
    var rows := RowsDoCliente(db.contas, clienteId);
    var rows2 := RowsDoCliente(o.db.contas, clienteId);
    assert rows2 == rows + [(c.id, RowOf(c))];
    ContaProperties.LoadAllSpec(rows2, None);
    assert rows2[|rows|].1.tipo == TipoDe(k);
    var r := LoadAll(rows2, None);
    assert r.Ok? by {
      forall i | 0 <= i < |rows2| ensures KindFor(rows2[i].1.tipo, None).Some? {
        if i < |rows| { assert rows2[i] == rows[i]; }
      }
    }
    assert r.value[|rows|].kind == k;
  }

  // ---------------------------------------------------------------- changing the overdraft limit

  /**
   * `alterarLimiteChequeEspecial`: not found, not checking, blocked, outside [0, 10000], then
   * current usage above the new limit (a limit equal to the usage is accepted). On success the
   * account's row carries the new limit and nothing else about it changes.
   */
  lemma AlteracaoDeLimiteSpec(numero: string, novo: real, db: Db)
    requires Valid(db.contas)
    ensures Localizar(numero, db).Err? ==> AlteracaoDeLimite(numero, novo, db) == Efeito(db, Err(Localizar(numero, db).error))
    ensures Localizar(numero, db).Ok? ==>
      var a := Localizar(numero, db).value;
      var o := AlteracaoDeLimite(numero, novo, db);
      && (a.kind != Corrente ==> o == Efeito(db, Err(ApenasCorrente)))
      && (a.kind == Corrente && a.bloqueada ==> o == Efeito(db, Err(ContaBloqueada)))
      && (a.kind == Corrente && !a.bloqueada && (novo < 0.0 || novo > 10000.0) ==> o == Efeito(db, Err(LimiteForaDaFaixa)))
      && (AlteracaoGuard(a, novo).None? <==>
            a.kind == Corrente && !a.bloqueada && 0.0 <= novo <= 10000.0 && CC.ValorUsado(a.saldo) <= novo)
      && (AlteracaoGuard(a, novo).None? && !EmptyStr(numero) && SaveGuard(db.clientes, a.clienteId).None? ==>
            && o.result == Ok(true)
            && Localizar(numero, o.db) == Ok(a.(limite := novo))
            && o.db.clientes == db.clientes)
  {
    if Localizar(numero, db).Ok? {
      var a := Localizar(numero, db).value;
      if AlteracaoGuard(a, novo).None? && !EmptyStr(numero) && SaveGuard(db.clientes, a.clienteId).None? {
        LocalizarFound(numero, db);
        PersistLoaded(numero, db, a.(limite := novo));
        LocalizarAfterRewrite(numero, db, a.(limite := novo));
      }
    }
  }

  // ---------------------------------------------------------------- blocking and unblocking

  /** `bloquearConta`: not found, then already blocked; otherwise the stored account becomes blocked. */
  lemma BloqueioSpec(numero: string, db: Db)
    requires Valid(db.contas)
    ensures Localizar(numero, db).Err? ==> Bloqueio(numero, db) == Efeito(db, Err(Localizar(numero, db).error))
    ensures Localizar(numero, db).Ok? && Localizar(numero, db).value.bloqueada ==> Bloqueio(numero, db) == Efeito(db, Err(JaBloqueada))
    ensures (Localizar(numero, db).Ok? && !Localizar(numero, db).value.bloqueada && !EmptyStr(numero)
             && SaveGuard(db.clientes, Localizar(numero, db).value.clienteId).None?) ==>
      var a := Localizar(numero, db).value;
      && Bloqueio(numero, db).result == Ok(true)
      && Localizar(numero, Bloqueio(numero, db).db) == Ok(a.(bloqueada := true))
      && Bloqueio(numero, db).db.clientes == db.clientes
  {
    if Localizar(numero, db).Ok? {
      var a := Localizar(numero, db).value;
      if !a.bloqueada && !EmptyStr(numero) && SaveGuard(db.clientes, a.clienteId).None? {
        LocalizarFound(numero, db);
        PersistLoaded(numero, db, a.(bloqueada := true));
        LocalizarAfterRewrite(numero, db, a.(bloqueada := true));
      }
    }
  }

  /** Blocking an account twice: the second attempt always fails. */
  lemma BloqueioDuasVezes(numero: string, db: Db)
    requires Valid(db.contas) && !EmptyStr(numero)
    requires Bloqueio(numero, db).result.Ok?
    ensures Bloqueio(numero, Bloqueio(numero, db).db).result == Err(JaBloqueada)
  {
    BloqueioSpec(numero, db);
    var a := Localizar(numero, db).value;
    LocalizarFound(numero, db);
    assert SaveGuard(db.clientes, a.clienteId).None?;
  }

  /** `desbloquearConta`: not found, then not blocked, then no active owner; otherwise the account is unblocked. */
  lemma DesbloqueioSpec(numero: string, db: Db)
    requires Valid(db.contas)
    ensures Localizar(numero, db).Err? ==> Desbloqueio(numero, db) == Efeito(db, Err(Localizar(numero, db).error))
    ensures Localizar(numero, db).Ok? ==>
      var a := Localizar(numero, db).value;
      && (!a.bloqueada ==> Desbloqueio(numero, db) == Efeito(db, Err(NaoBloqueada)))
      && (a.bloqueada && (a.clienteId == 0 || !Has(db.clientes, a.clienteId) || !Clientes.Ativo(Get(db.clientes, a.clienteId).value)) ==>
            Desbloqueio(numero, db) == Efeito(db, Err(ClienteInativo)))
      && (a.bloqueada && a.clienteId != 0 && Has(db.clientes, a.clienteId) && Clientes.Ativo(Get(db.clientes, a.clienteId).value)
          && !EmptyStr(numero) ==>
            && Desbloqueio(numero, db).result == Ok(true)
            && Localizar(numero, Desbloqueio(numero, db).db) == Ok(a.(bloqueada := false)))
  {
    if Localizar(numero, db).Ok? {
      var a := Localizar(numero, db).value;
      if a.bloqueada && a.clienteId != 0 && Has(db.clientes, a.clienteId) && !EmptyStr(numero) {
        LocalizarFound(numero, db);
        PersistLoaded(numero, db, a.(bloqueada := false));
        LocalizarAfterRewrite(numero, db, a.(bloqueada := false));
      }
    }
  }

  /** Blocking then unblocking an account of an active client gives back exactly the store it started from. */
  lemma BloqueioDesbloqueio(numero: string, db: Db)
    requires Valid(db.contas) && !EmptyStr(numero) && Localizar(numero, db).Ok?
    requires var a := Localizar(numero, db).value;
      !a.bloqueada && a.clienteId != 0 && Has(db.clientes, a.clienteId) && Clientes.Ativo(Get(db.clientes, a.clienteId).value)
    ensures Bloqueio(numero, db).result == Ok(true)
    ensures Desbloqueio(numero, Bloqueio(numero, db).db) == Efeito(db, Ok(true))
  {
    var a := Localizar(numero, db).value;
    var a1 := a.(bloqueada := true);
    var db1 := db.(contas := Replace(db.contas, a.id, RowOf(a1)).0);
    LocalizarFound(numero, db);
    assert SaveGuard(db.clientes, a.clienteId).None?;
    PersistLoaded(numero, db, a1);
    assert Bloqueio(numero, db) == Efeito(db1, Ok(true));
    UpdateSpec(db.contas, a.id, (_: ContaRow) => RowOf(a1));
    LocalizarAfterRewrite(numero, db, a1);
    assert Localizar(numero, db1) == Ok(a1);
    PersistLoaded(numero, db1, a);
    assert a1.(bloqueada := false) == a;
    assert Desbloqueio(numero, db1) == Efeito(db1.(contas := Replace(db1.contas, a.id, RowOf(a)).0), Ok(true));
    ReplaceRestores(db.contas, a.id, RowOf(a), RowOf(a1));
  }

  // ---------------------------------------------------------------- pre-flight validation

  /**
   * `validarOperacao`'s switch: withdrawals and transfers need the available balance (fee not
   * included) and then the daily limit; deposits need a positive amount up to 50000; every
   * other operation passes.
   */
  lemma ChecagemPorTipoSpec(a: Acct, op: string, v: real)
    ensures (op == "saque" || op == "transferencia") ==>
      && (!TemSaldoSuficiente(a, v) ==> ChecagemPorTipo(a, op, v) == Some(SaldoInsuficiente))
      && (ChecagemPorTipo(a, op, v).None? <==> SaldoDisponivel(a) >= v && v <= a.limiteDiario)
    ensures op == "deposito" ==>
      && (v <= 0.0 ==> ChecagemPorTipo(a, op, v) == Some(ValorInvalido))
      && (ChecagemPorTipo(a, op, v).None? <==> 0.0 < v <= 50000.0)
    ensures op != "saque" && op != "transferencia" && op != "deposito" ==> ChecagemPorTipo(a, op, v).None?
  {
  }

  /**
   * `validarOperacao` fails, in order, on a missing account, a blocked account, an owner that is
   * missing or inactive, and then the per-operation check.
   */
  lemma ValidarOperacaoSpec(numero: string, op: string, v: real, db: Db)
    ensures Localizar(numero, db).Err? ==> ValidarOperacao(numero, op, v, db) == Err(Localizar(numero, db).error)
    ensures Localizar(numero, db).Ok? ==>
      var a := Localizar(numero, db).value;
      && (a.bloqueada ==> ValidarOperacao(numero, op, v, db) == Err(ContaBloqueada))
      && (!a.bloqueada && (a.clienteId == 0 || !Has(db.clientes, a.clienteId) || !Clientes.Ativo(Get(db.clientes, a.clienteId).value)) ==>
            ValidarOperacao(numero, op, v, db) == Err(ClienteInativo))
      && (ValidarOperacao(numero, op, v, db) == Ok(true) <==>
            !a.bloqueada && ClienteDaConta(a, db).Some? && Clientes.Ativo(ClienteDaConta(a, db).value)
            && ChecagemPorTipo(a, op, v).None?)
    ensures ValidarOperacao(numero, op, v, db).Ok? ==> ValidarOperacao(numero, op, v, db) == Ok(true)
  {
  }

  /** What a passed validation buys: a deposit it lets through is credited, and so is a savings withdrawal of a positive amount. */
  lemma ValidacaoBasta(a: Acct, v: real)
    ensures !a.bloqueada && ChecagemPorTipo(a, "deposito", v).None? ==> CreditStep(a, v) == Ok(a.(saldo := a.saldo + v))
    ensures a.kind == Poupanca && !a.bloqueada && v > 0.0 && ChecagemPorTipo(a, "saque", v).None? ==>
      SacarStep(a, v) == Ok(a.(saldo := a.saldo - v))
  {
  }

  /** The fee is not part of the validation: a checking withdrawal of the whole available balance passes it, and `sacar` then refuses it. */
  lemma ValidacaoIgnoraTarifa(a: Acct, v: real)
    requires a.kind == Corrente && !a.bloqueada && v > 0.0 && v <= a.limiteDiario && v == a.saldo + a.limite
    ensures ChecagemPorTipo(a, "saque", v).None?
    ensures SacarStep(a, v) == Err(SaldoInsuficiente)
  {
    assert CC.Tarifa("saque") == 4.50 by { assert CC.Tarifas["saque"] == 4.50; }
  }

  // ---------------------------------------------------------------- listing

  /** `listarContasCliente`: a missing client fails; otherwise one entry per account of the client, oldest first, and the count of them. */
  lemma ListarContasClienteSpec(clienteId: int, db: Db)
    ensures Get(db.clientes, clienteId).None? ==> ListarContasCliente(clienteId, db) == Err(ClienteNaoEncontrado)
    ensures ListarContasCliente(clienteId, db).Ok? ==>
      var l := ListarContasCliente(clienteId, db).value;
      var rows := RowsDoCliente(db.contas, clienteId);
      && l.totalContas == |l.contas| == |rows|
      && (forall i :: 0 <= i < |rows| ==>
            && l.contas[i].numero == rows[i].1.numero && l.contas[i].tipo == rows[i].1.tipo
            && l.contas[i].saldo == rows[i].1.saldo && l.contas[i].bloqueada == rows[i].1.bloqueada)
      && (forall j :: 0 <= j < |db.contas.rows| && db.contas.rows[j].1.clienteId == clienteId ==> db.contas.rows[j] in rows)
  {
    var rows := RowsDoCliente(db.contas, clienteId);
    ContaProperties.LoadAllSpec(rows, None);
    forall j | 0 <= j < |db.contas.rows| && db.contas.rows[j].1.clienteId == clienteId ensures db.contas.rows[j] in rows {
      SelectComplete(db.contas.rows, (r: ContaRow) => r.clienteId == clienteId, j);
    }
  }

  // ---------------------------------------------------------------- defaults and the code as written

  /**
   * The default limit of `abrirContaCorrente` lies within [0, 10000]: opening with it fails
   * exactly as opening with a zero limit does, never on the limit check.
   */
  lemma AberturaPadrao(clienteId: int, db: Db)
    ensures AberturaGuard(Corrente, clienteId, CC.LimitePadrao, db) == AberturaGuard(Corrente, clienteId, 0.0, db)
  {
  }

  /**
   * The account use cases as written. Each calls a `Conta::` lookup, which throws before any
   * row is read (see README, Findings row 3). Openings and listings therefore fail right after
   * their client checks; blocking, unblocking, the limit change and the validation fail on
   * every input. None of them changes the store.
   */
  lemma ServicoComoEscrito(k: Kind, clienteId: int, limite: real, numero: string, novo: real, op: string, v: real, db: Db)
    ensures LocalizarComoEscrito(numero, db) == Err(ClasseAbstrata)
    ensures AlteracaoDeLimiteComoEscrito(numero, novo, db) == Efeito(db, Err(ClasseAbstrata))
    ensures BloqueioComoEscrito(numero, db) == Efeito(db, Err(ClasseAbstrata))
    ensures DesbloqueioComoEscrito(numero, db) == Efeito(db, Err(ClasseAbstrata))
    ensures ValidarOperacaoComoEscrito(numero, op, v, db) == Err(ClasseAbstrata)
    ensures var c := Get(db.clientes, clienteId);
      var e := if c.None? then ClienteNaoEncontrado else if !Clientes.Ativo(c.value) then ClienteInativo else ClasseAbstrata;
      AberturaComoEscrito(k, clienteId, limite, db) == Aberta(None, db, Err(e))
    ensures ListarContasClienteComoEscrito(clienteId, db) ==
      Err(if Has(db.clientes, clienteId) then ClasseAbstrata else ClienteNaoEncontrado)
  {
    ContaProperties.ConsultaComoEscrito(db.contas, numero, clienteId, None);
  }

  /** A store with one active client and its unblocked checking account "12345-6". */
  function ExemploBanco(): Db
  {
    Db(Table([(1, ClienteRow("Maria", "52998224725", "maria@exemplo.com", "", "", "", 1))], 2),
       Table([(1, ContaRow("12345-6", 1, "corrente", 100.0, 500.0, false, 5000.0))], 2),
       [])
  }

  /** The input that shows Findings row 3: `bloquearConta('12345-6')` blocks the account as intended, and throws as written. */
  lemma BloqueioDiverge()
    ensures var db := ExemploBanco();
      && Bloqueio("12345-6", db).result == Ok(true)
      && Localizar("12345-6", Bloqueio("12345-6", db).db).Ok?
      && Localizar("12345-6", Bloqueio("12345-6", db).db).value.bloqueada
    ensures BloqueioComoEscrito("12345-6", ExemploBanco()) == Efeito(ExemploBanco(), Err(ClasseAbstrata))
  {
    var db := ExemploBanco();
    var row := ContaRow("12345-6", 1, "corrente", 100.0, 500.0, false, 5000.0);
    assert First(db.contas.rows, (r: ContaRow) => r.numero == "12345-6") == Some((1, row));
    assert Localizar("12345-6", db) == Ok(Load(Corrente, 1, row));
    assert Has(db.clientes, 1);
    BloqueioSpec("12345-6", db);
    ServicoComoEscrito(Corrente, 1, 0.0, "12345-6", 0.0, "", 0.0, db);
  }
}
