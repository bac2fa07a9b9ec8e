/**
 * The account entity (Conta, ContaCorrente, ContaPoupanca) as values: an account object's
 * attributes, and what each of its operations does to them and to the store.
 * The imperative `Contas.Conta` class is proved to follow these functions.
 */
module ContaSpec {
  import opened Results
  import opened Store
  import opened Text
  import opened Ledger
  import CC = ContaCorrente
  import CP = ContaPoupanca

  /**
   * An account object's state: its class, its primary key (0 when it has none), the
   * `exists` flag (`stored`), and its attributes.
   */
  datatype Acct = Acct(
    kind: Kind, id: int, stored: bool,
    numero: string, clienteId: int, tipo: string,
    saldo: real, limite: real, bloqueada: bool, limiteDiario: real)

  /** The result of an operation on one account: the object afterwards, the store afterwards, the outcome. */
  datatype Outcome = Outcome(acct: Acct, db: Db, result: Result<bool, Error>)

  /** The result of an operation on two accounts. */
  datatype Outcome2 = Outcome2(src: Acct, dst: Acct, db: Db, result: Result<bool, Error>)

  /** The row `save` writes for an account. */
  function RowOf(a: Acct): ContaRow
  {
    ContaRow(a.numero, a.clienteId, a.tipo, a.saldo, a.limite, a.bloqueada, a.limiteDiario)
  }

  /** `calcularTarifa`, dispatched on the account's class. */
  function Tarifa(k: Kind, op: string): (r: real)
    ensures r >= 0.0
  {
    match k
    case Corrente => CC.Tarifa(op)
    case Poupanca => CP.Tarifa(op)
  }

  /** `getSaldoDisponivel`, dispatched on the account's class. */
  function SaldoDisponivel(a: Acct): (r: real)
    ensures a.kind == Corrente ==> r == a.saldo + a.limite
    ensures a.kind == Poupanca ==> r == a.saldo
  {
    match a.kind
    case Corrente => CC.SaldoDisponivel(a.saldo, a.limite)
    case Poupanca => a.saldo
  }

  /** `temSaldoSuficiente(v)`. */
  predicate TemSaldoSuficiente(a: Acct, v: real)
  {
    SaldoDisponivel(a) >= v
  }

  // ------------------------------------------------------------------ save

  /** Conta::save's checks after the number is settled: the first that fails, if any. */
  function SaveGuard(clientes: Table<ClienteRow>, clienteId: int): Option<Error>
  {
    if clienteId == 0 then Some(ClienteObrigatorio)
    else if !Has(clientes, clienteId) then Some(ClienteNaoEncontrado)
    else None
  }

  /**
   * Conta::save followed by Model::save: give the account a number if it has none, check
   * its owner, then UPDATE its row (affected rows > 0 is the result) or INSERT a new row.
   */
  function Persist(a: Acct, db: Db): Outcome
  {
    var gen := if EmptyStr(a.numero) then Generate(db.draws, db.contas) else Some((a.numero, db.draws));
    if gen.None? then Outcome(a, db.(draws := []), Err(NumerosEsgotados))
    else
      var a1 := a.(numero := gen.value.0);
      var db1 := db.(draws := gen.value.1);
      match SaveGuard(db.clientes, a1.clienteId)
      case Some(e) => Outcome(a1, db1, Err(e))
      case None =>
        if a1.stored then
          var (t, n) := Replace(db.contas, a1.id, RowOf(a1));
          Outcome(a1, db1.(contas := t), Ok(n > 0))
        else
          var (t, nid) := Insert(db.contas, RowOf(a1));
          Outcome(a1.(id := nid, stored := true), db1.(contas := t), Ok(true))
  }

  /** An account whose owner is on file and whose row is stored under its id. */
  predicate Persisted(a: Acct, db: Db)
  {
    a.stored && !EmptyStr(a.numero) && SaveGuard(db.clientes, a.clienteId).None? && Has(db.contas, a.id)
  }

  // ------------------------------------------------------------------ the two primitives

  /** `creditar(v)` on the object: rejects a non-positive amount, otherwise adds it. */
  function CreditStep(a: Acct, v: real): Result<Acct, Error>
  {
    if v <= 0.0 then Err(ValorInvalido) else Ok(a.(saldo := a.saldo + v))
  }

  /**
   * The first check of `debitar(v)` that fails. ContaPoupanca's override looks at the plain
   * balance before the base checks (amount, block, available balance) run.
   */
  function DebitGuard(a: Acct, v: real): Option<Error>
  {
    if a.kind == Poupanca && v > a.saldo then Some(PoupancaSemChequeEspecial)
    else if v <= 0.0 then Some(ValorInvalido)
    else if a.bloqueada then Some(ContaBloqueada)
    else if !TemSaldoSuficiente(a, v) then Some(SaldoInsuficiente)
    else None
  }

  /** `debitar(v)` on the object. */
  function DebitStep(a: Acct, v: real): Result<Acct, Error>
  {
    match DebitGuard(a, v)
    case Some(e) => Err(e)
    case None => Ok(a.(saldo := a.saldo - v))
  }

  /** Runs an in-memory step and, when it succeeds, saves the object. */
  function ThenPersist(a: Acct, step: Result<Acct, Error>, db: Db): Outcome
  {
    match step
    case Err(e) => Outcome(a, db, Err(e))
    case Ok(a1) => Persist(a1, db)
  }

  function Creditar(a: Acct, v: real, db: Db): Outcome { ThenPersist(a, CreditStep(a, v), db) }

  function Debitar(a: Acct, v: real, db: Db): Outcome { ThenPersist(a, DebitStep(a, v), db) }

  /** `depositar` is `creditar` for both kinds. */
  function Depositar(a: Acct, v: real, db: Db): Outcome { Creditar(a, v, db) }

  function Bloquear(a: Acct, db: Db): Outcome { Persist(a.(bloqueada := true), db) }

  function Desbloquear(a: Acct, db: Db): Outcome { Persist(a.(bloqueada := false), db) }

  /**
   * Debit `debito` from `src`, then credit `credito` to `dst`, stopping at the first
   * exception. The debit is saved before the credit is tried, and nothing undoes it.
   */
  function MoveFunds(src: Acct, dst: Acct, debito: real, credito: real, db: Db): Outcome2
  {
    var o1 := Debitar(src, debito, db);
    if o1.result.Err? then Outcome2(o1.acct, dst, o1.db, o1.result)
    else
      var o2 := Creditar(dst, credito, o1.db);
      Outcome2(o1.acct, o2.acct, o2.db, if o2.result.Err? then o2.result else Ok(true))
  }

  /**
   * Debit-then-credit when source and destination are one and the same object (a TED to
   * oneself): the credit applies to the already-debited object.
   */
  function MoveFundsSelf(a: Acct, debito: real, credito: real, db: Db): Outcome
  {
    var o1 := Debitar(a, debito, db);
    if o1.result.Err? then o1
    else
      var o2 := Creditar(o1.acct, credito, o1.db);
      Outcome(o2.acct, o2.db, if o2.result.Err? then o2.result else Ok(true))
  }

  /** What `transferirPara` debits: the amount plus the account kind's transfer fee. */
  function TotalComTarifa(a: Acct, v: real): real
  {
    v + Tarifa(a.kind, "transferencia")
  }

  /** `transferirPara(dst, v)`. */
  function TransferirPara(src: Acct, dst: Acct, v: real, db: Db): Outcome2
  {
    if src.numero == dst.numero then Outcome2(src, dst, db, Err(MesmaConta))
    else
      var total := TotalComTarifa(src, v);
      if !TemSaldoSuficiente(src, total) then Outcome2(src, dst, db, Err(SaldoInsuficienteTarifa))
      else MoveFunds(src, dst, total, v, db)
  }

  /** `sacar(v)`: the daily limit is checked against `v` alone; a checking account also pays the fee. */
  function SacarStep(a: Acct, v: real): Result<Acct, Error>
  {
    if v > a.limiteDiario then Err(LimiteDiarioExcedido)
    else DebitStep(a, match a.kind case Corrente => v + CC.Tarifa("saque") case Poupanca => v)
  }

  function Sacar(a: Acct, v: real, db: Db): Outcome { ThenPersist(a, SacarStep(a, v), db) }

  /** `pix(dst, v)`: same for both kinds, free of charge. */
  function Pix(src: Acct, dst: Acct, v: real, db: Db): Outcome2
  {
    if src.numero == dst.numero then Outcome2(src, dst, db, Err(PixMesmaConta))
    else MoveFunds(src, dst, v, v, db)
  }

  /** What `ted` debits: the amount plus the account kind's TED fee. */
  function TedTotal(a: Acct, v: real): real
  {
    v + Tarifa(a.kind, "ted")
  }

  /** `ted(dst, v)`: no same-account check; the sender pays its kind's TED fee. */
  function Ted(src: Acct, dst: Acct, v: real, db: Db): Outcome2
  {
    MoveFunds(src, dst, TedTotal(src, v), v, db)
  }

  /** `ted` called with the account itself as destination. */
  function TedSelf(a: Acct, v: real, db: Db): Outcome
  {
    MoveFundsSelf(a, TedTotal(a, v), v, db)
  }

  /** ContaCorrente::alterarLimiteChequeEspecial on the object. */
  function AlterarLimiteStep(a: Acct, novo: real): Result<Acct, Error>
  {
    if novo < 0.0 then Err(LimiteNegativo)
    else if CC.ValorUsado(a.saldo) > novo then Err(LimiteAbaixoDoUso)
    else Ok(a.(limite := novo))
  }

  function AlterarLimite(a: Acct, novo: real, db: Db): Outcome { ThenPersist(a, AlterarLimiteStep(a, novo), db) }

  /** ContaPoupanca::aplicarRendimento: only a positive interest is added and saved. */
  function AplicarRendimento(a: Acct, db: Db): Outcome
  {
    var r := CP.Rendimento(a.saldo);
    if r > 0.0 then Persist(a.(saldo := a.saldo + r), db) else Outcome(a, db, Ok(true))
  }

  // ------------------------------------------------------------------ lookups

  /** The class `match ($data['tipo_conta'])` picks; `caller` is `static`, None for abstract Conta. */
  function KindFor(tipo: string, caller: Option<Kind>): Option<Kind>
  {
    if tipo == "corrente" then Some(Corrente)
    else if tipo == "poupanca" then Some(Poupanca)
    else caller
  }

  /** `new $className($data)` with `exists = true`; the id column is kept (see README, Findings). */
  function Load(k: Kind, id: int, r: ContaRow): Acct
  {
    Acct(k, id, true, r.numero, r.clienteId, r.tipo, r.saldo, r.limite, r.bloqueada, r.limiteDiario)
  }

  function LoadAll(rows: seq<(int, ContaRow)>, caller: Option<Kind>): (r: Result<seq<Acct>, Error>)
    ensures r.Ok? ==> |r.value| == |rows|
  {
    if rows == [] then Ok([])
    else match KindFor(rows[0].1.tipo, caller)
      case None => Err(ClasseAbstrata)
      case Some(k) =>
        match LoadAll(rows[1..], caller)
        case Err(e) => Err(e)
        case Ok(rest) => Ok([Load(k, rows[0].0, rows[0].1)] + rest)
  }

  /** `buscarPorNumero(n)` called on `caller`. */
  function BuscarPorNumero(contas: Table<ContaRow>, n: string, caller: Option<Kind>): Result<Option<Acct>, Error>
  {
    match First(contas.rows, (r: ContaRow) => r.numero == n)
    case None => Ok(None)
    case Some(row) =>
      match KindFor(row.1.tipo, caller)
      case None => Err(ClasseAbstrata)
      case Some(k) => Ok(Some(Load(k, row.0, row.1)))
  }

  /** The rows `buscarPorCliente` reads, oldest first. */
  function RowsDoCliente(contas: Table<ContaRow>, clienteId: int): seq<(int, ContaRow)>
  {
    Select(contas.rows, (r: ContaRow) => r.clienteId == clienteId)
  }

  /** `buscarPorCliente(clienteId)` called on `caller`. */
  function BuscarPorCliente(contas: Table<ContaRow>, clienteId: int, caller: Option<Kind>): Result<seq<Acct>, Error>
  {
    LoadAll(RowsDoCliente(contas, clienteId), caller)
  }

  /**
   * What `static::query()` does before any row is read: it runs `new static()` (Model.php:177),
   * which fails when `static` is the abstract Conta (`caller` None). The lookups above leave
   * this out and load the row's own class (see README, Findings row 3).
   */
  function Consulta(caller: Option<Kind>): Option<Error>
  {
    if caller.None? then Some(ClasseAbstrata) else None
  }

  /** `buscarPorNumero(n)` called on `caller`, as written: the query's instantiation comes first. */
  function BuscarPorNumeroComoEscrito(contas: Table<ContaRow>, n: string, caller: Option<Kind>): Result<Option<Acct>, Error>
  {
    match Consulta(caller)
    case Some(e) => Err(e)
    case None => BuscarPorNumero(contas, n, caller)
  }

  /** `buscarPorCliente(clienteId)` called on `caller`, as written. */
  function BuscarPorClienteComoEscrito(contas: Table<ContaRow>, clienteId: int, caller: Option<Kind>): Result<seq<Acct>, Error>
  {
    match Consulta(caller)
    case Some(e) => Err(e)
    case None => BuscarPorCliente(contas, clienteId, caller)
  }

  /** The first account of kind `k` in a list (the `instanceof` search). */
  function FirstOfKind(accts: seq<Acct>, k: Kind): (r: Option<Acct>)
    ensures r.Some? ==> r.value in accts && r.value.kind == k
    ensures r.None? <==> forall i :: 0 <= i < |accts| ==> accts[i].kind != k
  {
    if accts == [] then None
    else if accts[0].kind == k then Some(accts[0])
    else FirstOfKind(accts[1..], k)
  }

  /** ContaPoupanca::transferirParaContaCorrente: free move to the owner's first checking account. */
  function TransferirParaContaCorrente(a: Acct, v: real, db: Db): Outcome
  {
    var contas := BuscarPorCliente(db.contas, a.clienteId, Some(Poupanca));
    var cc := if contas.Ok? then FirstOfKind(contas.value, Corrente) else None;
    if cc.None? then Outcome(a, db, Err(SemContaCorrente))
    else
      var o := MoveFunds(a, cc.value, v, v, db);
      Outcome(o.src, o.db, o.result)
  }

  /** `criar`: a fresh number, zero balance, unblocked, the kind's limits, then save. */
  function Criar(k: Kind, clienteId: int, limite: real, db: Db): Outcome
  {
    match Generate(db.draws, db.contas)
    case None => Outcome(Acct(k, 0, false, "", 0, "", 0.0, 0.0, false, 0.0), db.(draws := []), Err(NumerosEsgotados))
    case Some((n, rest)) =>
      var a := match k
        case Corrente => Acct(k, 0, false, n, clienteId, "corrente", 0.00, limite, false, 5000.00)
        case Poupanca => Acct(k, 0, false, n, clienteId, "poupanca", 0.00, 0.00, false, 3000.00);
      Persist(a, db.(draws := rest))
  }
}
