/**
 * ContaService: the account-level use cases. Each is a fixed sequence of guards against the
 * clients and accounts tables, ending (for the mutating ones) in one operation of the account
 * object. The functions below state each use case on values; the methods run it on the
 * store handle and are proved to agree with them.
 */
module ContaService {
  import opened Results
  import opened Store
  import opened Ledger
  import opened ContaSpec
  import CC = ContaCorrente
  import Contas
  import Clientes
  import ContaProperties

  /** The range both the opening limit and a new limit must fall in. */
  const LimiteMaximo: real := 10000.00
  /** The largest deposit `validarOperacao` lets through. */
  const DepositoMaximo: real := 50000.00

  /** `$conta->getCliente()`: an account without a client id does no lookup at all. */
  function ClienteDaConta(a: Acct, db: Db): Option<ClienteRow>
  {
    if a.clienteId == 0 then None else Get(db.clientes, a.clienteId)
  }

  function JaPossui(k: Kind): Error
  {
    match k
    case Corrente => JaPossuiCorrente
    case Poupanca => JaPossuiPoupanca
  }

  /** The `tipo_conta` an account of kind `k` carries. */
  function TipoDe(k: Kind): string
  {
    match k
    case Corrente => "corrente"
    case Poupanca => "poupanca"
  }

  // ---------------------------------------------------------------- opening an account

  /**
   * The checks of `abrirContaCorrente` (with `k == Corrente`) and `abrirContaPoupanca`, in order,
   * given what `Conta::buscarPorCliente` returns once the client checks have passed.
   */
  function AberturaGuardApos(k: Kind, clienteId: int, limite: real, db: Db, existentes: Result<seq<Acct>, Error>): Option<Error>
  {
    match Get(db.clientes, clienteId)
    case None => Some(ClienteNaoEncontrado)
    case Some(c) =>
      if !Clientes.Ativo(c) then Some(ClienteInativo)
      else match existentes
        case Err(e) => Some(e)
        case Ok(accts) =>
          if FirstOfKind(accts, k).Some? then Some(JaPossui(k))
          else if k == Corrente && (limite < 0.0 || limite > LimiteMaximo) then Some(LimiteAberturaForaDaFaixa)
          else None
  }

  function AberturaGuard(k: Kind, clienteId: int, limite: real, db: Db): Option<Error>
  {
    AberturaGuardApos(k, clienteId, limite, db, BuscarPorCliente(db.contas, clienteId, None))
  }

  /** The opening checks as written: the lookup on the abstract Conta throws (see README, Findings row 3). */
  function AberturaGuardComoEscrito(k: Kind, clienteId: int, limite: real, db: Db): Option<Error>
  {
    AberturaGuardApos(k, clienteId, limite, db, BuscarPorClienteComoEscrito(db.contas, clienteId, None))
  }

  /** What opening an account produces: the new account (when one was created), the store, the result. */
  datatype Aberta = Aberta(conta: Option<Acct>, db: Db, result: Result<bool, Error>)

  /** The opening once its checks have given `guard`: refused, or the account is created. */
  function AberturaSe(guard: Option<Error>, k: Kind, clienteId: int, limite: real, db: Db): Aberta
  {
    match guard
    case Some(e) => Aberta(None, db, Err(e))
    case None =>
      var o := Criar(k, clienteId, limite, db);
      if o.result.Err? then Aberta(None, o.db, o.result) else Aberta(Some(o.acct), o.db, o.result)
  }

  function Abertura(k: Kind, clienteId: int, limite: real, db: Db): Aberta
  {
    AberturaSe(AberturaGuard(k, clienteId, limite, db), k, clienteId, limite, db)
  }

  function AberturaComoEscrito(k: Kind, clienteId: int, limite: real, db: Db): Aberta
  {
    AberturaSe(AberturaGuardComoEscrito(k, clienteId, limite, db), k, clienteId, limite, db)
  }

  // ---------------------------------------------------------------- operations on one account

  /** What the store-changing use cases produce. */
  datatype Efeito = Efeito(db: Db, result: Result<bool, Error>)

  /** The "not found" check on what `Conta::buscarPorNumero($numero)` returned. */
  function Achada(busca: Result<Option<Acct>, Error>): Result<Acct, Error>
  {
    match busca
    case Err(e) => Err(e)
    case Ok(None) => Err(ContaNaoEncontrada)
    case Ok(Some(a)) => Ok(a)
  }

  function Localizar(numero: string, db: Db): Result<Acct, Error>
  {
    Achada(BuscarPorNumero(db.contas, numero, None))
  }

  /** The lookup of the account use cases as written: `Conta::buscarPorNumero` throws (see README, Findings row 3). */
  function LocalizarComoEscrito(numero: string, db: Db): Result<Acct, Error>
  {
    Achada(BuscarPorNumeroComoEscrito(db.contas, numero, None))
  }

  /** The checks of `alterarLimiteChequeEspecial` on the account found, in order. */
  function AlteracaoGuard(a: Acct, novo: real): Option<Error>
  {
    if a.kind != Corrente then Some(ApenasCorrente)
    else if a.bloqueada then Some(ContaBloqueada)
    else if novo < 0.0 || novo > LimiteMaximo then Some(LimiteForaDaFaixa)
    else if CC.ValorUsado(a.saldo) > novo then Some(ReducaoAbaixoDoUso(CC.ValorUsado(a.saldo)))
    else None
  }

  /** `alterarLimiteChequeEspecial` after the lookup has given `busca`. */
  function AlteracaoApos(busca: Result<Acct, Error>, novo: real, db: Db): Efeito
  {
    match busca
    case Err(e) => Efeito(db, Err(e))
    case Ok(a) =>
      match AlteracaoGuard(a, novo)
      case Some(e) => Efeito(db, Err(e))
      case None => var o := AlterarLimite(a, novo, db); Efeito(o.db, o.result)
  }

  function AlteracaoDeLimite(numero: string, novo: real, db: Db): Efeito
  {
    AlteracaoApos(Localizar(numero, db), novo, db)
  }

  function AlteracaoDeLimiteComoEscrito(numero: string, novo: real, db: Db): Efeito
  {
    AlteracaoApos(LocalizarComoEscrito(numero, db), novo, db)
  }

  /** `bloquearConta` after the lookup has given `busca`. */
  function BloqueioApos(busca: Result<Acct, Error>, db: Db): Efeito
  {
    match busca
    case Err(e) => Efeito(db, Err(e))
    case Ok(a) =>
      if a.bloqueada then Efeito(db, Err(JaBloqueada))
      else var o := Bloquear(a, db); Efeito(o.db, o.result)
  }

  function Bloqueio(numero: string, db: Db): Efeito
  {
    BloqueioApos(Localizar(numero, db), db)
  }

  function BloqueioComoEscrito(numero: string, db: Db): Efeito
  {
    BloqueioApos(LocalizarComoEscrito(numero, db), db)
  }

  /** `desbloquearConta` after the lookup has given `busca`. */
  function DesbloqueioApos(busca: Result<Acct, Error>, db: Db): Efeito
  {
    match busca
    case Err(e) => Efeito(db, Err(e))
    case Ok(a) =>
      if !a.bloqueada then Efeito(db, Err(NaoBloqueada))
      else match ClienteDaConta(a, db)
        case None => Efeito(db, Err(ClienteInativo))
        case Some(c) =>
          if !Clientes.Ativo(c) then Efeito(db, Err(ClienteInativo))
          else var o := Desbloquear(a, db); Efeito(o.db, o.result)
  }

  function Desbloqueio(numero: string, db: Db): Efeito
  {
    DesbloqueioApos(Localizar(numero, db), db)
  }

  function DesbloqueioComoEscrito(numero: string, db: Db): Efeito
  {
    DesbloqueioApos(LocalizarComoEscrito(numero, db), db)
  }

  // ---------------------------------------------------------------- read-only use cases

  /** The per-operation part of `validarOperacao`'s switch; operations it does not name pass. */
  function ChecagemPorTipo(a: Acct, tipoOperacao: string, valor: real): Option<Error>
  {
    if tipoOperacao == "saque" || tipoOperacao == "transferencia" then
      if !TemSaldoSuficiente(a, valor) then Some(SaldoInsuficiente)
      else if valor > a.limiteDiario then Some(ExcedeLimiteDiario)
      else None
    else if tipoOperacao == "deposito" then
      if valor <= 0.0 then Some(ValorInvalido)
      else if valor > DepositoMaximo then Some(ExcedeMaximoDeposito)
      else None
    else None
  }

  /** `validarOperacao` after the lookup has given `busca`: the pre-flight checks; the store is only read. */
  function ValidacaoApos(busca: Result<Acct, Error>, tipoOperacao: string, valor: real, db: Db): (r: Result<bool, Error>)
    ensures r.Ok? ==> r.value
    ensures r.Ok? ==> busca.Ok? && !busca.value.bloqueada
  {
    match busca
    case Err(e) => Err(e)
    case Ok(a) =>
      if a.bloqueada then Err(ContaBloqueada)
      else if ClienteDaConta(a, db).None? || !Clientes.Ativo(ClienteDaConta(a, db).value) then Err(ClienteInativo)
      else match ChecagemPorTipo(a, tipoOperacao, valor)
        case Some(e) => Err(e)
        case None => Ok(true)
  }

  function ValidarOperacao(numero: string, tipoOperacao: string, valor: real, db: Db): (r: Result<bool, Error>)
    ensures r.Ok? ==> r.value
    ensures r.Ok? ==> Localizar(numero, db).Ok? && !Localizar(numero, db).value.bloqueada
  {
    ValidacaoApos(Localizar(numero, db), tipoOperacao, valor, db)
  }

  function ValidarOperacaoComoEscrito(numero: string, tipoOperacao: string, valor: real, db: Db): Result<bool, Error>
  {
    ValidacaoApos(LocalizarComoEscrito(numero, db), tipoOperacao, valor, db)
  }

  /** One entry of `listarContasCliente`'s `contas` list. */
  datatype ContaListada = ContaListada(
    numero: string, tipo: string, saldo: real, saldoDisponivel: real, bloqueada: bool)

  /** `listarContasCliente`'s result: the client's id, name and formatted CPF, its accounts and their count. */
  datatype Listagem = Listagem(
    clienteId: int, nome: string, cpf: string, contas: seq<ContaListada>, totalContas: int)

  function Listada(a: Acct): ContaListada
  {
    ContaListada(a.numero, a.tipo, a.saldo, SaldoDisponivel(a), a.bloqueada)
  }

  /** `listarContasCliente`, given what `Conta::buscarPorCliente` returns once the client is found. */
  function ListagemApos(clienteId: int, db: Db, existentes: Result<seq<Acct>, Error>): (r: Result<Listagem, Error>)
    ensures r.Ok? <==> Has(db.clientes, clienteId) && existentes.Ok?
    ensures r.Ok? ==> r.value.clienteId == clienteId && r.value.totalContas == |r.value.contas|
  {
    match Get(db.clientes, clienteId)
    case None => Err(ClienteNaoEncontrado)
    case Some(c) =>
      match existentes
      case Err(e) => Err(e)
      case Ok(accts) =>
        var contas := seq(|accts|, i requires 0 <= i < |accts| => Listada(accts[i]));
        Ok(Listagem(clienteId, c.nome, Clientes.CpfFormatado(c.cpf), contas, |contas|))
  }

  function ListarContasCliente(clienteId: int, db: Db): (r: Result<Listagem, Error>)
    ensures r.Ok? <==> Has(db.clientes, clienteId) && BuscarPorCliente(db.contas, clienteId, None).Ok?
    ensures r.Ok? ==> r.value.clienteId == clienteId && r.value.totalContas == |r.value.contas|
  {
    ListagemApos(clienteId, db, BuscarPorCliente(db.contas, clienteId, None))
  }

  function ListarContasClienteComoEscrito(clienteId: int, db: Db): Result<Listagem, Error>
  {
    ListagemApos(clienteId, db, BuscarPorClienteComoEscrito(db.contas, clienteId, None))
  }

  // ---------------------------------------------------------------- the use cases on the store handle

  /** The `instanceof` search of the opening use cases. */
  method PossuiDoTipo(contas: seq<Contas.Conta>, k: Kind) returns (achou: bool)
    ensures achou <==> exists j :: 0 <= j < |contas| && contas[j].kind == k
  {
    achou := false;
    var i := 0;
    while i < |contas|
      invariant 0 <= i <= |contas|
      invariant forall j :: 0 <= j < i ==> contas[j].kind != k
    {
      if contas[i].kind == k { return true; }
      i := i + 1;
    }
  }

  method AbrirConta(bank: Bank, k: Kind, clienteId: int, limite: real) returns (c: Contas.Conta?, r: Result<bool, Error>)
    modifies bank
    ensures var o := Abertura(k, clienteId, limite, old(bank.State()));
      && bank.State() == o.db && r == o.result && (c == null <==> o.conta.None?)
      && (c != null ==> fresh(c) && c.bank == bank && c.Snap() == o.conta.value)
  {
    var cliente := Get(bank.clientes, clienteId);
    if cliente.None? { return null, Err(ClienteNaoEncontrado); }
    if !Clientes.Ativo(cliente.value) { return null, Err(ClienteInativo); }
    var existentes := Contas.Conta.BuscarPorCliente(bank, clienteId, None);
    if existentes.Err? { return null, Err(existentes.error); }
    var possui := PossuiDoTipo(existentes.value, k);
    ghost var accts := BuscarPorCliente(bank.contas, clienteId, None).value;
    assert possui <==> FirstOfKind(accts, k).Some? by {
      assert forall j :: 0 <= j < |accts| ==> accts[j].kind == existentes.value[j].kind;
    }
    if possui { return null, Err(JaPossui(k)); }
    if k == Corrente && (limite < 0.0 || limite > LimiteMaximo) { return null, Err(LimiteAberturaForaDaFaixa); }
    var conta;
    conta, r := Contas.Criar(bank, k, clienteId, limite);
    c := if r.Err? then null else conta;
  }

  method AbrirContaCorrente(bank: Bank, clienteId: int, limite: real) returns (c: Contas.Conta?, r: Result<bool, Error>)
    modifies bank
    ensures var o := Abertura(Corrente, clienteId, limite, old(bank.State()));
      && bank.State() == o.db && r == o.result && (c == null <==> o.conta.None?)
      && (c != null ==> fresh(c) && c.bank == bank && c.Snap() == o.conta.value)
  {
    c, r := AbrirConta(bank, Corrente, clienteId, limite);
  }

  /** `abrirContaCorrente($clienteId)` with the limit argument left out: the 500.00 default. */
  method AbrirContaCorrentePadrao(bank: Bank, clienteId: int) returns (c: Contas.Conta?, r: Result<bool, Error>)
    modifies bank
    ensures var o := Abertura(Corrente, clienteId, CC.LimitePadrao, old(bank.State()));
      && bank.State() == o.db && r == o.result && (c == null <==> o.conta.None?)
      && (c != null ==> fresh(c) && c.bank == bank && c.Snap() == o.conta.value)
  {
    c, r := AbrirContaCorrente(bank, clienteId, CC.LimitePadrao);
  }

  method AbrirContaPoupanca(bank: Bank, clienteId: int) returns (c: Contas.Conta?, r: Result<bool, Error>)
    modifies bank
    ensures var o := Abertura(Poupanca, clienteId, 0.0, old(bank.State()));
      && bank.State() == o.db && r == o.result && (c == null <==> o.conta.None?)
      && (c != null ==> fresh(c) && c.bank == bank && c.Snap() == o.conta.value)
  {
    c, r := AbrirConta(bank, Poupanca, clienteId, 0.0);
  }

  /** Looks the account up by number on the abstract Conta, as the service does. */
  method Buscar(bank: Bank, numero: string) returns (r: Result<Contas.Conta, Error>)
    ensures var spec := Localizar(numero, bank.State());
      && (r.Err? <==> spec.Err?) && (r.Err? ==> r.error == spec.error)
      && (r.Ok? ==> fresh(r.value) && r.value.bank == bank && r.value.Snap() == spec.value)
  {
    var busca := Contas.Conta.BuscarPorNumero(bank, numero, None);
    if busca.Err? { return Err(busca.error); }
    if busca.value == null { return Err(ContaNaoEncontrada); }
    return Ok(busca.value);
  }

  method AlterarLimiteChequeEspecial(bank: Bank, numero: string, novo: real) returns (r: Result<bool, Error>)
    modifies bank
    ensures Efeito(bank.State(), r) == AlteracaoDeLimite(numero, novo, old(bank.State()))
  {
    var busca := Buscar(bank, numero);
    if busca.Err? { return Err(busca.error); }
    var conta := busca.value;
    if conta.kind != Corrente { return Err(ApenasCorrente); }
    if conta.IsBloqueada() { return Err(ContaBloqueada); }
    if novo < 0.0 || novo > LimiteMaximo { return Err(LimiteForaDaFaixa); }
    var usado := CC.ValorUsado(conta.saldo);
    if usado > novo { return Err(ReducaoAbaixoDoUso(usado)); }
    r := conta.AlterarLimite(novo);
  }

  method BloquearConta(bank: Bank, numero: string) returns (r: Result<bool, Error>)
    modifies bank
    ensures Efeito(bank.State(), r) == Bloqueio(numero, old(bank.State()))
  {
    var busca := Buscar(bank, numero);
    if busca.Err? { return Err(busca.error); }
    var conta := busca.value;
    if conta.IsBloqueada() { return Err(JaBloqueada); }
    r := conta.Bloquear();
  }

  method DesbloquearConta(bank: Bank, numero: string) returns (r: Result<bool, Error>)
    modifies bank
    ensures Efeito(bank.State(), r) == Desbloqueio(numero, old(bank.State()))
  {
    var busca := Buscar(bank, numero);
    if busca.Err? { return Err(busca.error); }
    var conta := busca.value;
    if !conta.IsBloqueada() { return Err(NaoBloqueada); }
    var cliente := if conta.clienteId == 0 then None else Get(bank.clientes, conta.clienteId);
    if cliente.None? || !Clientes.Ativo(cliente.value) { return Err(ClienteInativo); }
    r := conta.Desbloquear();
  }
}
