/**
 * The ledger's persistent state: the `clientes` and `contas` tables, the random source
 * that account numbers are drawn from, and the errors the ledger raises.
 */
module Ledger {
  import opened Results
  import opened Store
  import opened Text

  /** The concrete PHP class of an account object: ContaCorrente or ContaPoupanca. */
  datatype Kind = Corrente | Poupanca

  /** One row of `clientes`; absent text columns are "". `ativo` is the stored integer flag. */
  datatype ClienteRow = ClienteRow(
    nome: string, cpf: string, email: string, telefone: string,
    endereco: string, dataNascimento: string, ativo: int)

  /** One row of `contas` (the attributes an account persists). */
  datatype ContaRow = ContaRow(
    numero: string, clienteId: int, tipo: string,
    saldo: real, limite: real, bloqueada: bool, limiteDiario: real)

  /** One pass of `rand(10000, 99999) . '-' . rand(0, 9)`. */
  datatype Draw = Draw(prefix: int, digit: int)
  type ValidDraw = d: Draw | 10000 <= d.prefix <= 99999 && 0 <= d.digit <= 9 witness Draw(10000, 0)

  /** Everything the ledger operations read and write. `draws` are the values rand() will produce. */
  datatype Db = Db(clientes: Table<ClienteRow>, contas: Table<ContaRow>, draws: seq<ValidDraw>)

  /** The exceptions the ledger throws, one per message. */
  datatype Error =
    | ValorInvalido                // 'Valor deve ser maior que zero'
    | ContaBloqueada               // 'Conta está bloqueada'
    | SaldoInsuficiente            // 'Saldo insuficiente'
    | MesmaConta                   // 'Não é possível transferir para a mesma conta'
    | SaldoInsuficienteTarifa      // 'Saldo insuficiente para valor + tarifa'
    | ClienteObrigatorio           // 'Cliente é obrigatório'
    | ClienteNaoEncontrado         // 'Cliente não encontrado'
    | LimiteNegativo               // 'Limite não pode ser negativo'
    | LimiteAbaixoDoUso            // 'Não é possível reduzir limite abaixo do valor em uso'
    | LimiteDiarioExcedido         // 'Valor excede limite diário de saque'
    | PixMesmaConta                // 'Não é possível fazer PIX para a mesma conta'
    | PoupancaSemChequeEspecial    // 'Saldo insuficiente. Conta poupança não possui cheque especial'
    | SemContaCorrente             // 'Cliente não possui conta corrente'
    | ClasseAbstrata               // PHP Error: Conta is abstract and cannot be instantiated
    | NumerosEsgotados             // the random source ran dry before a free number was drawn
    | ContaNaoEncontrada           // 'Conta não encontrada'
    | ClienteInativo               // 'Cliente está inativo'
    | JaPossuiCorrente             // 'Cliente já possui conta corrente'
    | JaPossuiPoupanca             // 'Cliente já possui conta poupança'
    | LimiteAberturaForaDaFaixa    // 'Limite do cheque especial deve estar entre R$ 0 e R$ 10.000'
    | ApenasCorrente               // 'Apenas contas correntes possuem cheque especial'
    | LimiteForaDaFaixa            // 'Limite deve estar entre R$ 0 e R$ 10.000'
    | ReducaoAbaixoDoUso(usado: real) // 'Não é possível reduzir limite. Valor em uso: R$ …'
    | JaBloqueada                  // 'Conta já está bloqueada'
    | NaoBloqueada                 // 'Conta não está bloqueada'
    | ExcedeLimiteDiario           // 'Valor excede limite diário'
    | ExcedeMaximoDeposito         // 'Valor excede limite máximo para depósito'

  /**
   * The store handle the models persist through. Its fields are replaced by every save;
   * `draws` is consumed by account-number generation.
   */
  class Bank {
    var clientes: Table<ClienteRow>
    var contas: Table<ContaRow>
    var draws: seq<ValidDraw>

    function State(): Db reads this { Db(clientes, contas, draws) }

    constructor (db: Db)
      ensures State() == db
    {
      clientes, contas, draws := db.clientes, db.contas, db.draws;
    }
  }

  /** The account number one draw spells: five digits, '-', one digit. */
  function FormatDraw(d: ValidDraw): string
  {
    NatToString(d.prefix) + "-" + NatToString(d.digit)
  }

  /** `buscarPorNumero(n)` finds a row: some stored account already carries number `n`. */
  predicate NumberTaken(contas: Table<ContaRow>, n: string)
  {
    First(contas.rows, (r: ContaRow) => r.numero == n).Some?
  }

  /**
   * The do-while of `gerarNumeroConta`: keep drawing until the number is free.
   * Gives the number and the draws left over; None when the draws run out first.
   */
  function Generate(draws: seq<ValidDraw>, contas: Table<ContaRow>): Option<(string, seq<ValidDraw>)>
  {
    if draws == [] then None
    else if NumberTaken(contas, FormatDraw(draws[0])) then Generate(draws[1..], contas)
    else Some((FormatDraw(draws[0]), draws[1..]))
  }
}
