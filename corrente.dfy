/** ContaCorrente's own arithmetic: its fee table and the overdraft (cheque especial) figures. */
module ContaCorrente {

  /** The TARIFAS constant of the checking account. */
  const Tarifas: map<string, real> := map[
    "saque" := 4.50, "transferencia" := 8.50, "ted" := 15.90,
    "doc" := 12.90, "pix" := 0.00, "deposito" := 0.00]

  /** The overdraft limit `criar` and `abrirContaCorrente` give when the caller passes none. */
  const LimitePadrao: real := 500.00

  /** `calcularTarifa(op)`: the table entry, or 0 for an operation the table does not list. */
  function Tarifa(op: string): (r: real)
    ensures r >= 0.0
    ensures op !in Tarifas ==> r == 0.0
    ensures r > 0.0 <==> op in {"saque", "transferencia", "ted", "doc"}
  {
    if op in Tarifas then Tarifas[op] else 0.00
  }

  /** `getSaldoDisponivel`: the balance plus the overdraft limit. */
  function SaldoDisponivel(saldo: real, limite: real): real { saldo + limite }

  /** `isUsandoChequeEspecial`. */
  predicate UsandoChequeEspecial(saldo: real) { saldo < 0.0 }

  /** `getValorUsadoChequeEspecial`: how much of the overdraft the balance uses. */
  function ValorUsado(saldo: real): (r: real)
    ensures r >= 0.0 && r >= -saldo
    ensures r > 0.0 <==> UsandoChequeEspecial(saldo)
    ensures saldo + r >= 0.0
  {
    if saldo < 0.0 then -saldo else 0.00
  }

  /** `getLimiteDisponivelChequeEspecial`: the overdraft still free. */
  function LimiteDisponivel(saldo: real, limite: real): (r: real)
    ensures r <= limite
  {
    limite - ValorUsado(saldo)
  }

  /** The overdraft invariant: the balance never goes below minus the limit. */
  predicate DentroDoLimite(saldo: real, limite: real) { saldo >= -limite }

  /**
   * With a non-negative limit, the overdraft invariant holds exactly when the free overdraft
   * is not negative, and exactly when the available balance is not negative.
   */
  lemma DentroDoLimiteIffFolga(saldo: real, limite: real)
    requires limite >= 0.0
    ensures DentroDoLimite(saldo, limite) <==> LimiteDisponivel(saldo, limite) >= 0.0
    ensures DentroDoLimite(saldo, limite) <==> SaldoDisponivel(saldo, limite) >= 0.0
  {
  }

  /** Overdraft bookkeeping: the part of the limit in use plus the part left is the limit. */
  lemma UsadoMaisDisponivel(saldo: real, limite: real)
    ensures ValorUsado(saldo) + LimiteDisponivel(saldo, limite) == limite
    ensures UsandoChequeEspecial(saldo) ==> SaldoDisponivel(saldo, limite) == LimiteDisponivel(saldo, limite)
  {
  }
}
