/** ContaPoupanca's own arithmetic: its fee table, the monthly interest and its projection. */
module ContaPoupanca {
  import CC = ContaCorrente

  /** The TARIFAS constant of the savings account. */
  const Tarifas: map<string, real> := map[
    "saque" := 0.00, "transferencia" := 1.00, "ted" := 10.90,
    "doc" := 8.90, "pix" := 0.00, "deposito" := 0.00]

  /** RENDIMENTO_MENSAL, 0.5% a month. */
  const RendimentoMensal: real := 0.005

  /** `calcularTarifa(op)`: the table entry, or 0 for an operation the table does not list. */
  function Tarifa(op: string): (r: real)
    ensures r >= 0.0
    ensures op !in Tarifas ==> r == 0.0
    ensures r > 0.0 <==> op in {"transferencia", "ted", "doc"}
  {
    if op in Tarifas then Tarifas[op] else 0.00
  }

  /** The savings fees are never higher than the checking fees, for any operation name. */
  lemma TarifaNaoExcedeCorrente(op: string)
    ensures Tarifa(op) <= CC.Tarifa(op)
  {
  }

  /** `calcularRendimento`: the balance times the monthly rate. */
  function Rendimento(saldo: real): (r: real)
    ensures r > 0.0 <==> saldo > 0.0
    ensures r * 200.0 == saldo
  {
    saldo * RendimentoMensal
  }

  /** One row of `projetarRendimento`'s result (the formatted strings are left out). */
  datatype Mes = Mes(mes: int, rendimento: real, saldoProjetado: real)

  function Pow(x: real, n: nat): real
  {
    if n == 0 then 1.0 else x * Pow(x, n - 1)
  }

  /** Compound growth after `n` months, in closed form. */
  function Composto(saldo: real, n: nat): real
  {
    saldo * Pow(1.0 + RendimentoMensal, n)
  }

  /** The projection for `meses` months: month i+1 earns interest on the balance after i months. */
  function Projecao(saldo: real, meses: int): (r: seq<Mes>)
    ensures |r| == if meses > 0 then meses else 0
  {
    seq(if meses > 0 then meses else 0,
        i requires 0 <= i => Mes(i + 1, Composto(saldo, i) * RendimentoMensal, Composto(saldo, i + 1)))
  }

  lemma ComposeStep(saldo: real, n: nat)
    ensures Composto(saldo, n + 1) == Composto(saldo, n) + Rendimento(Composto(saldo, n))
  {
    calc {
      Composto(saldo, n + 1);
      saldo * ((1.0 + RendimentoMensal) * Pow(1.0 + RendimentoMensal, n));
      (saldo * Pow(1.0 + RendimentoMensal, n)) * (1.0 + RendimentoMensal);
    }
  }

  /**
   * The projection is the month-by-month recurrence the source computes: months run 1..m,
   * each month's interest is 0.5% of the previous projected balance (the current balance
   * for the first month), and each projected balance is the previous one plus that interest.
   */
  lemma {:induction false} ProjecaoRecorrencia(saldo: real, meses: int, i: nat)
    requires i < |Projecao(saldo, meses)|
    ensures Projecao(saldo, meses)[i].mes == i + 1
    ensures Projecao(saldo, meses)[i].rendimento ==
      Rendimento(if i == 0 then saldo else Projecao(saldo, meses)[i - 1].saldoProjetado)
    ensures Projecao(saldo, meses)[i].saldoProjetado ==
      (if i == 0 then saldo else Projecao(saldo, meses)[i - 1].saldoProjetado) + Projecao(saldo, meses)[i].rendimento
  {
    ComposeStep(saldo, i);
    if i > 0 {
      assert Projecao(saldo, meses)[i - 1].saldoProjetado == Composto(saldo, i);
    } else {
      assert Composto(saldo, 0) == saldo;
    }
  }
}
