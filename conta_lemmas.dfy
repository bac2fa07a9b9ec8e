/** Properties of the account operations, proved on their value-level definitions. */
module ContaProperties {
  import opened Results
  import opened Store
  import opened Text
  import opened Ledger
  import opened ContaSpec
  import CC = ContaCorrente
  import CP = ContaPoupanca

  // ------------------------------------------------------------------ number generation

  /** The text a five-digit prefix and a check digit spell, digit by digit. */
  lemma FormatDrawDigits(d: ValidDraw)
    ensures |FormatDraw(d)| == 7
    ensures '1' <= FormatDraw(d)[0] <= '9'
    ensures forall i :: 0 <= i < 7 && i != 5 ==> IsDigit(FormatDraw(d)[i])
    ensures FormatDraw(d)[5] == '-'
  {
    PrefixDigits(d.prefix);
    var a := NatToString(d.prefix);
    var b := NatToString(d.digit);
    assert b == [DigitChar(d.digit)];
    assert FormatDraw(d) == a + "-" + b;
  }

  /** A five-digit prefix prints as five characters, the first of them 1–9. */
  lemma {:induction false} PrefixDigits(p: nat)
    requires 10000 <= p <= 99999
    ensures |NatToString(p)| == 5 && '1' <= NatToString(p)[0] <= '9'
  {
    var n1 := p / 10;
    var n2 := n1 / 10;
    var n3 := n2 / 10;
    var n4 := n3 / 10;
    assert 1 <= n4 < 10;
    assert NatToString(n4) == [DigitChar(n4)];
    assert NatToString(n3) == NatToString(n4) + [DigitChar(n3 % 10)];
    assert NatToString(n2) == NatToString(n3) + [DigitChar(n2 % 10)];
    assert NatToString(n1) == NatToString(n2) + [DigitChar(n1 % 10)];
    assert NatToString(p) == NatToString(n1) + [DigitChar(p % 10)];
  }

  /**
   * `gerarNumeroConta` returns a number no stored account has, drawn from the random source,
   * shaped as five digits (the first 1–9), '-', one digit; and it fails only when every draw
   * it was given spells a number that is already taken.
   */
  lemma GenerateSpec(draws: seq<ValidDraw>, contas: Table<ContaRow>)
    ensures Generate(draws, contas).Some? ==>
      var (n, rest) := Generate(draws, contas).value;
      && !NumberTaken(contas, n)
      && |rest| < |draws| && rest == draws[|draws| - |rest|..]
      && n == FormatDraw(draws[|draws| - |rest| - 1])
      && |n| == 7 && '1' <= n[0] <= '9' && n[5] == '-'
      && (forall i :: 0 <= i < 7 && i != 5 ==> IsDigit(n[i]))
    ensures Generate(draws, contas).None? <==>
      forall i :: 0 <= i < |draws| ==> NumberTaken(contas, FormatDraw(draws[i]))
  {
    GenerateFound(draws, contas);
    GenerateExhausted(draws, contas);
    if Generate(draws, contas).Some? {
      var (n, rest) := Generate(draws, contas).value;
      FormatDrawDigits(draws[|draws| - |rest| - 1]);
    }
  }

  /** The number found is the first free one's spelling, and the draws after it are what is left. */
  lemma {:induction false} GenerateFound(draws: seq<ValidDraw>, contas: Table<ContaRow>)
    ensures Generate(draws, contas).Some? ==>
      var (n, rest) := Generate(draws, contas).value;
      && !NumberTaken(contas, n)
      && |rest| < |draws| && rest == draws[|draws| - |rest|..]
      && n == FormatDraw(draws[|draws| - |rest| - 1])
  {
    if draws != [] && NumberTaken(contas, FormatDraw(draws[0])) {
      var tail := draws[1..];
      GenerateFound(tail, contas);
      assert Generate(draws, contas) == Generate(tail, contas);
      if Generate(tail, contas).Some? {
        var rest := Generate(tail, contas).value.1;
        var k := |tail| - |rest|;
        assert |draws| - |rest| == k + 1;
        assert tail[k..] == draws[k + 1..];
        assert tail[k - 1] == draws[k];
      }
    }
  }

  /** Generation fails exactly when every draw spells a number already taken. */
  lemma {:induction false} GenerateExhausted(draws: seq<ValidDraw>, contas: Table<ContaRow>)
    ensures Generate(draws, contas).None? <==>
      forall i :: 0 <= i < |draws| ==> NumberTaken(contas, FormatDraw(draws[i]))
  {
    if draws != [] {
      GenerateExhausted(draws[1..], contas);
      assert forall i :: 1 <= i < |draws| ==> draws[i] == draws[1..][i - 1];
    }
  }


  // ------------------------------------------------------------------ save

  /** Saving never changes the balance, limits, block flag, owner or kind, nor the clients table. */
  lemma PersistKeepsAttributes(a: Acct, db: Db)
    ensures var o := Persist(a, db);
      && o.acct.(numero := a.numero, id := a.id, stored := a.stored) == a
      && o.db.clientes == db.clientes
      && (o.result.Err? ==> o.db.contas == db.contas && o.acct.id == a.id && o.acct.stored == a.stored)
      && (!EmptyStr(a.numero) ==> o.acct.numero == a.numero && o.db.draws == db.draws)
  {
  }

  /** Conta::save's guards: a missing owner id, then an owner not on file, each leaves the table alone. */
  lemma SaveGuardSpec(a: Acct, db: Db)
    requires !EmptyStr(a.numero)
    ensures a.clienteId == 0 ==> Persist(a, db).result == Err(ClienteObrigatorio)
    ensures a.clienteId != 0 && !Has(db.clientes, a.clienteId) ==> Persist(a, db).result == Err(ClienteNaoEncontrado)
    ensures Persist(a, db).result.Err? <==> SaveGuard(db.clientes, a.clienteId).Some?
  {
  }

  /** Saving a stored account rewrites exactly its row with its attributes, and reports one row affected. */
  lemma PersistStored(a: Acct, db: Db)
    requires Valid(db.contas) && Persisted(a, db)
    ensures var o := Persist(a, db);
      && o.result == Ok(true) && o.acct == a
      && o.db == db.(contas := o.db.contas)
      && Valid(o.db.contas) && o.db.contas.nextId == db.contas.nextId
      && Get(o.db.contas, a.id) == Some(RowOf(a))
      && (forall id :: id != a.id ==> Get(o.db.contas, id) == Get(db.contas, id))
      && Persisted(a, o.db)
  {
    UpdateSpec(db.contas, a.id, (_: ContaRow) => RowOf(a));
  }

  /** Saving a new, numbered account inserts one row under a fresh id and marks the object stored. */
  lemma PersistNew(a: Acct, db: Db)
    requires Valid(db.contas) && !a.stored && !EmptyStr(a.numero) && SaveGuard(db.clientes, a.clienteId).None?
    ensures var o := Persist(a, db);
      && o.result == Ok(true)
      && o.acct == a.(id := db.contas.nextId, stored := true)
      && !Has(db.contas, o.acct.id)
      && o.db == db.(contas := o.db.contas)
      && Valid(o.db.contas)
      && Get(o.db.contas, o.acct.id) == Some(RowOf(a))
      && (forall id :: id != o.acct.id ==> Get(o.db.contas, id) == Get(db.contas, id))
      && o.db.contas.rows == db.contas.rows + [(o.acct.id, RowOf(o.acct))]
      && Persisted(o.acct, o.db)
  {
    InsertSpec(db.contas, RowOf(a));
  }

  /** An account with no number is given a freshly generated one before anything is stored. */
  lemma PersistGeneratesNumber(a: Acct, db: Db)
    requires EmptyStr(a.numero)
    ensures var o := Persist(a, db);
      || (o.result == Err(NumerosEsgotados) && o.db.contas == db.contas)
      || (!NumberTaken(db.contas, o.acct.numero) && |o.acct.numero| == 7 && o.acct.numero[5] == '-')
  {
    GenerateSpec(db.draws, db.contas);
  }

  /** Rows, once stored, stay stored: saving never removes an id or a client. */
  lemma PersistKeepsRows(a: Acct, db: Db, id: int)
    requires Valid(db.contas)
    ensures Valid(Persist(a, db).db.contas)
    ensures Has(db.contas, id) ==> Has(Persist(a, db).db.contas, id)
  {
    var gen := if EmptyStr(a.numero) then Generate(db.draws, db.contas) else Some((a.numero, db.draws));
    if gen.Some? {
      var a1 := a.(numero := gen.value.0);
      if SaveGuard(db.clientes, a1.clienteId).None? {
        if a1.stored {
          UpdateSpec(db.contas, a1.id, (_: ContaRow) => RowOf(a1));
        } else {
          InsertSpec(db.contas, RowOf(a1));
        }
      }
    }
  }

  /** A persisted account stays persisted whatever another object saves. */
  lemma PersistedStable(b: Acct, a: Acct, db: Db)
    requires Valid(db.contas) && Persisted(b, db)
    ensures Persisted(b, Persist(a, db).db)
  {
    PersistKeepsRows(a, db, b.id);
    PersistKeepsAttributes(a, db);
  }

  // ------------------------------------------------------------------ creditar / debitar

  /**
   * `creditar(v)` rejects a non-positive amount and changes nothing; otherwise the balance
   * grows by exactly `v`, blocked or not, and for a stored account the row is rewritten.
   */
  lemma CreditarSpec(a: Acct, v: real, db: Db)
    requires Valid(db.contas)
    ensures var o := Creditar(a, v, db);
      && (v <= 0.0 ==> o == Outcome(a, db, Err(ValorInvalido)))
      && (v > 0.0 ==> o.acct.saldo == a.saldo + v && o.acct.bloqueada == a.bloqueada && o.acct.limite == a.limite)
      && (v > 0.0 && Persisted(a, db) ==>
            o.result == Ok(true) && o.acct == a.(saldo := a.saldo + v)
            && Get(o.db.contas, a.id) == Some(RowOf(a.(saldo := a.saldo + v))))
  {
    if v > 0.0 {
      PersistKeepsAttributes(a.(saldo := a.saldo + v), db);
      if Persisted(a, db) { PersistStored(a.(saldo := a.saldo + v), db); }
    }
  }

  /**
   * The order of `debitar`'s checks. A savings account reports the missing overdraft before
   * anything else; the base checks then go amount, block, available balance; a savings
   * account can never fail the base balance check; and the debit passes exactly when the
   * amount is positive, the account is unblocked and the available balance covers it.
   */
  lemma DebitGuardSpec(a: Acct, v: real)
    ensures a.kind == Poupanca && v > a.saldo ==> DebitGuard(a, v) == Some(PoupancaSemChequeEspecial)
    ensures !(a.kind == Poupanca && v > a.saldo) && v <= 0.0 ==> DebitGuard(a, v) == Some(ValorInvalido)
    ensures !(a.kind == Poupanca && v > a.saldo) && v > 0.0 && a.bloqueada ==> DebitGuard(a, v) == Some(ContaBloqueada)
    ensures a.kind == Corrente ==> DebitGuard(a, v) != Some(PoupancaSemChequeEspecial)
    ensures a.kind == Poupanca ==> DebitGuard(a, v) != Some(SaldoInsuficiente)
    ensures DebitGuard(a, v).None? <==> v > 0.0 && !a.bloqueada && TemSaldoSuficiente(a, v)
  {
  }

  /**
   * `debitar(v)`: on a failed check nothing changes; otherwise the balance drops by exactly
   * `v`, no other attribute changes, and a stored account's row is rewritten.
   */
  lemma DebitarSpec(a: Acct, v: real, db: Db)
    requires Valid(db.contas)
    ensures var o := Debitar(a, v, db);
      && (DebitGuard(a, v).Some? ==> o == Outcome(a, db, Err(DebitGuard(a, v).value)))
      && (DebitGuard(a, v).None? ==> o.acct.(numero := a.numero, id := a.id, stored := a.stored) == a.(saldo := a.saldo - v))
      && (DebitGuard(a, v).None? && Persisted(a, db) ==>
            o.result == Ok(true) && o.acct == a.(saldo := a.saldo - v)
            && Get(o.db.contas, a.id) == Some(RowOf(a.(saldo := a.saldo - v))))
  {
    if DebitGuard(a, v).None? {
      PersistKeepsAttributes(a.(saldo := a.saldo - v), db);
      if Persisted(a, db) { PersistStored(a.(saldo := a.saldo - v), db); }
    }
  }

  /**
   * The overdraft invariant: after every successful debit a checking account's balance is at
   * least minus its limit, and a savings account's balance is not negative, whatever the
   * balance was before.
   */
  lemma DebitKeepsBalanceInRange(a: Acct, v: real)
    requires DebitStep(a, v).Ok?
    ensures a.kind == Corrente ==> CC.DentroDoLimite(DebitStep(a, v).value.saldo, a.limite)
    ensures a.kind == Poupanca ==> DebitStep(a, v).value.saldo >= 0.0
    ensures DebitStep(a, v).value.saldo < a.saldo
  {
  }

  /** The checking account's invariant `saldo >= -limite` is kept by credits, debits and a limit change. */
  lemma CorrenteInvariant(a: Acct, v: real, novo: real)
    requires a.kind == Corrente && CC.DentroDoLimite(a.saldo, a.limite)
    ensures CreditStep(a, v).Ok? ==> CC.DentroDoLimite(CreditStep(a, v).value.saldo, CreditStep(a, v).value.limite)
    ensures DebitStep(a, v).Ok? ==> CC.DentroDoLimite(DebitStep(a, v).value.saldo, DebitStep(a, v).value.limite)
    ensures SacarStep(a, v).Ok? ==> CC.DentroDoLimite(SacarStep(a, v).value.saldo, SacarStep(a, v).value.limite)
    ensures AlterarLimiteStep(a, novo).Ok? ==>
      CC.DentroDoLimite(AlterarLimiteStep(a, novo).value.saldo, AlterarLimiteStep(a, novo).value.limite)
  {
  }

  // ------------------------------------------------------------------ bloquear / desbloquear

  /**
   * `bloquear`/`desbloquear` set the flag whatever it was, change no other attribute, and
   * doing one twice leaves the object and, for a stored account, the table as doing it once.
   */
  lemma BloqueioIdempotente(a: Acct, db: Db)
    requires Valid(db.contas) && Persisted(a, db)
    ensures Bloquear(a, db).acct == a.(bloqueada := true) && Bloquear(a, db).result == Ok(true)
    ensures Desbloquear(a, db).acct == a.(bloqueada := false) && Desbloquear(a, db).result == Ok(true)
    ensures Bloquear(Bloquear(a, db).acct, Bloquear(a, db).db) == Bloquear(a, db)
    ensures Desbloquear(Desbloquear(a, db).acct, Desbloquear(a, db).db) == Desbloquear(a, db)
  {
    var b := a.(bloqueada := true);
    PersistStored(b, db);
    PersistStored(b, Persist(b, db).db);
    ReplaceIdempotent(db.contas, a.id, RowOf(b));
    var u := a.(bloqueada := false);
    PersistStored(u, db);
    PersistStored(u, Persist(u, db).db);
    ReplaceIdempotent(db.contas, a.id, RowOf(u));
  }

  // ------------------------------------------------------------------ moving money

  /**
   * What a completed debit-then-credit leaves behind: the source is down by the debit, the
   * destination up by the credit, and any difference between the two reached no account.
   */
  lemma MoveFundsSpec(src: Acct, dst: Acct, debito: real, credito: real, db: Db)
    ensures var o := MoveFunds(src, dst, debito, credito, db);
      && (o.result.Ok? ==>
            o.src.saldo == src.saldo - debito && o.dst.saldo == dst.saldo + credito
            && (o.src.saldo + o.dst.saldo) + (debito - credito) == src.saldo + dst.saldo)
      && (DebitGuard(src, debito).Some? ==> o == Outcome2(src, dst, db, Err(DebitGuard(src, debito).value)))
  {
    var o1 := Debitar(src, debito, db);
    DebitarSaldo(src, debito, db);
    if o1.result.Ok? {
      CreditarSaldo(dst, credito, o1.db);
    }
  }

  /** What `debitar` does to the object's balance, whatever the store holds. */
  lemma DebitarSaldo(a: Acct, v: real, db: Db)
    ensures var o := Debitar(a, v, db);
      && (DebitGuard(a, v).Some? ==> o == Outcome(a, db, Err(DebitGuard(a, v).value)))
      && (DebitGuard(a, v).None? ==> o.acct.saldo == a.saldo - v)
  {
    if DebitGuard(a, v).None? {
      PersistKeepsAttributes(a.(saldo := a.saldo - v), db);
    }
  }

  /** What `creditar` does to the object's balance, whatever the store holds. */
  lemma CreditarSaldo(a: Acct, v: real, db: Db)
    ensures var o := Creditar(a, v, db);
      && (v <= 0.0 ==> o == Outcome(a, db, Err(ValorInvalido)))
      && (v > 0.0 ==> o.acct.saldo == a.saldo + v)
  {
    if v > 0.0 {
      PersistKeepsAttributes(a.(saldo := a.saldo + v), db);
    }
  }

  /**
   * The conditional fact about debit-then-credit: when the credit amount is positive, the
   * debit went through and the destination is a stored account, the credit goes through too.
   */
  lemma MoveFundsCompletes(src: Acct, dst: Acct, debito: real, credito: real, db: Db)
    requires Valid(db.contas) && Persisted(dst, db)
    requires credito > 0.0 && Debitar(src, debito, db).result.Ok?
    ensures MoveFunds(src, dst, debito, credito, db).result == Ok(true)
  {
    var o1 := Debitar(src, debito, db);
    var a1 := src.(saldo := src.saldo - debito);
    DebitarSaldo(src, debito, db);
    assert o1 == Persist(a1, db);
    PersistedStable(dst, a1, db);
    PersistKeepsRows(a1, db, dst.id);
    CreditarSpec(dst, credito, o1.db);
  }

  /** `transferirPara` to an account with the same number fails and changes nothing. */
  lemma TransferirMesmaConta(src: Acct, dst: Acct, v: real, db: Db)
    requires src.numero == dst.numero
    ensures TransferirPara(src, dst, v, db) == Outcome2(src, dst, db, Err(MesmaConta))
  {
  }

  /**
   * `transferirPara`: the fee-inclusive total must be available first; a completed transfer
   * lowers the source by `v` plus its kind's transfer fee, raises the destination by `v`, and
   * the fee is credited to no account.
   */
  lemma TransferirParaSpec(src: Acct, dst: Acct, v: real, db: Db)
    ensures var o := TransferirPara(src, dst, v, db);
      && (src.numero != dst.numero && !TemSaldoSuficiente(src, v + Tarifa(src.kind, "transferencia")) ==>
            o == Outcome2(src, dst, db, Err(SaldoInsuficienteTarifa)))
      && (o.result.Ok? ==>
            && src.numero != dst.numero
            && o.src.saldo == src.saldo - (v + Tarifa(src.kind, "transferencia"))
            && o.dst.saldo == dst.saldo + v
            && o.src.saldo + o.dst.saldo == src.saldo + dst.saldo - Tarifa(src.kind, "transferencia"))
  {
    var total := v + Tarifa(src.kind, "transferencia");
    if src.numero != dst.numero && TemSaldoSuficiente(src, total) {
      MoveFundsSpec(src, dst, total, v, db);
    }
  }

  /**
   * Transfers are not atomic: from a stored, unblocked checking account with at least 7.50
   * available, transferring -1.00 debits the fee-inclusive total 7.50 and saves it, and only
   * then fails on the credit, so the store keeps the debit.
   */
  lemma TransferirNaoAtomica(src: Acct, dst: Acct, db: Db)
    requires Valid(db.contas) && Persisted(src, db)
    requires src.kind == Corrente && !src.bloqueada && src.saldo + src.limite >= 7.5
    requires src.numero != dst.numero
    ensures var o := TransferirPara(src, dst, -1.0, db);
      && o.result == Err(ValorInvalido)
      && o.src.saldo == src.saldo - 7.5
      && Get(o.db.contas, src.id) == Some(RowOf(src.(saldo := src.saldo - 7.5)))
      && o.dst == dst
  {
    assert Tarifa(src.kind, "transferencia") == 8.5;
    DebitarSpec(src, 7.5, db);
  }

  /**
   * What a completed debit-then-credit between two stored accounts leaves in the store: the
   * source's row holds the debited object, the destination's row the credited one, and every
   * other row is as it was.
   */
  lemma MoveFundsStore(src: Acct, dst: Acct, debito: real, credito: real, db: Db)
    requires Valid(db.contas) && Persisted(src, db) && Persisted(dst, db) && src.id != dst.id
    ensures var o := MoveFunds(src, dst, debito, credito, db);
      o.result.Ok? ==>
        && Get(o.db.contas, src.id) == Some(RowOf(o.src))
        && Get(o.db.contas, dst.id) == Some(RowOf(o.dst))
        && (forall id :: id != src.id && id != dst.id ==> Get(o.db.contas, id) == Get(db.contas, id))
  {
    var o1 := Debitar(src, debito, db);
    if o1.result.Ok? {
      var a1 := src.(saldo := src.saldo - debito);
      assert DebitGuard(src, debito).None?;
      assert o1 == Persist(a1, db);
      PersistStored(a1, db);
      if credito > 0.0 {
        var b1 := dst.(saldo := dst.saldo + credito);
        PersistedStable(dst, a1, db);
        assert Persisted(b1, o1.db);
        PersistStored(b1, o1.db);
      }
    }
  }

  /**
   * A completed `transferirPara` between two stored accounts rewrites both rows with the new
   * balances and leaves every other account's row alone.
   */
  lemma TransferirParaStore(src: Acct, dst: Acct, v: real, db: Db)
    requires Valid(db.contas) && Persisted(src, db) && Persisted(dst, db) && src.id != dst.id
    ensures var o := TransferirPara(src, dst, v, db);
      o.result.Ok? ==>
        && Get(o.db.contas, src.id) == Some(RowOf(src.(saldo := src.saldo - (v + Tarifa(src.kind, "transferencia")))))
        && Get(o.db.contas, dst.id) == Some(RowOf(dst.(saldo := dst.saldo + v)))
        && (forall id :: id != src.id && id != dst.id ==> Get(o.db.contas, id) == Get(db.contas, id))
  {
    var total := TotalComTarifa(src, v);
    if src.numero != dst.numero && TemSaldoSuficiente(src, total) {
      MoveFundsStore(src, dst, total, v, db);
      MoveFundsSpec(src, dst, total, v, db);
      var o := MoveFunds(src, dst, total, v, db);
      if o.result.Ok? {
        DebitarSaldo(src, total, db);
        PersistKeepsAttributes(src.(saldo := src.saldo - total), db);
        CreditarSaldo(dst, v, Debitar(src, total, db).db);
        PersistKeepsAttributes(dst.(saldo := dst.saldo + v), Debitar(src, total, db).db);
      }
    }
  }

  /** `pix` refuses the same number; a completed PIX moves exactly `v` with no fee. */
  lemma PixSpec(src: Acct, dst: Acct, v: real, db: Db)
    ensures src.numero == dst.numero ==> Pix(src, dst, v, db) == Outcome2(src, dst, db, Err(PixMesmaConta))
    ensures Pix(src, dst, v, db).result.Ok? ==>
      Pix(src, dst, v, db).src.saldo == src.saldo - v && Pix(src, dst, v, db).dst.saldo == dst.saldo + v
  {
    if src.numero != dst.numero { MoveFundsSpec(src, dst, v, v, db); }
  }

  /**
   * `ted` has no same-account check; a completed TED debits `v` plus the sender's TED fee
   * (15.90 from checking, 10.90 from savings) and credits `v`.
   */
  lemma TedSpec(src: Acct, dst: Acct, v: real, db: Db)
    ensures var fee := if src.kind == Corrente then 15.90 else 10.90;
      var o := Ted(src, dst, v, db);
      && o == MoveFunds(src, dst, v + fee, v, db)
      && (o.result.Ok? ==> o.src.saldo == src.saldo - v - fee && o.dst.saldo == dst.saldo + v)
  {
    var fee := if src.kind == Corrente then 15.90 else 10.90;
    TedFee(src.kind);
    assert TedTotal(src, v) == v + fee;
    MoveFundsSpec(src, dst, v + fee, v, db);
  }

  lemma TedFee(k: Kind)
    ensures Tarifa(k, "ted") == if k == Corrente then 15.90 else 10.90
  {
    if k == Corrente { assert CC.Tarifas["ted"] == 15.90; } else { assert CP.Tarifas["ted"] == 10.90; }
  }

  /** Debit-then-credit on one object: the two amounts net out on the same balance. */
  lemma MoveFundsSelfSpec(a: Acct, debito: real, credito: real, db: Db)
    requires Valid(db.contas)
    ensures var o := MoveFundsSelf(a, debito, credito, db);
      && (o.result.Ok? ==> o.acct.saldo == a.saldo - debito + credito)
      && (DebitGuard(a, debito).Some? ==> o == Outcome(a, db, Err(DebitGuard(a, debito).value)))
      && (Persisted(a, db) && credito > 0.0 && DebitGuard(a, debito).None? ==>
            o.result == Ok(true) && o.acct == a.(saldo := a.saldo - debito + credito))
  {
    var o1 := Debitar(a, debito, db);
    DebitarSaldo(a, debito, db);
    if o1.result.Ok? {
      CreditarSaldo(o1.acct, credito, o1.db);
    }
    if DebitGuard(a, debito).None? && Persisted(a, db) && credito > 0.0 {
      DebitarSpec(a, debito, db);
      var a1 := a.(saldo := a.saldo - debito);
      PersistKeepsRows(a1, db, a.id);
      PersistedStable(a, a1, db);
      assert Persisted(o1.acct, o1.db);
      CreditarSpec(o1.acct, credito, o1.db);
    }
  }

  /**
   * A TED from an account to itself completes as a pure fee charge: `v` leaves and comes back,
   * and when the account is stored and the debit is allowed the only change is the TED fee.
   */
  lemma TedSelfSpec(a: Acct, v: real, db: Db)
    requires Valid(db.contas)
    ensures var fee := if a.kind == Corrente then 15.90 else 10.90;
      var o := TedSelf(a, v, db);
      && (o.result.Ok? ==> o.acct.saldo == a.saldo - fee)
      && (DebitGuard(a, v + fee).Some? ==> o == Outcome(a, db, Err(DebitGuard(a, v + fee).value)))
      && (Persisted(a, db) && v > 0.0 && DebitGuard(a, v + fee).None? ==>
            o.result == Ok(true) && o.acct == a.(saldo := a.saldo - fee))
  {
    var fee := if a.kind == Corrente then 15.90 else 10.90;
    assert Tarifa(a.kind, "ted") == fee by {
      if a.kind == Corrente { assert CC.Tarifas["ted"] == 15.90; } else { assert CP.Tarifas["ted"] == 10.90; }
    }
    MoveFundsSelfSpec(a, v + fee, v, db);
  }

  /**
   * `sacar(v)`: the daily limit is checked first, against `v` without the fee; then checking
   * debits `v + 4.50` and savings debits exactly `v`.
   */
  lemma SacarSpec(a: Acct, v: real)
    ensures v > a.limiteDiario ==> SacarStep(a, v) == Err(LimiteDiarioExcedido)
    ensures v <= a.limiteDiario && a.kind == Corrente ==> SacarStep(a, v) == DebitStep(a, v + 4.50)
    ensures v <= a.limiteDiario && a.kind == Poupanca ==> SacarStep(a, v) == DebitStep(a, v)
    ensures SacarStep(a, v).Ok? ==>
      SacarStep(a, v).value == a.(saldo := a.saldo - v - (if a.kind == Corrente then 4.50 else 0.0))
  {
  }

  /**
   * `alterarLimiteChequeEspecial(novo)`: a negative limit fails, then a limit below the
   * overdraft in use fails (equal is allowed); otherwise only the limit changes and the
   * balance stays within the new limit.
   */
  lemma AlterarLimiteSpec(a: Acct, novo: real)
    ensures novo < 0.0 ==> AlterarLimiteStep(a, novo) == Err(LimiteNegativo)
    ensures novo >= 0.0 && CC.ValorUsado(a.saldo) > novo ==> AlterarLimiteStep(a, novo) == Err(LimiteAbaixoDoUso)
    ensures AlterarLimiteStep(a, novo).Ok? <==> novo >= 0.0 && a.saldo >= -novo
    ensures AlterarLimiteStep(a, novo).Ok? ==>
      AlterarLimiteStep(a, novo).value == a.(limite := novo) && CC.DentroDoLimite(a.saldo, novo)
  {
  }

  /**
   * `aplicarRendimento`: a positive balance grows by 0.5%, saved; a zero or negative one is
   * left as it is, nothing is saved and the result is still true.
   */
  lemma AplicarRendimentoSpec(a: Acct, db: Db)
    ensures a.saldo > 0.0 ==> AplicarRendimento(a, db).acct.saldo == a.saldo * 1.005
    ensures a.saldo <= 0.0 ==> AplicarRendimento(a, db) == Outcome(a, db, Ok(true))
  {
    if a.saldo > 0.0 { PersistKeepsAttributes(a.(saldo := a.saldo + CP.Rendimento(a.saldo)), db); }
  }

  // ------------------------------------------------------------------ lookups and creation

  /** A loaded account saves back exactly the row it was loaded from. */
  lemma LoadRowRoundTrip(k: Kind, id: int, r: ContaRow)
    ensures RowOf(Load(k, id, r)) == r && Load(k, id, r).stored && Load(k, id, r).id == id
  {
  }

  /**
   * `buscarPorNumero(n)`: null exactly when no row has that number; otherwise the lowest-rowid
   * such row, loaded as the class its `tipo_conta` names, falling back to the calling class,
   * which fails when the caller is the abstract Conta.
   */
  lemma BuscarPorNumeroSpec(contas: Table<ContaRow>, n: string, caller: Option<Kind>)
    ensures var f := First(contas.rows, (r: ContaRow) => r.numero == n);
      var r := BuscarPorNumero(contas, n, caller);
      && (r == Ok(None) <==> forall i :: 0 <= i < |contas.rows| ==> contas.rows[i].1.numero != n)
      && (r.Err? <==> f.Some? && KindFor(f.value.1.tipo, caller).None?)
      && (r.Err? ==> r.error == ClasseAbstrata && caller.None?)
      && (r.Ok? && r.value.Some? ==>
            && f.Some? && r.value.value.numero == n && r.value.value.id == f.value.0
            && RowOf(r.value.value) == f.value.1 && r.value.value.stored
            && (r.value.value.kind == Corrente <==>
                  (f.value.1.tipo == "corrente" || (f.value.1.tipo != "poupanca" && caller == Some(Corrente)))))
  {
  }

  lemma {:induction false} LoadAllSpec(rows: seq<(int, ContaRow)>, caller: Option<Kind>)
    ensures var r := LoadAll(rows, caller);
      && (r.Err? <==> exists i :: 0 <= i < |rows| && KindFor(rows[i].1.tipo, caller).None?)
      && (r.Err? ==> r.error == ClasseAbstrata)
      && (r.Ok? ==> forall i :: 0 <= i < |rows| ==>
            r.value[i] == Load(KindFor(rows[i].1.tipo, caller).value, rows[i].0, rows[i].1))
  {
    if rows != [] {
      LoadAllSpec(rows[1..], caller);
      assert forall i :: 1 <= i < |rows| ==> rows[i] == rows[1..][i - 1];
    }
  }

  /**
   * `buscarPorCliente(id)`: one loaded account per row of that client, in insertion order;
   * it fails only when called on the abstract Conta and some row has an unknown `tipo_conta`.
   */
  lemma BuscarPorClienteSpec(contas: Table<ContaRow>, clienteId: int, caller: Option<Kind>)
    ensures var rows := RowsDoCliente(contas, clienteId);
      var r := BuscarPorCliente(contas, clienteId, caller);
      && (caller.Some? ==> r.Ok?)
      && (r.Ok? ==> |r.value| == |rows| && forall i :: 0 <= i < |rows| ==>
            r.value[i].clienteId == clienteId && r.value[i].id == rows[i].0 && RowOf(r.value[i]) == rows[i].1)
  {
    LoadAllSpec(RowsDoCliente(contas, clienteId), caller);
  }

  /**
   * As written, a lookup called on the abstract Conta fails before any row is read, whatever
   * the table holds; called on a concrete class it is the lookup the rest of the model uses.
   */
  lemma ConsultaComoEscrito(contas: Table<ContaRow>, n: string, clienteId: int, caller: Option<Kind>)
    ensures caller.None? ==>
      && BuscarPorNumeroComoEscrito(contas, n, caller) == Err(ClasseAbstrata)
      && BuscarPorClienteComoEscrito(contas, clienteId, caller) == Err(ClasseAbstrata)
    ensures caller.Some? ==>
      && BuscarPorNumeroComoEscrito(contas, n, caller) == BuscarPorNumero(contas, n, caller)
      && BuscarPorClienteComoEscrito(contas, clienteId, caller) == BuscarPorCliente(contas, clienteId, caller)
  {
  }

  /** Where the two readings part: a stored checking account is found by the corrected lookup on Conta, and the as-written one throws. */
  lemma ConsultaAbstrataDiverge(contas: Table<ContaRow>, n: string)
    requires First(contas.rows, (r: ContaRow) => r.numero == n).Some?
    requires First(contas.rows, (r: ContaRow) => r.numero == n).value.1.tipo == "corrente"
    ensures BuscarPorNumero(contas, n, None).Ok? && BuscarPorNumero(contas, n, None).value.Some?
    ensures BuscarPorNumero(contas, n, None).value.value.kind == Corrente
    ensures BuscarPorNumeroComoEscrito(contas, n, None) == Err(ClasseAbstrata)
  {
  }

  lemma {:induction false} FirstCorrenteLoaded(rows: seq<(int, ContaRow)>)
    ensures LoadAll(rows, Some(Poupanca)).Ok?
    ensures var f := First(rows, (r: ContaRow) => r.tipo == "corrente");
      FirstOfKind(LoadAll(rows, Some(Poupanca)).value, Corrente) ==
        if f.None? then None else Some(Load(Corrente, f.value.0, f.value.1))
  {
    if rows != [] { FirstCorrenteLoaded(rows[1..]); }
  }

  /**
   * `transferirParaContaCorrente(v)`: when none of the owner's accounts is a checking account it
   * fails with nothing changed; otherwise it is a fee-free debit of `v` followed by a credit of
   * `v` to the owner's oldest checking account.
   */
  lemma TransferirParaContaCorrenteSpec(a: Acct, v: real, db: Db)
    ensures var f := First(RowsDoCliente(db.contas, a.clienteId), (r: ContaRow) => r.tipo == "corrente");
      var o := TransferirParaContaCorrente(a, v, db);
      && (f.None? ==> o == Outcome(a, db, Err(SemContaCorrente)))
      && (f.Some? ==>
            && f.value.1.clienteId == a.clienteId
            && var m := MoveFunds(a, Load(Corrente, f.value.0, f.value.1), v, v, db);
               o == Outcome(m.src, m.db, m.result))
      && (o.result.Ok? ==> o.acct.saldo == a.saldo - v)
  {
    var rows := RowsDoCliente(db.contas, a.clienteId);
    FirstCorrenteLoaded(rows);
    var f := First(rows, (r: ContaRow) => r.tipo == "corrente");
    if f.Some? {
      MoveFundsSpec(a, Load(Corrente, f.value.0, f.value.1), v, v, db);
    }
  }

  /**
   * `criar`: a new account under a freshly generated number, with zero balance, unblocked;
   * a checking account gets the requested overdraft limit and a 5000 daily limit, a savings
   * account a zero limit and a 3000 daily limit. A missing owner fails before anything is stored.
   */
  lemma CriarSpec(k: Kind, clienteId: int, limite: real, db: Db)
    requires Valid(db.contas)
    ensures var o := Criar(k, clienteId, limite, db);
      && (Generate(db.draws, db.contas).None? ==> o.result == Err(NumerosEsgotados) && o.db.contas == db.contas)
      && (SaveGuard(db.clientes, clienteId).Some? ==> o.result.Err? && o.db.contas == db.contas)
      && (Generate(db.draws, db.contas).Some? && SaveGuard(db.clientes, clienteId).None? ==>
            && o.result == Ok(true)
            && o.acct.kind == k && o.acct.clienteId == clienteId
            && o.acct.saldo == 0.0 && !o.acct.bloqueada
            && (k == Corrente ==> o.acct.tipo == "corrente" && o.acct.limite == limite && o.acct.limiteDiario == 5000.0)
            && (k == Poupanca ==> o.acct.tipo == "poupanca" && o.acct.limite == 0.0 && o.acct.limiteDiario == 3000.0)
            && !NumberTaken(db.contas, o.acct.numero)
            && !Has(db.contas, o.acct.id)
            && Get(o.db.contas, o.acct.id) == Some(RowOf(o.acct))
            && o.db.contas.rows == db.contas.rows + [(o.acct.id, RowOf(o.acct))]
            && o.db.clientes == db.clientes
            && Persisted(o.acct, o.db))
  {
    GenerateSpec(db.draws, db.contas);
    match Generate(db.draws, db.contas)
    case None =>
    case Some((n, rest)) =>
      var a := match k
        case Corrente => Acct(k, 0, false, n, clienteId, "corrente", 0.00, limite, false, 5000.00)
        case Poupanca => Acct(k, 0, false, n, clienteId, "poupanca", 0.00, 0.00, false, 3000.00);
      assert !EmptyStr(n);
      PersistKeepsAttributes(a, db.(draws := rest));
      if SaveGuard(db.clientes, clienteId).None? {
        PersistNew(a, db.(draws := rest));
      }
  }

  /**
   * `ContaCorrente::criar($clienteId)` without a limit argument: a successful account
   * carries the 500.00 default overdraft limit.
   */
  lemma CriarPadrao(clienteId: int, db: Db)
    requires Valid(db.contas)
    ensures var o := Criar(Corrente, clienteId, CC.LimitePadrao, db);
      o.result.Ok? ==> o.acct.limite == 500.00 && o.acct.tipo == "corrente" && o.acct.saldo == 0.0
  {
    CriarSpec(Corrente, clienteId, CC.LimitePadrao, db);
  }

  // ------------------------------------------------------------------ the loader as written

  /**
   * The code as written loads an account without its id (see README, Findings). Saving such
   * an object runs `UPDATE ... WHERE id = NULL`: no account row changes, and the result is
   * false or an error, never true.
   */
  lemma PersistSemId(a: Acct, db: Db)
    requires Valid(db.contas) && a.stored && a.id == 0
    ensures Persist(a, db).db.contas == db.contas
    ensures Persist(a, db).result != Ok(true)
  {
    var gen := if EmptyStr(a.numero) then Generate(db.draws, db.contas) else Some((a.numero, db.draws));
    if gen.Some? {
      var a1 := a.(numero := gen.value.0);
      if SaveGuard(db.clientes, a1.clienteId).None? {
        FindRowIn(db.contas.rows, 0);
        UpdateSpec(db.contas, 0, (_: ContaRow) => RowOf(a1));
        MapRowsSame(db.contas.rows, 0, RowOf(a1));
      }
    }
  }

  // ------------------------------------------------------------------ the test scenario

  /** Credits and debits of a stored account keep it and every other stored account stored. */
  lemma StepKeepsPersisted(a: Acct, b: Acct, step: Result<Acct, Error>, db: Db)
    requires Valid(db.contas) && Persisted(a, db) && Persisted(b, db)
    requires step.Ok? && step.value.(saldo := a.saldo, limite := a.limite, bloqueada := a.bloqueada) == a
    ensures var o := ThenPersist(a, step, db);
      o.result == Ok(true) && o.acct == step.value && Valid(o.db.contas)
      && Persisted(o.acct, o.db) && Persisted(b, o.db)
  {
    PersistStored(step.value, db);
    PersistedStable(b, step.value, db);
  }

  /**
   * The account scenario of the test script: a checking account with a 1000 overdraft and a
   * savings account, both freshly created and stored. Deposit 2000 and 5000, withdraw 500 and
   * 1000, PIX 300 from checking to savings, withdraw 2000 from checking, then apply interest
   * to savings. Every step succeeds; checking ends at -809.00 and in overdraft, savings at 4321.50.
   */
  lemma CenarioTesteContas(cc: Acct, cp: Acct, db: Db)
    requires Valid(db.contas) && Persisted(cc, db) && Persisted(cp, db) && cc.numero != cp.numero
    requires cc.kind == Corrente && cc.saldo == 0.0 && cc.limite == 1000.0 && !cc.bloqueada && cc.limiteDiario == 5000.0
    requires cp.kind == Poupanca && cp.saldo == 0.0 && !cp.bloqueada && cp.limiteDiario == 3000.0
    ensures var o1 := Depositar(cc, 2000.0, db);
      var o2 := Depositar(cp, 5000.0, o1.db);
      var o3 := Sacar(o1.acct, 500.0, o2.db);
      var o4 := Sacar(o2.acct, 1000.0, o3.db);
      var o5 := Pix(o3.acct, o4.acct, 300.0, o4.db);
      var o6 := Sacar(o5.src, 2000.0, o5.db);
      var o7 := AplicarRendimento(o5.dst, o6.db);
      && o1.result == Ok(true) && o2.result == Ok(true) && o3.result == Ok(true) && o4.result == Ok(true)
      && o5.result == Ok(true) && o6.result == Ok(true) && o7.result == Ok(true)
      && o6.acct.saldo == -809.0 && CC.UsandoChequeEspecial(o6.acct.saldo) && CC.ValorUsado(o6.acct.saldo) == 809.0
      && o7.acct.saldo == 4321.5
  {
    var o1 := Depositar(cc, 2000.0, db);
    StepKeepsPersisted(cc, cp, CreditStep(cc, 2000.0), db);
    var o2 := Depositar(cp, 5000.0, o1.db);
    StepKeepsPersisted(cp, o1.acct, CreditStep(cp, 5000.0), o1.db);
    assert o1.acct.saldo == 2000.0 && o2.acct.saldo == 5000.0;
    var o3 := Sacar(o1.acct, 500.0, o2.db);
    assert CC.Tarifa("saque") == 4.5 by { assert CC.Tarifas["saque"] == 4.5; }
    StepKeepsPersisted(o1.acct, o2.acct, SacarStep(o1.acct, 500.0), o2.db);
    assert o3.acct.saldo == 1495.5;
    var o4 := Sacar(o2.acct, 1000.0, o3.db);
    StepKeepsPersisted(o2.acct, o3.acct, SacarStep(o2.acct, 1000.0), o3.db);
    assert o4.acct.saldo == 4000.0;
    var d := Debitar(o3.acct, 300.0, o4.db);
    StepKeepsPersisted(o3.acct, o4.acct, DebitStep(o3.acct, 300.0), o4.db);
    StepKeepsPersisted(o4.acct, d.acct, CreditStep(o4.acct, 300.0), d.db);
    var o5 := Pix(o3.acct, o4.acct, 300.0, o4.db);
    assert o5.src.saldo == 1195.5 && o5.dst.saldo == 4300.0;
    var o6 := Sacar(o5.src, 2000.0, o5.db);
    StepKeepsPersisted(o5.src, o5.dst, SacarStep(o5.src, 2000.0), o5.db);
    assert o6.acct.saldo == -809.0;
    assert CP.Rendimento(o5.dst.saldo) == 21.5;
    PersistStored(o5.dst.(saldo := 4321.5), o6.db);
  }
}
