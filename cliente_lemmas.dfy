/** Properties of the client record: formatting, save rules, uniqueness and the active listing. */
module ClienteProperties {
  import opened Results
  import opened Store
  import opened Text
  import opened Sorting
  import opened Ledger
  import opened Clientes

  // ---------------------------------------------------------------- CPF formatting

  /** Formatting an 11-character CPF only inserts punctuation: reading the digit positions back gives it again. */
  lemma CpfFormatadoRoundTrip(cpf: string)
    requires |cpf| == 11
    ensures CpfDesformatado(CpfFormatado(cpf)) == cpf
  {
    var f := CpfFormatado(cpf);
    assert f[0..3] == cpf[0..3] && f[4..7] == cpf[3..6] && f[8..11] == cpf[6..9] && f[12..14] == cpf[9..11];
    assert cpf == cpf[0..3] + cpf[3..6] + cpf[6..9] + cpf[9..11];
  }

  lemma DigitsOfPunct(s: string)
    requires s == "." || s == "-"
    ensures Digits(s) == ""
  {
  }

  /** The punctuation is all that formatting adds: stripping non-digits from a formatted all-digit CPF gives it back (the inverse of `sanitizeCpf`). */
  lemma CpfFormatadoDigitos(cpf: string)
    requires AllDigits(cpf)
    ensures Digits(CpfFormatado(cpf)) == cpf
  {
    if |cpf| == 11 {
      var a, b, c, d := cpf[0..3], cpf[3..6], cpf[6..9], cpf[9..11];
      assert cpf == a + b + c + d;
      assert CpfFormatado(cpf) == a + "." + b + "." + c + "-" + d;
      DigitsOfPunct("."); DigitsOfPunct("-");
      DigitsAppend(a + "." + b + "." + c + "-", d);
      DigitsAppend(a + "." + b + "." + c, "-");
      DigitsAppend(a + "." + b + ".", c);
      DigitsAppend(a + "." + b, ".");
      DigitsAppend(a + ".", b);
      DigitsAppend(a, ".");
      DigitsOfDigits(a); DigitsOfDigits(b); DigitsOfDigits(c); DigitsOfDigits(d);
    } else {
      DigitsOfDigits(cpf);
    }
  }

  // ---------------------------------------------------------------- save

  /** The required fields are checked in order: nome, then CPF, then e-mail, each with PHP's `empty()`. */
  lemma SaveGuardOrdem(c: Cli, clientes: Table<ClienteRow>)
    ensures EmptyStr(c.row.nome) ==> SaveGuard(c, clientes) == Some(NomeObrigatorio)
    ensures !EmptyStr(c.row.nome) && EmptyStr(c.row.cpf) ==> SaveGuard(c, clientes) == Some(CpfObrigatorio)
    ensures !EmptyStr(c.row.nome) && !EmptyStr(c.row.cpf) && EmptyStr(c.row.email) ==> SaveGuard(c, clientes) == Some(EmailObrigatorio)
    ensures SaveGuard(c, clientes) == Some(CpfJaCadastrado) ==> exists i :: 0 <= i < |clientes.rows| && clientes.rows[i].1.cpf == c.row.cpf && clientes.rows[i].0 != c.id
    ensures SaveGuard(c, clientes) == Some(EmailJaCadastrado) ==> exists i :: 0 <= i < |clientes.rows| && clientes.rows[i].1.email == c.row.email && clientes.rows[i].0 != c.id
  {
    var f := PorCpf(clientes, c.row.cpf);
    if f.Some? { var k :| 0 <= k < |clientes.rows| && clientes.rows[k] == (f.value.id, f.value.row); }
    var g := PorEmail(clientes, c.row.email);
    if g.Some? { var k :| 0 <= k < |clientes.rows| && clientes.rows[k] == (g.value.id, g.value.row); }
  }

  /** Under `Unico`, a CPF or an e-mail picks out at most one row. */
  lemma UnicoIndice(t: Table<ClienteRow>, i: int, j: int)
    requires Unico(t) && 0 <= i < |t.rows| && 0 <= j < |t.rows|
    requires t.rows[i].1.cpf == t.rows[j].1.cpf || t.rows[i].1.email == t.rows[j].1.email
    ensures i == j
  {
  }

  /** With unique CPFs and e-mails, the duplicate checks fire exactly when another client (another id) has the CPF or the e-mail. */
  lemma ConflitoSpec(clientes: Table<ClienteRow>, c: Cli)
    requires Valid(clientes) && Unico(clientes)
    ensures Conflito(PorCpf(clientes, c.row.cpf), c.id) <==>
      exists i :: 0 <= i < |clientes.rows| && clientes.rows[i].1.cpf == c.row.cpf && clientes.rows[i].0 != c.id
    ensures Conflito(PorEmail(clientes, c.row.email), c.id) <==>
      exists i :: 0 <= i < |clientes.rows| && clientes.rows[i].1.email == c.row.email && clientes.rows[i].0 != c.id
  {
    var rows := clientes.rows;
    var f := PorCpf(clientes, c.row.cpf);
    if f.Some? {
      var k :| 0 <= k < |rows| && rows[k] == (f.value.id, f.value.row);
      forall i | 0 <= i < |rows| && rows[i].1.cpf == c.row.cpf ensures i == k {
        UnicoIndice(clientes, i, k);
      }
    }
    var g := PorEmail(clientes, c.row.email);
    if g.Some? {
      var k :| 0 <= k < |rows| && rows[k] == (g.value.id, g.value.row);
      forall i | 0 <= i < |rows| && rows[i].1.email == c.row.email ensures i == k {
        UnicoIndice(clientes, i, k);
      }
    }
  }

  /** `Model::save` on a client: an existing client's row is rewritten (true iff it is there); a new one is inserted under the next id. */
  lemma GravarSpec(c: Cli, t: Table<ClienteRow>)
    requires Valid(t)
    ensures var s := Gravar(c, t);
      && Valid(s.clientes) && s.cli.row == c.row && s.cli.stored
      && (c.stored ==> s.cli == c && s.result == Ok(Has(t, c.id)) && (Has(t, c.id) ==> Get(s.clientes, c.id) == Some(c.row)))
      && (!c.stored ==> s.result == Ok(true) && s.cli.id == t.nextId && !Has(t, s.cli.id) && Get(s.clientes, s.cli.id) == Some(c.row))
      && (forall id :: id != s.cli.id ==> Get(s.clientes, id) == Get(t, id))
  {
    if c.stored { UpdateSpec(t, c.id, (_: ClienteRow) => c.row); } else { InsertSpec(t, c.row); }
  }

  lemma UnicoAposInsert(t: Table<ClienteRow>, row: ClienteRow)
    requires Unico(t)
    requires forall k :: 0 <= k < |t.rows| ==> t.rows[k].1.cpf != row.cpf && t.rows[k].1.email != row.email
    ensures Unico(Insert(t, row).0)
  {
  }

  lemma UnicoAposReplace(t: Table<ClienteRow>, id: int, row: ClienteRow)
    requires Valid(t) && Unico(t)
    requires forall k :: 0 <= k < |t.rows| && t.rows[k].0 != id ==> t.rows[k].1.cpf != row.cpf && t.rows[k].1.email != row.email
    ensures Unico(Replace(t, id, row).0)
  {
    var n := Replace(t, id, row).0.rows;
    forall i, j | 0 <= i < j < |n| ensures n[i].1.cpf != n[j].1.cpf && n[i].1.email != n[j].1.email {
      assert t.rows[i].0 < t.rows[j].0;
    }
  }

  /** A save that passed the duplicate checks writes a row no other client's CPF or e-mail collides with. */
  lemma GuardNaoColide(c: Cli, clientes: Table<ClienteRow>)
    requires Valid(clientes) && Unico(clientes) && SaveGuard(c, clientes).None?
    ensures forall k :: 0 <= k < |clientes.rows| && clientes.rows[k].0 != c.id ==>
      clientes.rows[k].1.cpf != c.row.cpf && clientes.rows[k].1.email != c.row.email
  {
    ConflitoSpec(clientes, c);
  }

  /**
   * Saving keeps CPFs and e-mails unique (for an object that is either stored or whose id is
   * not in the table, which every object the code builds is).
   */
  lemma SalvarPreservaUnico(c: Cli, clientes: Table<ClienteRow>)
    requires Valid(clientes) && Unico(clientes)
    requires !c.stored ==> !Has(clientes, c.id)
    ensures Valid(Salvar(c, clientes).clientes) && Unico(Salvar(c, clientes).clientes)
    ensures Salvar(c, clientes).result.Err? ==> Salvar(c, clientes).clientes == clientes
  {
    if SaveGuard(c, clientes).None? {
      GuardNaoColide(c, clientes);
      GravarSpec(c, clientes);
      if c.stored {
        UnicoAposReplace(clientes, c.id, c.row);
      } else {
        FindRowIn(clientes.rows, c.id);
        UnicoAposInsert(clientes, c.row);
      }
    }
  }

  /** Re-saving a stored client that keeps its own CPF and e-mail succeeds and rewrites its row. */
  lemma ResalvarAceito(c: Cli, clientes: Table<ClienteRow>)
    requires Valid(clientes) && Unico(clientes) && c.stored
    requires !EmptyStr(c.row.nome) && !EmptyStr(c.row.cpf) && !EmptyStr(c.row.email)
    requires Get(clientes, c.id).Some? && Get(clientes, c.id).value.cpf == c.row.cpf && Get(clientes, c.id).value.email == c.row.email
    ensures Salvar(c, clientes).result == Ok(true)
    ensures Get(Salvar(c, clientes).clientes, c.id) == Some(c.row)
  {
    FindRowIn(clientes.rows, c.id);
    var m :| 0 <= m < |clientes.rows| && clientes.rows[m] == (c.id, Get(clientes, c.id).value);
    ConflitoSpec(clientes, c);
    forall i | 0 <= i < |clientes.rows| && clientes.rows[i].1.cpf == c.row.cpf ensures clientes.rows[i].0 == c.id {
      UnicoIndice(clientes, i, m);
    }
    forall i | 0 <= i < |clientes.rows| && clientes.rows[i].1.email == c.row.email ensures clientes.rows[i].0 == c.id {
      UnicoIndice(clientes, i, m);
    }
    GravarSpec(c, clientes);
  }

  /** `ativar`/`desativar` set `ativo` to 1/0 and save; `isAtivo` then reflects it, in the object and in its row. */
  lemma AtivacaoSpec(c: Cli, clientes: Table<ClienteRow>)
    requires Valid(clientes)
    ensures Ativado(c, clientes).cli.row == c.row.(ativo := 1) && Ativo(Ativado(c, clientes).cli.row)
    ensures Desativado(c, clientes).cli.row == c.row.(ativo := 0) && !Ativo(Desativado(c, clientes).cli.row)
    ensures Ativado(c, clientes).result == Ok(true) ==>
      Get(Ativado(c, clientes).clientes, Ativado(c, clientes).cli.id) == Some(c.row.(ativo := 1))
    ensures Desativado(c, clientes).result == Ok(true) ==>
      Get(Desativado(c, clientes).clientes, Desativado(c, clientes).cli.id) == Some(c.row.(ativo := 0))
  {
    GravarSpec(c.(row := c.row.(ativo := 1)), clientes);
    GravarSpec(c.(row := c.row.(ativo := 0)), clientes);
  }

  // ---------------------------------------------------------------- the listing

  lemma NomeLePreorder()
    ensures TotalPreorder(NomeLe)
  {
    forall x, y ensures NomeLe(x, y) || NomeLe(y, x) { LexLeTotal(x.1.nome, y.1.nome); }
    forall x, y, z | NomeLe(x, y) && NomeLe(y, z) ensures NomeLe(x, z) { LexLeTrans(x.1.nome, y.1.nome, z.1.nome); }
  }

  /** `ativos` lists exactly the rows with `ativo = 1`, each once, in name order. */
  lemma AtivosSpec(clientes: Table<ClienteRow>)
    ensures var rows := AtivosRows(clientes);
      var p := (r: ClienteRow) => r.ativo == 1;
      && SortedBy(rows, NomeLe)
      && multiset(rows) == multiset(Select(clientes.rows, p))
      && (forall i :: 0 <= i < |rows| ==> rows[i].1.ativo == 1 && rows[i] in clientes.rows)
      && (forall j :: 0 <= j < |clientes.rows| && clientes.rows[j].1.ativo == 1 ==> clientes.rows[j] in rows)
  {
    var p := (r: ClienteRow) => r.ativo == 1;
    var sel := Select(clientes.rows, p);
    NomeLePreorder();
    SortBySpec(sel, NomeLe);
    var rows := AtivosRows(clientes);
    forall i | 0 <= i < |rows| ensures rows[i].1.ativo == 1 && rows[i] in clientes.rows {
      assert rows[i] in multiset(rows);
      assert rows[i] in multiset(sel);
    }
    forall j | 0 <= j < |clientes.rows| && clientes.rows[j].1.ativo == 1 ensures clientes.rows[j] in rows {
      SelectComplete(clientes.rows, p, j);
      assert clientes.rows[j] in multiset(sel);
      assert clientes.rows[j] in multiset(rows);
    }
  }

  // ---------------------------------------------------------------- the code as written

  /**
   * As written, re-saving a client that was inserted through the same object (so it has an id)
   * always fails with 'CPF já cadastrado': the lookup finds its own row but loads it without an
   * id, and `null !== $this->id`. The corrected check accepts the same save.
   */
  lemma ResalvarRejeitadoComoEscrito(c: Cli, clientes: Table<ClienteRow>)
    requires Valid(clientes) && Unico(clientes) && c.stored && c.id != 0
    requires !EmptyStr(c.row.nome) && !EmptyStr(c.row.cpf) && !EmptyStr(c.row.email)
    requires Get(clientes, c.id) == Some(c.row)
    ensures SalvarComoEscrito(c, clientes) == Salvo(c, clientes, Err(CpfJaCadastrado))
    ensures Salvar(c, clientes).result == Ok(true)
  {
    FindRowIn(clientes.rows, c.id);
    ResalvarAceito(c, clientes);
  }

  /**
   * As written, a brand-new client (no id) whose CPF is already on file passes the check,
   * since `null !== null` is false, and the schema-free store then holds two clients with
   * one CPF; a UNIQUE index in the database, not modelled here, could still refuse the
   * insert. The corrected check refuses it.
   */
  lemma DuplicadoAceitoComoEscrito(row: ClienteRow, clientes: Table<ClienteRow>, k: nat)
    requires Valid(clientes)
    requires !EmptyStr(row.nome) && !EmptyStr(row.cpf) && !EmptyStr(row.email)
    requires k < |clientes.rows| && clientes.rows[k].1.cpf == row.cpf
    requires forall i :: 0 <= i < |clientes.rows| ==> clientes.rows[i].1.email != row.email
    ensures SalvarComoEscrito(Cli(0, false, row), clientes).result == Ok(true)
    ensures !Unico(SalvarComoEscrito(Cli(0, false, row), clientes).clientes)
    ensures Salvar(Cli(0, false, row), clientes).result == Err(CpfJaCadastrado)
  {
    var t := SalvarComoEscrito(Cli(0, false, row), clientes).clientes;
    assert t.rows == clientes.rows + [(clientes.nextId, row)];
    assert t.rows[k].1.cpf == t.rows[|clientes.rows|].1.cpf;
  }
}
