/**
 * Cliente: the client record over the `clientes` table. Saving checks the required fields in
 * order and then that no other client already has the CPF or the e-mail; lookups by CPF and
 * e-mail return the lowest-rowid match.
 *
 * The lookups here keep the row's id. The code as written loses it (the attribute filter
 * drops `id`, see README, Findings); the `ComoEscrito` members below model that version.
 */
module Clientes {
  import opened Results
  import opened Store
  import opened Text
  import opened Sorting
  import opened Ledger

  /** `getCpfFormatado`: an 11-character CPF as `ddd.ddd.ddd-dd`; any other length unchanged. */
  function CpfFormatado(cpf: string): (r: string)
    ensures |cpf| == 11 ==> |r| == 14 && r[3] == '.' && r[7] == '.' && r[11] == '-'
    ensures |cpf| != 11 ==> r == cpf
  {
    if |cpf| == 11 then cpf[0..3] + "." + cpf[3..6] + "." + cpf[6..9] + "-" + cpf[9..11]
    else cpf
  }

  /** The digits of a formatted CPF, read back from their positions. */
  function CpfDesformatado(f: string): string
  {
    if |f| == 14 then f[0..3] + f[4..7] + f[8..11] + f[12..14] else f
  }

  /** `isAtivo`: `(bool) $ativo`. */
  predicate Ativo(r: ClienteRow) { r.ativo != 0 }

  /** A client object: its id attribute (0 when it has none), its `exists` flag and its attributes. */
  datatype Cli = Cli(id: int, stored: bool, row: ClienteRow)

  datatype ErroCliente =
    | NomeObrigatorio     // 'Nome é obrigatório'
    | CpfObrigatorio      // 'CPF é obrigatório'
    | EmailObrigatorio    // 'Email é obrigatório'
    | CpfJaCadastrado     // 'CPF já cadastrado'
    | EmailJaCadastrado   // 'Email já cadastrado'

  /** What a save produces: the object, the new table, the result. */
  datatype Salvo = Salvo(cli: Cli, clientes: Table<ClienteRow>, result: Result<bool, ErroCliente>)

  /**
   * `buscarPorCpf` and `buscarPorEmail`: `where(campo, '=', v)->first()`, the lowest-rowid
   * client whose column `campo` holds `v`, loaded with `exists` set.
   */
  function PorCampo(clientes: Table<ClienteRow>, campo: ClienteRow -> string, v: string): (r: Option<Cli>)
    ensures r.Some? ==> r.value.stored && campo(r.value.row) == v && (r.value.id, r.value.row) in clientes.rows
    ensures r.None? <==> forall i :: 0 <= i < |clientes.rows| ==> campo(clientes.rows[i].1) != v
  {
    match First(clientes.rows, (r: ClienteRow) => campo(r) == v)
    case None => None
    case Some(f) => Some(Cli(f.0, true, f.1))
  }

  function PorCpf(clientes: Table<ClienteRow>, cpf: string): Option<Cli>
  {
    PorCampo(clientes, (r: ClienteRow) => r.cpf, cpf)
  }

  function PorEmail(clientes: Table<ClienteRow>, email: string): Option<Cli>
  {
    PorCampo(clientes, (r: ClienteRow) => r.email, email)
  }

  /** `$clienteExistente && $clienteExistente->id !== $this->id`. */
  predicate Conflito(existente: Option<Cli>, id: int)
  {
    existente.Some? && existente.value.id != id
  }

  /** The checks `Cliente::save` runs before writing, in order. */
  function SaveGuard(c: Cli, clientes: Table<ClienteRow>): Option<ErroCliente>
  {
    if EmptyStr(c.row.nome) then Some(NomeObrigatorio)
    else if EmptyStr(c.row.cpf) then Some(CpfObrigatorio)
    else if EmptyStr(c.row.email) then Some(EmailObrigatorio)
    else if Conflito(PorCpf(clientes, c.row.cpf), c.id) then Some(CpfJaCadastrado)
    else if Conflito(PorEmail(clientes, c.row.email), c.id) then Some(EmailJaCadastrado)
    else None
  }

  /** `Model::save` on a client: rewrite its row when it exists, insert it otherwise. */
  function Gravar(c: Cli, clientes: Table<ClienteRow>): Salvo
  {
    if c.stored then
      var (t, n) := Replace(clientes, c.id, c.row);
      Salvo(c, t, Ok(n > 0))
    else
      var (t, nid) := Insert(clientes, c.row);
      Salvo(c.(id := nid, stored := true), t, Ok(true))
  }

  /** `Cliente::save`. */
  function Salvar(c: Cli, clientes: Table<ClienteRow>): Salvo
  {
    match SaveGuard(c, clientes)
    case Some(e) => Salvo(c, clientes, Err(e))
    case None => Gravar(c, clientes)
  }

  function Ativado(c: Cli, clientes: Table<ClienteRow>): Salvo { Salvar(c.(row := c.row.(ativo := 1)), clientes) }

  function Desativado(c: Cli, clientes: Table<ClienteRow>): Salvo { Salvar(c.(row := c.row.(ativo := 0)), clientes) }

  /** No two clients share a CPF or an e-mail. */
  predicate Unico(t: Table<ClienteRow>)
  {
    forall i, j :: 0 <= i < j < |t.rows| ==> t.rows[i].1.cpf != t.rows[j].1.cpf && t.rows[i].1.email != t.rows[j].1.email
  }

  /** `ORDER BY nome ASC`: SQLite's binary collation, which is code-point order. */
  function NomeLe(x: (int, ClienteRow), y: (int, ClienteRow)): bool { LexLe(x.1.nome, y.1.nome) }

  /** The rows `ativos` reads: `WHERE ativo = 1 ORDER BY nome ASC`. */
  function AtivosRows(clientes: Table<ClienteRow>): seq<(int, ClienteRow)>
  {
    SortBy(Select(clientes.rows, (r: ClienteRow) => r.ativo == 1), NomeLe)
  }

  // ---------------------------------------------------------------- the code as written

  /** `new static($data)` as written: `id` is not fillable, so the loaded object has no id. */
  function CarregarComoEscrito(row: ClienteRow): Cli { Cli(0, true, row) }

  function PorCpfComoEscrito(clientes: Table<ClienteRow>, cpf: string): Option<Cli>
  {
    match First(clientes.rows, (r: ClienteRow) => r.cpf == cpf)
    case None => None
    case Some(f) => Some(CarregarComoEscrito(f.1))
  }

  function PorEmailComoEscrito(clientes: Table<ClienteRow>, email: string): Option<Cli>
  {
    match First(clientes.rows, (r: ClienteRow) => r.email == email)
    case None => None
    case Some(f) => Some(CarregarComoEscrito(f.1))
  }

  function SaveGuardComoEscrito(c: Cli, clientes: Table<ClienteRow>): Option<ErroCliente>
  {
    if EmptyStr(c.row.nome) then Some(NomeObrigatorio)
    else if EmptyStr(c.row.cpf) then Some(CpfObrigatorio)
    else if EmptyStr(c.row.email) then Some(EmailObrigatorio)
    else if Conflito(PorCpfComoEscrito(clientes, c.row.cpf), c.id) then Some(CpfJaCadastrado)
    else if Conflito(PorEmailComoEscrito(clientes, c.row.email), c.id) then Some(EmailJaCadastrado)
    else None
  }

  function SalvarComoEscrito(c: Cli, clientes: Table<ClienteRow>): Salvo
  {
    match SaveGuardComoEscrito(c, clientes)
    case Some(e) => Salvo(c, clientes, Err(e))
    case None => Gravar(c, clientes)
  }

  // ---------------------------------------------------------------- the object

  class Cliente {
    const bank: Bank
    var id: int
    var stored: bool
    var nome: string
    var cpf: string
    var email: string
    var telefone: string
    var endereco: string
    var dataNascimento: string
    var ativo: int

    function Snap(): Cli reads this
    {
      Cli(id, stored, ClienteRow(nome, cpf, email, telefone, endereco, dataNascimento, ativo))
    }

    constructor (bank: Bank, c: Cli)
      ensures this.bank == bank && Snap() == c
    {
      this.bank := bank;
      id, stored := c.id, c.stored;
      nome, cpf, email, telefone := c.row.nome, c.row.cpf, c.row.email, c.row.telefone;
      endereco, dataNascimento, ativo := c.row.endereco, c.row.dataNascimento, c.row.ativo;
    }

    predicate IsAtivo() reads this { Ativo(Snap().row) }

    static method BuscarPorCpf(bank: Bank, cpf: string) returns (r: Cliente?)
      ensures var spec := PorCpf(bank.clientes, cpf);
        && (r == null <==> spec.None?)
        && (r != null ==> fresh(r) && r.bank == bank && r.Snap() == spec.value)
    {
      var f := PorCpf(bank.clientes, cpf);
      if f.None? { return null; }
      r := new Cliente(bank, f.value);
    }

    static method BuscarPorEmail(bank: Bank, email: string) returns (r: Cliente?)
      ensures var spec := PorEmail(bank.clientes, email);
        && (r == null <==> spec.None?)
        && (r != null ==> fresh(r) && r.bank == bank && r.Snap() == spec.value)
    {
      var f := PorEmail(bank.clientes, email);
      if f.None? { return null; }
      r := new Cliente(bank, f.value);
    }

    /** `ativos`: one fresh object per active row, in name order. */
    static method Ativos(bank: Bank) returns (cs: seq<Cliente>)
      ensures var rows := AtivosRows(bank.clientes);
        && |cs| == |rows|
        && forall i :: 0 <= i < |cs| ==>
             fresh(cs[i]) && cs[i].bank == bank && cs[i].Snap() == Cli(rows[i].0, true, rows[i].1)
    {
      var rows := AtivosRows(bank.clientes);
      cs := [];
      var i := 0;
      while i < |rows|
        invariant 0 <= i <= |rows| && |cs| == i
        invariant forall j :: 0 <= j < i ==>
          fresh(cs[j]) && cs[j].bank == bank && cs[j].Snap() == Cli(rows[j].0, true, rows[j].1)
      {
        var c := new Cliente(bank, Cli(rows[i].0, true, rows[i].1));
        cs := cs + [c];
        i := i + 1;
      }
    }

    /** `Cliente::save` then `Model::save`. */
    method Save() returns (r: Result<bool, ErroCliente>)
      modifies this, bank
      ensures bank.contas == old(bank.contas) && bank.draws == old(bank.draws)
      ensures Salvo(Snap(), bank.clientes, r) == Salvar(old(Snap()), old(bank.clientes))
    {
      if EmptyStr(nome) { return Err(NomeObrigatorio); }
      if EmptyStr(cpf) { return Err(CpfObrigatorio); }
      if EmptyStr(email) { return Err(EmailObrigatorio); }
      var existente := BuscarPorCpf(bank, cpf);
      if existente != null && existente.id != id { return Err(CpfJaCadastrado); }
      existente := BuscarPorEmail(bank, email);
      if existente != null && existente.id != id { return Err(EmailJaCadastrado); }
      if stored {
        var (t, n) := Replace(bank.clientes, id, Snap().row);
        bank.clientes := t;
        r := Ok(n > 0);
      } else {
        var (t, nid) := Insert(bank.clientes, Snap().row);
        bank.clientes := t;
        id, stored := nid, true;
        r := Ok(true);
      }
    }

    method Ativar() returns (r: Result<bool, ErroCliente>)
      modifies this, bank
      ensures bank.contas == old(bank.contas) && bank.draws == old(bank.draws)
      ensures Salvo(Snap(), bank.clientes, r) == Ativado(old(Snap()), old(bank.clientes))
    {
      ativo := 1;
      r := Save();
    }

    method Desativar() returns (r: Result<bool, ErroCliente>)
      modifies this, bank
      ensures bank.contas == old(bank.contas) && bank.draws == old(bank.draws)
      ensures Salvo(Snap(), bank.clientes, r) == Desativado(old(Snap()), old(bank.clientes))
    {
      ativo := 0;
      r := Save();
    }
  }
}
