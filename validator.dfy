/**
 * The input validators: CPF check digits, phone and account-number formats, the closed lists
 * of account kinds and operations, digit sanitising, and the error list for client data.
 */
module Validators {
  import opened Text

  /** `sanitizeCpf` and `sanitizeTelefone`: `preg_replace('/[^0-9]/', '', s)`. */
  function Sanitize(s: string): (r: string)
    ensures AllDigits(r) && |r| <= |s|
  {
    Digits(s)
  }

  /** `/(\d)\1{10}/` on an 11-digit string: one digit repeated eleven times. */
  predicate Repetido(d: string)
  {
    |d| == 11 && forall i :: 0 <= i < 11 ==> d[i] == d[0]
  }

  /** Σ_{i<n} d[i]·(peso − i). */
  function Soma(d: string, n: nat, peso: int): int
    requires n <= |d| && AllDigits(d)
  {
    if n == 0 then 0 else Soma(d, n - 1, peso) + DigitValue(d[n - 1]) * (peso - (n - 1))
  }

  /** A check digit: (10·soma) mod 11, with 10 read as 0. */
  function Verificador(soma: int): (v: int)
    ensures 0 <= v <= 9
  {
    if (soma * 10) % 11 == 10 then 0 else (soma * 10) % 11
  }

  /** The mod-11 rule for CPF numbers, on the input's digits. */
  predicate CpfValido(cpf: string)
  {
    var d := Digits(cpf);
    && |d| == 11
    && !Repetido(d)
    && DigitValue(d[9]) == Verificador(Soma(d, 9, 10))
    && DigitValue(d[10]) == Verificador(Soma(d, 10, 11))
  }

  /** `cpf($cpf)`: the two weighted-sum loops. */
  method Cpf(cpf: string) returns (ok: bool)
    ensures ok == CpfValido(cpf)
  {
    var d := Digits(cpf);
    if |d| != 11 {
      return false;
    }
    if Repetido(d) {
      return false;
    }
    var soma := 0;
    var i := 0;
    while i < 9
      invariant 0 <= i <= 9
      invariant soma == Soma(d, i, 10)
    {
      soma := soma + DigitValue(d[i]) * (10 - i);
      i := i + 1;
    }
    var digito1 := (soma * 10) % 11;
    if digito1 == 10 {
      digito1 := 0;
    }
    soma := 0;
    i := 0;
    while i < 10
      invariant 0 <= i <= 10
      invariant soma == Soma(d, i, 11)
    {
      soma := soma + DigitValue(d[i]) * (11 - i);
      i := i + 1;
    }
    var digito2 := (soma * 10) % 11;
    if digito2 == 10 {
      digito2 := 0;
    }
    ok := DigitValue(d[9]) == digito1 && DigitValue(d[10]) == digito2;
  }

  /** `telefone`: 10 or 11 digits, `/^[1-9][0-9]/`. */
  predicate Telefone(s: string)
  {
    var d := Digits(s);
    (|d| == 10 || |d| == 11) && '1' <= d[0] <= '9' && IsDigit(d[1])
  }

  /** `\d{5}-\d`, the whole string. */
  predicate FormatoConta(s: string)
  {
    |s| == 7 && AllDigits(s[..5]) && s[5] == '-' && IsDigit(s[6])
  }

  /** `numeroConta`: `/^\d{5}-\d$/`, where `$` also matches before one final newline. */
  predicate NumeroConta(s: string)
  {
    FormatoConta(s) || (|s| == 8 && FormatoConta(s[..7]) && s[7] == '\n')
  }

  /** `tipoConta`. */
  predicate TipoConta(t: string) { t in ["corrente", "poupanca"] }

  /** `tipoOperacao`. */
  predicate TipoOperacao(t: string) { t in ["saque", "deposito", "transferencia", "pix", "ted", "doc"] }

  /** `$dados[$key]`, a missing key reading as null, which `empty()` treats like "". */
  function Campo(dados: map<string, string>, key: string): string
  {
    if key in dados then dados[key] else ""
  }

  /** One required field: at most one message, "obrigatório" when empty, else "inválido" when it fails. */
  function Exigido(v: string, ok: bool, faltou: string, invalido: string): (r: seq<string>)
    ensures |r| <= 1
    ensures r == [] <==> !EmptyStr(v) && ok
  {
    if EmptyStr(v) then [faltou] else if !ok then [invalido] else []
  }

  /**
   * `validarCliente`, with the name, e-mail and birth-date checks (a Unicode regex,
   * `filter_var` and the clock) given as predicates.
   */
  function ErrosCliente(dados: map<string, string>, nome: string -> bool, email: string -> bool, data: string -> bool): seq<string>
  {
    Exigido(Campo(dados, "nome"), nome(Campo(dados, "nome")), "Nome é obrigatório", "Nome inválido")
    + Exigido(Campo(dados, "cpf"), CpfValido(Campo(dados, "cpf")), "CPF é obrigatório", "CPF inválido")
    + Exigido(Campo(dados, "email"), email(Campo(dados, "email")), "Email é obrigatório", "Email inválido")
    + Exigido(Campo(dados, "telefone"), Telefone(Campo(dados, "telefone")), "Telefone é obrigatório", "Telefone inválido")
    + (if !EmptyStr(Campo(dados, "data_nascimento")) && !data(Campo(dados, "data_nascimento"))
       then ["Data de nascimento inválida"] else [])
  }

  /** The `if (empty(...)) ... elseif (!check(...))` step of one required field. */
  method Exigir(v: string, ok: bool, faltou: string, invalido: string) returns (r: seq<string>)
    ensures r == Exigido(v, ok, faltou, invalido)
  {
    r := [];
    if EmptyStr(v) {
      r := [faltou];
    } else if !ok {
      r := [invalido];
    }
  }

  /** `validarCliente`: appends the messages field by field, calling `cpf` for the CPF. */
  method ValidarCliente(dados: map<string, string>, nome: string -> bool, email: string -> bool, data: string -> bool)
    returns (erros: seq<string>)
    ensures erros == ErrosCliente(dados, nome, email, data)
  {
    var v := Campo(dados, "nome");
    var e1 := Exigir(v, nome(v), "Nome é obrigatório", "Nome inválido");
    v := Campo(dados, "cpf");
    var cpfOk := true;
    if !EmptyStr(v) {
      cpfOk := Cpf(v);
    }
    var e2 := Exigir(v, cpfOk, "CPF é obrigatório", "CPF inválido");
    assert e2 == Exigido(v, CpfValido(v), "CPF é obrigatório", "CPF inválido");
    v := Campo(dados, "email");
    var e3 := Exigir(v, email(v), "Email é obrigatório", "Email inválido");
    v := Campo(dados, "telefone");
    var e4 := Exigir(v, Telefone(v), "Telefone é obrigatório", "Telefone inválido");
    v := Campo(dados, "data_nascimento");
    var e5: seq<string> := [];
    if !EmptyStr(v) && !data(v) {
      e5 := ["Data de nascimento inválida"];
    }
    erros := e1 + e2 + e3 + e4 + e5;
  }
}
