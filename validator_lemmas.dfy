/** What the validators accept, and the shape of the error list. */
module ValidatorProperties {
  import opened Text
  import opened Ledger
  import opened Validators
  import Clientes
  import ClienteProperties
  import ContaProperties
  import opened Results
  import ContaSpec
  import CC = ContaCorrente
  import CP = ContaPoupanca

  /** `sanitizeCpf`/`sanitizeTelefone` keep exactly the digits, in order: all-digit input is returned as is, and the map is idempotent and distributes over concatenation. */
  lemma SanitizeSpec(s: string, a: string, b: string)
    ensures AllDigits(Sanitize(s))
    ensures Sanitize(Sanitize(s)) == Sanitize(s)
    ensures AllDigits(s) <==> Sanitize(s) == s
    ensures Sanitize(a + b) == Sanitize(a) + Sanitize(b)
  {
    DigitsIdempotent(s);
    if AllDigits(s) { DigitsOfDigits(s); }
    DigitsAppend(a, b);
  }

  /** A CPF is judged on its digits alone, so the formatted and the plain spelling agree. */
  lemma CpfIgnoraFormatacao(cpf: string)
    requires AllDigits(cpf)
    ensures CpfValido(Clientes.CpfFormatado(cpf)) == CpfValido(cpf)
  {
    ClienteProperties.CpfFormatadoDigitos(cpf);
    DigitsOfDigits(cpf);
  }

  /** 529.982.247-25 satisfies both check digits, formatted or not. */
  lemma CpfExemplo(d: string)
    requires d == "52998224725"
    ensures CpfValido(d) && CpfValido(Clientes.CpfFormatado(d))
    ensures Clientes.CpfFormatado(d) == "529.982.247-25"
  {
    CpfExemploDigitos(d);
    CpfIgnoraFormatacao(d);
  }

  lemma CpfExemploDigitos(d: string)
    requires d == "52998224725"
    ensures CpfValido(d)
  {
    ExemploSoDigitos(d);
    ExemploNaoRepetido(d);
    SomaExemplo(d);
    CpfValidoPorDigitos(d, 2, 5);
  }

  /** The rule on an all-digit string whose two last digits are the check digits. */
  lemma CpfValidoPorDigitos(d: string, v1: int, v2: int)
    requires Digits(d) == d && |d| == 11 && !Repetido(d)
    requires Verificador(Soma(d, 9, 10)) == v1 && Verificador(Soma(d, 10, 11)) == v2
    requires DigitValue(d[9]) == v1 && DigitValue(d[10]) == v2
    ensures CpfValido(d)
  {
  }

  lemma ExemploSoDigitos(d: string)
    requires d == "52998224725"
    ensures Digits(d) == d && |d| == 11 && DigitValue(d[9]) == 2 && DigitValue(d[10]) == 5
  {
    assert AllDigits(d);
    DigitsOfDigits(d);
  }

  lemma ExemploNaoRepetido(d: string)
    requires d == "52998224725"
    ensures !Repetido(d)
  {
    assert d[1] != d[0];
  }

  lemma SomaExemplo(d: string)
    requires d == "52998224725"
    ensures Verificador(Soma(d, 9, 10)) == 2 && Verificador(Soma(d, 10, 11)) == 5
  {
    assert AllDigits(d);
    assert Soma(d, 1, 10) == 50;
    assert Soma(d, 2, 10) == 68;
    assert Soma(d, 3, 10) == 140;
    assert Soma(d, 4, 10) == 203;
    assert Soma(d, 5, 10) == 251;
    assert Soma(d, 6, 10) == 261;
    assert Soma(d, 7, 10) == 269;
    assert Soma(d, 8, 10) == 281;
    assert Soma(d, 1, 11) == 55;
    assert Soma(d, 2, 11) == 75;
    assert Soma(d, 3, 11) == 156;
    assert Soma(d, 4, 11) == 228;
    assert Soma(d, 5, 11) == 284;
    assert Soma(d, 6, 11) == 296;
    assert Soma(d, 7, 11) == 306;
    assert Soma(d, 8, 11) == 322;
    assert Soma(d, 9, 11) == 343;
    assert Soma(d, 9, 10) == 295 && Soma(d, 10, 11) == 347;
  }

  /** Eleven equal digits satisfy both check digits, and only the repetition rule rejects them. */
  lemma RepetidoRejeitado(d: string)
    requires d == "11111111111"
    ensures !CpfValido(d)
    ensures DigitValue(d[9]) == Verificador(Soma(d, 9, 10)) && DigitValue(d[10]) == Verificador(Soma(d, 10, 11))
  {
    assert forall i :: 0 <= i < 11 ==> d[i] == '1';
    DigitsOfDigits(d);
    SomaUns(d, 9, 10);
    SomaUns(d, 10, 11);
    assert SomaPesos(9, 10) == 54;
    assert SomaPesos(10, 11) == 65;
    assert Repetido(d);
  }

  /** Σ_{i<n} (peso − i): the weighted sum when every digit is 1. */
  function SomaPesos(n: nat, peso: int): int
  {
    if n == 0 then 0 else SomaPesos(n - 1, peso) + (peso - (n - 1))
  }

  lemma {:induction false} SomaUns(d: string, n: nat, peso: int)
    requires |d| == 11 && (forall i :: 0 <= i < 11 ==> d[i] == '1') && n <= 11
    ensures AllDigits(d) && Soma(d, n, peso) == SomaPesos(n, peso)
  {
    if n > 0 {
      SomaUns(d, n - 1, peso);
      assert DigitValue(d[n - 1]) == 1;
    }
  }

  /** `telefone` holds iff the digits number 10 or 11 and the first is not 0. */
  lemma TelefoneSpec(s: string)
    ensures Telefone(s) <==> (|Sanitize(s)| == 10 || |Sanitize(s)| == 11) && Sanitize(s)[0] != '0'
  {
  }

  /** Every number `gerarNumeroConta` can produce is accepted by `numeroConta`. */
  lemma NumeroGeradoValido(d: ValidDraw)
    ensures NumeroConta(FormatDraw(d))
  {
    ContaProperties.FormatDrawDigits(d);
    NumeroContaSpec(FormatDraw(d));
  }

  /** `numeroConta` admits exactly the 7-character shape, and the same followed by one newline. */
  lemma NumeroContaSpec(s: string)
    ensures NumeroConta(s) <==>
      && (|s| == 7 || (|s| == 8 && s[7] == '\n'))
      && s[5] == '-' && (forall i :: 0 <= i < 7 && i != 5 ==> IsDigit(s[i]))
    ensures NumeroConta("12345-6") && NumeroConta("12345-6\n")
    ensures !NumeroConta("1234-56") && !NumeroConta("12345-6\n\n") && !NumeroConta("12345-67")
  {
    assert "12345-6\n"[..7] == "12345-6";
    if |s| >= 7 {
      assert forall i :: 0 <= i < 5 ==> s[..5][i] == s[i] && s[..7][..5][i] == s[i];
    }
  }

  /** The field a message of `validarCliente` is about, in checking order, told by its first letter. */
  function CampoDe(m: string): int
  {
    if m == [] then 4
    else if m[0] == 'N' then 0
    else if m[0] == 'C' then 1
    else if m[0] == 'E' then 2
    else if m[0] == 'T' then 3
    else 4
  }

  /** Each field contributes messages about that field only. */
  lemma ExigidoCampo(v: string, ok: bool, faltou: string, invalido: string, n: int)
    requires CampoDe(faltou) == n && CampoDe(invalido) == n
    ensures forall k :: 0 <= k < |Exigido(v, ok, faltou, invalido)| ==> CampoDe(Exigido(v, ok, faltou, invalido)[k]) == n
  {
  }

  /** Concatenating lists whose fields strictly increase, and each earlier field below each later one, keeps them increasing. */
  lemma CrescenteConcat(a: seq<string>, b: seq<string>)
    requires forall i, j :: 0 <= i < j < |a| ==> CampoDe(a[i]) < CampoDe(a[j])
    requires forall i, j :: 0 <= i < j < |b| ==> CampoDe(b[i]) < CampoDe(b[j])
    requires forall i, j :: 0 <= i < |a| && 0 <= j < |b| ==> CampoDe(a[i]) < CampoDe(b[j])
    ensures forall i, j :: 0 <= i < j < |a + b| ==> CampoDe((a + b)[i]) < CampoDe((a + b)[j])
  {
  }

  /**
   * `validarCliente` reports at most one message per field, fields in the order nome, cpf,
   * email, telefone, data_nascimento.
   */
  lemma ErrosClienteOrdem(dados: map<string, string>, nome: string -> bool, email: string -> bool, data: string -> bool)
    ensures var erros := ErrosCliente(dados, nome, email, data);
      forall i, j :: 0 <= i < j < |erros| ==> CampoDe(erros[i]) < CampoDe(erros[j])
  {
    var e1 := Exigido(Campo(dados, "nome"), nome(Campo(dados, "nome")), "Nome é obrigatório", "Nome inválido");
    var e2 := Exigido(Campo(dados, "cpf"), CpfValido(Campo(dados, "cpf")), "CPF é obrigatório", "CPF inválido");
    var e3 := Exigido(Campo(dados, "email"), email(Campo(dados, "email")), "Email é obrigatório", "Email inválido");
    var e4 := Exigido(Campo(dados, "telefone"), Telefone(Campo(dados, "telefone")), "Telefone é obrigatório", "Telefone inválido");
    var e5: seq<string> := if !EmptyStr(Campo(dados, "data_nascimento")) && !data(Campo(dados, "data_nascimento"))
       then ["Data de nascimento inválida"] else [];
    ExigidoCampo(Campo(dados, "nome"), nome(Campo(dados, "nome")), "Nome é obrigatório", "Nome inválido", 0);
    ExigidoCampo(Campo(dados, "cpf"), CpfValido(Campo(dados, "cpf")), "CPF é obrigatório", "CPF inválido", 1);
    ExigidoCampo(Campo(dados, "email"), email(Campo(dados, "email")), "Email é obrigatório", "Email inválido", 2);
    ExigidoCampo(Campo(dados, "telefone"), Telefone(Campo(dados, "telefone")), "Telefone é obrigatório", "Telefone inválido", 3);
    assert forall k :: 0 <= k < |e5| ==> CampoDe(e5[k]) == 4;
    OrdemCinco(e1, e2, e3, e4, e5);
  }

  /** Five lists of at most one message each, about fields 0 to 4 in turn, concatenate in field order. */
  lemma OrdemCinco(e1: seq<string>, e2: seq<string>, e3: seq<string>, e4: seq<string>, e5: seq<string>)
    requires |e1| <= 1 && |e2| <= 1 && |e3| <= 1 && |e4| <= 1 && |e5| <= 1
    requires forall k :: 0 <= k < |e1| ==> CampoDe(e1[k]) == 0
    requires forall k :: 0 <= k < |e2| ==> CampoDe(e2[k]) == 1
    requires forall k :: 0 <= k < |e3| ==> CampoDe(e3[k]) == 2
    requires forall k :: 0 <= k < |e4| ==> CampoDe(e4[k]) == 3
    requires forall k :: 0 <= k < |e5| ==> CampoDe(e5[k]) == 4
    ensures var erros := e1 + e2 + e3 + e4 + e5;
      forall i, j :: 0 <= i < j < |erros| ==> CampoDe(erros[i]) < CampoDe(erros[j])
  {
    CrescenteConcat(e1, e2);
    CrescenteConcat(e1 + e2, e3);
    CrescenteConcat(e1 + e2 + e3, e4);
    CrescenteConcat(e1 + e2 + e3 + e4, e5);
  }

  /**
   * The list is empty iff every required field is present and valid and the birth date is
   * absent or valid.
   */
  lemma ErrosClienteVazio(dados: map<string, string>, nome: string -> bool, email: string -> bool, data: string -> bool)
    ensures ErrosCliente(dados, nome, email, data) == [] <==>
           && !EmptyStr(Campo(dados, "nome")) && nome(Campo(dados, "nome"))
           && !EmptyStr(Campo(dados, "cpf")) && CpfValido(Campo(dados, "cpf"))
           && !EmptyStr(Campo(dados, "email")) && email(Campo(dados, "email"))
           && !EmptyStr(Campo(dados, "telefone")) && Telefone(Campo(dados, "telefone"))
           && (EmptyStr(Campo(dados, "data_nascimento")) || data(Campo(dados, "data_nascimento")))
  {
  }

  /**
   * `tipoConta` accepts exactly the two types the account loaders can instantiate, and
   * `tipoOperacao` exactly the operations both fee tables price.
   */
  lemma TiposSpec(t: string)
    ensures TipoConta(t) <==> ContaSpec.KindFor(t, None).Some?
    ensures TipoOperacao(t) <==> t in CC.Tarifas && t in CP.Tarifas
  {
  }
}
