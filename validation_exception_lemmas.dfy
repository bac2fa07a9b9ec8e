/** The message of a validation exception, error by error. */
module ValidationErrorProperties {
  import opened Text
  import opened ValidationErrors

  /**
   * The message is the prefix alone for no errors, the prefix and the error for one, and each
   * further error is appended after ", "; `getErrors` gives back the list and the code
   * defaults to 400.
   */
  lemma MensagemSpec(errors: seq<string>, x: string)
    ensures Mensagem([]) == Prefixo
    ensures Mensagem([x]) == Prefixo + x
    ensures errors != [] ==> Mensagem(errors + [x]) == Mensagem(errors) + ", " + x
    ensures GetErrors(Nova(errors, CodigoPadrao)) == errors && Nova(errors, CodigoPadrao).code == 400
  {
    if errors != [] { JoinSnoc(errors, x, ", "); }
  }

  /** The two-error example. */
  lemma MensagemExemplo()
    ensures Nova(["CPF inválido", "Email inválido"], CodigoPadrao).message == "Erro de validação: CPF inválido, Email inválido"
  {
    var errs := ["CPF inválido", "Email inválido"];
    JoinPair(errs, ", ");
    MensagemJunta(errs[0], errs[1], Mensagem(errs));
  }

  lemma MensagemJunta(a: string, b: string, m: string)
    requires a == "CPF inválido" && b == "Email inválido" && m == Prefixo + (a + ", " + b)
    ensures m == "Erro de validação: CPF inválido, Email inválido"
  {
  }
}
