/** `ValidationException`: an error list carried with a composed message and an HTTP code. */
module ValidationErrors {
  import opened Text

  const Prefixo: string := "Erro de validação: "

  /** The default code. */
  const CodigoPadrao: int := 400

  datatype ValidationException = ValidationException(errors: seq<string>, message: string, code: int)

  /** `'Erro de validação: ' . implode(', ', $errors)`. */
  function Mensagem(errors: seq<string>): (m: string)
    ensures IsPrefix(Prefixo, m)
    ensures |errors| == 1 ==> m == Prefixo + errors[0]
  {
    Prefixo + Join(errors, ", ")
  }

  /** `new ValidationException($errors, $code)`. */
  function Nova(errors: seq<string>, code: int): (e: ValidationException)
    ensures e.errors == errors && e.code == code
    ensures e.message == Mensagem(errors)
  {
    ValidationException(errors, Mensagem(errors), code)
  }

  /** `getErrors`. */
  function GetErrors(e: ValidationException): seq<string> { e.errors }
}
