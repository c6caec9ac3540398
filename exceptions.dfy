/** The exceptions the services throw, as values. */
module Exceptions {

  /** One entry of a binding result: the rejected field and the constraint's message. */
  datatype FieldError = FieldError(field: string, defaultMessage: string)

  datatype Excecao =
    | EntidadeNaoEncontrada(mensagem: string)   // EntidadeNaoEncontradaException
    | OperacaoInvalida(mensagem: string)        // OperacaoInvalidaException
    | Validacao(mensagem: string)               // ValidacaoException
    | MethodArgumentNotValid(erros: seq<FieldError>)  // MethodArgumentNotValidException
    | Outra(mensagem: string)                   // any other exception

  /** The outcome of a service call: its value, or the exception it throws. */
  datatype Result<+T> = Ok(value: T) | Err(error: Excecao)
}
