/**
 * RestExceptionHandler: how a thrown exception becomes an HTTP status and an
 * ErroResponse body.
 */
module ExceptionHandler {
  import opened Exceptions

  datatype ErroResponse = ErroResponse(codigo: int, mensagem: string)

  /** `new ResponseEntity<>(body, status)` */
  datatype ResponseEntity = ResponseEntity(body: ErroResponse, status: int)

  const NOT_FOUND: int := 404
  const BAD_REQUEST: int := 400
  const INTERNAL_SERVER_ERROR: int := 500
  const MENSAGEM_ERRO_INTERNO: string := "Ocorreu um erro interno no servidor"

  function TrataEntidadeNaoEncontrada(ex: Excecao): (r: ResponseEntity)
    requires ex.EntidadeNaoEncontrada?
    ensures r.status == NOT_FOUND && r.body == ErroResponse(r.status, ex.mensagem)
  {
    ResponseEntity(ErroResponse(NOT_FOUND, ex.mensagem), NOT_FOUND)
  }

  /** The one handler shared by OperacaoInvalidaException and ValidacaoException. */
  function TrataOperacaoInvalida(ex: Excecao): (r: ResponseEntity)
    requires ex.OperacaoInvalida? || ex.Validacao?
    ensures r.status == BAD_REQUEST && r.body == ErroResponse(r.status, ex.mensagem)
  {
    ResponseEntity(ErroResponse(BAD_REQUEST, ex.mensagem), BAD_REQUEST)
  }

  /** What the handler appends for one field error. */
  function EntradaDeCampo(e: FieldError): string
  {
    e.field + " - " + e.defaultMessage + "; "
  }

  /** The message for a list of field errors: their entries, in order. */
  function MensagemDeCampos(erros: seq<FieldError>): (m: string)
    ensures erros == [] <==> m == ""
  {
    if erros == [] then "" else EntradaDeCampo(erros[0]) + MensagemDeCampos(erros[1..])
  }

  lemma {:induction false} MensagemDeCamposAppend(erros: seq<FieldError>, e: FieldError)
    ensures MensagemDeCampos(erros + [e]) == MensagemDeCampos(erros) + EntradaDeCampo(e)
  {
    if erros == [] {
      assert [] + [e] == [e];
    } else {
      assert (erros + [e])[1..] == erros[1..] + [e];
      MensagemDeCamposAppend(erros[1..], e);
    }
  }

  /** The message of a concatenation is the concatenation of the messages. */
  lemma {:induction false} MensagemDeCamposConcat(a: seq<FieldError>, b: seq<FieldError>)
    ensures MensagemDeCampos(a + b) == MensagemDeCampos(a) + MensagemDeCampos(b)
  {
    if a == [] {
      assert [] + b == b;
    } else {
      assert (a + b)[1..] == a[1..] + b;
      MensagemDeCamposConcat(a[1..], b);
    }
  }

  /** A non-empty message always ends in "; ", trailing space included. */
  lemma MensagemTerminaComSeparador(erros: seq<FieldError>)
    requires erros != []
    ensures var m := MensagemDeCampos(erros); |m| >= 2 && m[|m| - 2..] == "; "
  {
    var n := |erros| - 1;
    assert erros == erros[..n] + [erros[n]];
    MensagemDeCamposAppend(erros[..n], erros[n]);
  }

  /** `handleValidationExceptions`: appends every field error to a StringBuilder. */
  method HandleValidationExceptions(ex: Excecao) returns (r: ResponseEntity)
    requires ex.MethodArgumentNotValid?
    ensures r.status == BAD_REQUEST && r.body == ErroResponse(r.status, MensagemDeCampos(ex.erros))
  {
    var sb := "";
    var i := 0;
    while i < |ex.erros|
      invariant 0 <= i <= |ex.erros|
      invariant sb == MensagemDeCampos(ex.erros[..i])
    {
      var error := ex.erros[i];
      sb := sb + error.field;
      sb := sb + " - ";
      sb := sb + error.defaultMessage;
      sb := sb + "; ";
      assert ex.erros[..i + 1] == ex.erros[..i] + [error];
      MensagemDeCamposAppend(ex.erros[..i], error);
      i := i + 1;
    }
    assert ex.erros[..i] == ex.erros;
    r := ResponseEntity(ErroResponse(BAD_REQUEST, sb), BAD_REQUEST);
  }

  /** `trataErroGenerico`: a fixed body, whatever the exception. */
  function TrataErroGenerico(ex: Excecao): (r: ResponseEntity)
    ensures r.status == INTERNAL_SERVER_ERROR && r.body == ErroResponse(r.status, MENSAGEM_ERRO_INTERNO)
  {
    ResponseEntity(ErroResponse(INTERNAL_SERVER_ERROR, MENSAGEM_ERRO_INTERNO), INTERNAL_SERVER_ERROR)
  }

  /**
   * The handler Spring picks for an exception (the most specific one declared).
   * The body's code is always the response status; only the catch-all answers
   * 500, and it never repeats the exception's own message.
   */
  method Trata(ex: Excecao) returns (r: ResponseEntity)
    ensures r.body.codigo == r.status
    ensures r.status == NOT_FOUND <==> ex.EntidadeNaoEncontrada?
    ensures r.status == INTERNAL_SERVER_ERROR <==> ex.Outra?
    ensures r.status == BAD_REQUEST <==> ex.OperacaoInvalida? || ex.Validacao? || ex.MethodArgumentNotValid?
    ensures !ex.Outra? && !ex.MethodArgumentNotValid? ==> r.body.mensagem == ex.mensagem
    ensures ex.MethodArgumentNotValid? ==> r.body.mensagem == MensagemDeCampos(ex.erros)
    ensures ex.Outra? ==> r.body.mensagem == MENSAGEM_ERRO_INTERNO
  {
    match ex
    case EntidadeNaoEncontrada(_) =>
      r := TrataEntidadeNaoEncontrada(ex);
    case OperacaoInvalida(_) =>
      r := TrataOperacaoInvalida(ex);
    case Validacao(_) =>
      r := TrataOperacaoInvalida(ex);
    case MethodArgumentNotValid(_) =>
      r := HandleValidationExceptions(ex);
    case Outra(_) =>
      r := TrataErroGenerico(ex);
  }
}
