/**
 * The account ledger (ContaService). Deposits and withdrawals are specified by
 * the pure functions Deposito and Saque on the map of accounts; the service's
 * methods perform the same steps against the repository and are proved equal
 * to them.
 */
module Contas {
  import opened Wrappers
  import opened Decimals
  import opened Text
  import opened Tables
  import opened Model
  import opened Exceptions
  import opened Repositories
  import Clientes
  import Agencias

  /** The account as the endpoints see it. */
  datatype ContaDTO = ContaDTO(id: Option<int>, numero: int, saldo: Decimal, clienteId: int, agenciaId: int)

  /** The request body of a deposit or a withdrawal. */
  datatype OperacaoBancariaDTO = OperacaoBancariaDTO(valor: Decimal, contaId: int)

  const DEPOSITO_NAO_POSITIVO: Excecao := OperacaoInvalida("Valor do depósito deve ser positivo")
  const SAQUE_NAO_POSITIVO: Excecao := OperacaoInvalida("Valor do saque deve ser positivo")
  const SALDO_INSUFICIENTE: Excecao := OperacaoInvalida("Saldo insuficiente para realizar o saque")

  function NaoEncontradaPorId(id: int): Excecao
  {
    EntidadeNaoEncontrada("Conta não encontrada com ID: " + IntToString(id))
  }

  function NaoEncontradaPorNumero(numero: int): Excecao
  {
    EntidadeNaoEncontrada("Conta não encontrada com número: " + IntToString(numero))
  }

  /** `converterParaDTO`: the DTO carries every field of the account. */
  function ConverterParaDTO(c: Conta): (d: ContaDTO)
    ensures d.id == c.id && d.numero == c.numero && d.saldo == c.saldo
    ensures d.clienteId == c.clienteId && d.agenciaId == c.agenciaId
  {
    ContaDTO(c.id, c.numero, c.saldo, c.clienteId, c.agenciaId)
  }

  // ---------------------------------------------------------------------------
  // The ledger operations as functions of the accounts

  /** The outcome of a ledger operation and the accounts afterwards. */
  datatype Efeito = Efeito(resultado: Result<()>, contas: map<int, Conta>)

  /** Every balance satisfies `@PositiveOrZero`. */
  ghost predicate SaldosValidos(contas: map<int, Conta>)
  {
    forall k :: k in contas ==> SaldoValido(contas[k])
  }

  /**
   * `depositar`: a non-positive amount is refused before the account is looked
   * up; the balance of an existing account grows by exactly the amount.
   */
  function Deposito(contas: map<int, Conta>, op: OperacaoBancariaDTO): (e: Efeito)
    ensures e.resultado.Ok? <==> Value(op.valor) > 0.0 && op.contaId in contas
    ensures Value(op.valor) <= 0.0 ==> e.resultado == Err(DEPOSITO_NAO_POSITIVO)
    ensures Value(op.valor) > 0.0 && op.contaId !in contas ==>
              e.resultado == Err(NaoEncontradaPorId(op.contaId))
    ensures e.resultado.Err? ==> e.contas == contas
    ensures e.resultado.Ok? ==>
              && e.contas.Keys == contas.Keys
              && (forall k :: k in contas && k != op.contaId ==> e.contas[k] == contas[k])
              && e.contas[op.contaId].(saldo := contas[op.contaId].saldo) == contas[op.contaId]
              && Value(e.contas[op.contaId].saldo) == Value(contas[op.contaId].saldo) + Value(op.valor)
              && e.contas[op.contaId].saldo.scale == Max(contas[op.contaId].saldo.scale, op.valor.scale)
  {
    CompareToZero(op.valor);
    if CompareTo(op.valor, ZERO) <= 0 then
      Efeito(Err(DEPOSITO_NAO_POSITIVO), contas)
    else if op.contaId !in contas then
      Efeito(Err(NaoEncontradaPorId(op.contaId)), contas)
    else
      var conta := contas[op.contaId];
      AddValue(conta.saldo, op.valor);
      Efeito(Ok(()), contas[op.contaId := SetSaldo(conta, Add(conta.saldo, op.valor))])
  }

  /**
   * `sacar`: a non-positive amount is refused before the lookup; a withdrawal
   * that would leave a negative balance is refused in full; withdrawing the
   * whole balance is allowed.
   */
  function Saque(contas: map<int, Conta>, op: OperacaoBancariaDTO): (e: Efeito)
    ensures e.resultado.Ok? <==>
              && Value(op.valor) > 0.0
              && op.contaId in contas
              && Value(op.valor) <= Value(contas[op.contaId].saldo)
    ensures Value(op.valor) <= 0.0 ==> e.resultado == Err(SAQUE_NAO_POSITIVO)
    ensures Value(op.valor) > 0.0 && op.contaId !in contas ==>
              e.resultado == Err(NaoEncontradaPorId(op.contaId))
    ensures Value(op.valor) > 0.0 && op.contaId in contas && Value(contas[op.contaId].saldo) < Value(op.valor) ==>
              e.resultado == Err(SALDO_INSUFICIENTE)
    ensures e.resultado.Err? ==> e.contas == contas
    ensures e.resultado.Ok? ==>
              && e.contas.Keys == contas.Keys
              && (forall k :: k in contas && k != op.contaId ==> e.contas[k] == contas[k])
              && e.contas[op.contaId].(saldo := contas[op.contaId].saldo) == contas[op.contaId]
              && Value(e.contas[op.contaId].saldo) == Value(contas[op.contaId].saldo) - Value(op.valor)
              && e.contas[op.contaId].saldo.scale == Max(contas[op.contaId].saldo.scale, op.valor.scale)
  {
    CompareToZero(op.valor);
    if CompareTo(op.valor, ZERO) <= 0 then
      Efeito(Err(SAQUE_NAO_POSITIVO), contas)
    else if op.contaId !in contas then
      Efeito(Err(NaoEncontradaPorId(op.contaId)), contas)
    else
      var conta := contas[op.contaId];
      var novoSaldo := Subtract(conta.saldo, op.valor);
      SubtractValue(conta.saldo, op.valor);
      CompareToZero(novoSaldo);
      if CompareTo(novoSaldo, ZERO) < 0 then
        Efeito(Err(SALDO_INSUFICIENTE), contas)
      else
        Efeito(Ok(()), contas[op.contaId := SetSaldo(conta, novoSaldo)])
  }

  /** A deposit keeps every balance non-negative. */
  lemma DepositoPreservaSaldos(contas: map<int, Conta>, op: OperacaoBancariaDTO)
    requires SaldosValidos(contas)
    ensures SaldosValidos(Deposito(contas, op).contas)
  {
    var e := Deposito(contas, op);
    if e.resultado.Ok? {
      var antes, depois := contas[op.contaId].saldo, e.contas[op.contaId].saldo;
      NonNegativeValue(antes);
      NonNegativeValue(depois);
    }
  }

  /** A withdrawal keeps every balance non-negative. */
  lemma SaquePreservaSaldos(contas: map<int, Conta>, op: OperacaoBancariaDTO)
    requires SaldosValidos(contas)
    ensures SaldosValidos(Saque(contas, op).contas)
  {
    var e := Saque(contas, op);
    if e.resultado.Ok? {
      NonNegativeValue(e.contas[op.contaId].saldo);
    }
  }

  /**
   * Two deposits applied one after the other: the two serial orders give the same
   * accounts and the same outcome for each deposit.
   */
  lemma DepositosComutam(contas: map<int, Conta>, op1: OperacaoBancariaDTO, op2: OperacaoBancariaDTO)
    ensures var e1 := Deposito(contas, op1);
            var e2 := Deposito(contas, op2);
            var e12 := Deposito(e1.contas, op2);
            var e21 := Deposito(e2.contas, op1);
            && e12.contas == e21.contas
            && e1.resultado == e21.resultado
            && e2.resultado == e12.resultado
  {
    var e1 := Deposito(contas, op1);
    var e2 := Deposito(contas, op2);
    if e1.resultado.Ok? && e2.resultado.Ok? && op1.contaId == op2.contaId {
      var c := contas[op1.contaId];
      AddTwiceCommutes(c.saldo, op1.valor, op2.valor);
    }
  }

  /**
   * Depositing an amount and then withdrawing it again succeeds and restores the
   * balance's value (the scale may have grown), touching nothing else.
   */
  lemma DepositoDepoisSaque(contas: map<int, Conta>, op: OperacaoBancariaDTO)
    requires SaldosValidos(contas)
    requires Deposito(contas, op).resultado.Ok?
    ensures var e := Saque(Deposito(contas, op).contas, op);
            && e.resultado.Ok?
            && e.contas.Keys == contas.Keys
            && (forall k :: k in contas && k != op.contaId ==> e.contas[k] == contas[k])
            && e.contas[op.contaId].(saldo := contas[op.contaId].saldo) == contas[op.contaId]
            && Value(e.contas[op.contaId].saldo) == Value(contas[op.contaId].saldo)
  {
    var d := Deposito(contas, op);
    var e := Saque(d.contas, op);
    NonNegativeValue(contas[op.contaId].saldo);
  }

  // ---------------------------------------------------------------------------
  // The service

  class ContaService {
    const contaRepository: ContaRepository
    const clienteRepository: ClienteRepository
    const agenciaRepository: AgenciaRepository

    ghost predicate Valid()
      reads contaRepository, clienteRepository, agenciaRepository
    {
      contaRepository.Valid() && clienteRepository.Valid() && agenciaRepository.Valid()
    }

    constructor (contaRepository: ContaRepository, clienteRepository: ClienteRepository,
                 agenciaRepository: AgenciaRepository)
      ensures this.contaRepository == contaRepository
      ensures this.clienteRepository == clienteRepository
      ensures this.agenciaRepository == agenciaRepository
    {
      this.contaRepository := contaRepository;
      this.clienteRepository := clienteRepository;
      this.agenciaRepository := agenciaRepository;
    }

    /**
     * Opens an account: the customer is resolved first, then the branch; the
     * new account has balance zero whatever the request's saldo says.
     */
    method Salvar(dto: ContaDTO) returns (r: Result<ContaDTO>)
      requires Valid()
      modifies contaRepository
      ensures Valid()
      ensures dto.clienteId !in clienteRepository.rows ==>
        r == Err(Clientes.NaoEncontradoPorId(dto.clienteId)) && unchanged(contaRepository)
      ensures dto.clienteId in clienteRepository.rows && dto.agenciaId !in agenciaRepository.rows ==>
        r == Err(Agencias.NaoEncontradaPorId(dto.agenciaId)) && unchanged(contaRepository)
      ensures dto.clienteId in clienteRepository.rows && dto.agenciaId in agenciaRepository.rows ==>
        var nova := NovaConta(dto.numero, dto.clienteId, dto.agenciaId);
        var id := old(contaRepository.nextId);
        if old(contaRepository.Collides(nova)) then
          && r == Err(ViolacaoDeUnicidade("NUMERO"))
          && contaRepository.rows == old(contaRepository.rows)
          && contaRepository.nextId == id
        else
          && r == Ok(ContaDTO(Some(id), dto.numero, ZERO, dto.clienteId, dto.agenciaId))
          && contaRepository.rows == old(contaRepository.rows)[id := nova.(id := Some(id))]
          && contaRepository.nextId == id + 1
    {
      if dto.clienteId !in clienteRepository.rows {
        return Err(Clientes.NaoEncontradoPorId(dto.clienteId));
      }
      var cliente := clienteRepository.rows[dto.clienteId];
      if dto.agenciaId !in agenciaRepository.rows {
        return Err(Agencias.NaoEncontradaPorId(dto.agenciaId));
      }
      var agencia := agenciaRepository.rows[dto.agenciaId];
      var conta := NovaConta(dto.numero, cliente.id.value, agencia.id.value);
      var salva := contaRepository.Save(conta);
      if salva.Err? {
        return Err(salva.error);
      }
      r := Ok(ConverterParaDTO(salva.value));
    }

    /** `findByNumero`: the one account with that number (the column is unique). */
    function BuscarPorNumero(numero: int): (r: Result<ContaDTO>)
      reads contaRepository
      requires contaRepository.Valid()
      ensures r.Ok? <==> exists k :: k in contaRepository.rows && contaRepository.rows[k].numero == numero
      ensures r.Ok? ==> r.value.numero == numero && r.value.id.Some? && NonNegative(r.value.saldo)
      ensures r.Ok? ==> forall k :: k in contaRepository.rows && contaRepository.rows[k].numero == numero ==>
                          r.value == ConverterParaDTO(contaRepository.rows[k]) && r.value.id == Some(k)
      ensures r.Err? ==> r.error == NaoEncontradaPorNumero(numero)
    {
      var rows := contaRepository.rows;
      match First(rows, (c: Conta) => c.numero == numero, contaRepository.nextId)
      case Some(k) => Ok(ConverterParaDTO(rows[k]))
      case None => Err(NaoEncontradaPorNumero(numero))
    }

    /** Removes exactly the account with that id, which must exist (whatever its balance). */
    method Deletar(id: int) returns (r: Result<()>)
      requires Valid()
      modifies contaRepository
      ensures Valid()
      ensures id !in old(contaRepository.rows) ==>
        r == Err(NaoEncontradaPorId(id)) && unchanged(contaRepository)
      ensures id in old(contaRepository.rows) ==>
        && r == Ok(())
        && contaRepository.rows == old(contaRepository.rows) - {id}
        && contaRepository.nextId == old(contaRepository.nextId)
    {
      if id !in contaRepository.rows {
        return Err(NaoEncontradaPorId(id));
      }
      contaRepository.DeleteById(id);
      r := Ok(());
    }

    method Depositar(op: OperacaoBancariaDTO) returns (r: Result<()>)
      requires Valid()
      modifies contaRepository
      ensures Valid()
      ensures Efeito(r, contaRepository.rows) == Deposito(old(contaRepository.rows), op)
      ensures contaRepository.nextId == old(contaRepository.nextId)
    {
      if CompareTo(op.valor, ZERO) <= 0 {
        return Err(DEPOSITO_NAO_POSITIVO);
      }
      if op.contaId !in contaRepository.rows {
        return Err(NaoEncontradaPorId(op.contaId));
      }
      var conta := contaRepository.rows[op.contaId];
      CompareToZero(op.valor);
      AddNonNegative(conta.saldo, op.valor);
      conta := SetSaldo(conta, Add(conta.saldo, op.valor));
      var salva := contaRepository.Save(conta);
      r := Ok(());
    }

    method Sacar(op: OperacaoBancariaDTO) returns (r: Result<()>)
      requires Valid()
      modifies contaRepository
      ensures Valid()
      ensures Efeito(r, contaRepository.rows) == Saque(old(contaRepository.rows), op)
      ensures contaRepository.nextId == old(contaRepository.nextId)
    {
      if CompareTo(op.valor, ZERO) <= 0 {
        return Err(SAQUE_NAO_POSITIVO);
      }
      if op.contaId !in contaRepository.rows {
        return Err(NaoEncontradaPorId(op.contaId));
      }
      var conta := contaRepository.rows[op.contaId];
      var novoSaldo := Subtract(conta.saldo, op.valor);
      if CompareTo(novoSaldo, ZERO) < 0 {
        return Err(SALDO_INSUFICIENTE);
      }
      CompareToZero(novoSaldo);
      conta := SetSaldo(conta, novoSaldo);
      var salva := contaRepository.Save(conta);
      r := Ok(());
    }
  }
}
