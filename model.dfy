/**
 * The four persisted entities. A reference from one entity to another is held
 * as the referenced row's id, which is what the join column stores.
 */
module Model {
  import opened Wrappers
  import opened Decimals

  /** Banco: `codigo` is a unique column. */
  datatype Banco = Banco(id: Option<int>, codigo: int, nome: string, cnpj: string)

  /** Agencia: `numero` is a unique column; `bancoId` is the BANCO_ID join column. */
  datatype Agencia = Agencia(id: Option<int>, numero: int, nome: string, bancoId: int)

  /** Cliente: `cpf` is a unique column. */
  datatype Cliente = Cliente(id: Option<int>, cpf: string, nome: string)

  /** Conta: `numero` is a unique column; CLIENTE_ID and AGENCIA_ID are join columns. */
  datatype Conta = Conta(id: Option<int>, numero: int, saldo: Decimal, clienteId: int, agenciaId: int)

  /** The constraint `@PositiveOrZero` declared on `saldo`. */
  predicate SaldoValido(c: Conta)
  {
    NonNegative(c.saldo)
  }

  /**
   * `new Conta(numero, cliente, agencia)`: the id is left unset and the balance
   * keeps its field initialiser, BigDecimal.ZERO.
   */
  function NovaConta(numero: int, clienteId: int, agenciaId: int): (c: Conta)
    ensures c.id.None?
    ensures c.numero == numero && c.clienteId == clienteId && c.agenciaId == agenciaId
    ensures c.saldo == ZERO && Value(c.saldo) == 0.0
    ensures SaldoValido(c)
  {
    Conta(None, numero, ZERO, clienteId, agenciaId)
  }

  /** `conta.setSaldo(saldo)`: replaces the balance and nothing else. */
  function SetSaldo(c: Conta, saldo: Decimal): (r: Conta)
    ensures r.saldo == saldo
    ensures r.(saldo := c.saldo) == c
  {
    c.(saldo := saldo)
  }

  /** The argument of `equals(Object)`: null, an object of another class, or an account. */
  datatype Objeto = Nulo | DeOutraClasse | UmaConta(conta: Conta)

  /**
   * `Conta.equals`: false for null and for other classes, otherwise field by
   * field (`Objects.equals` on each field; on `saldo` that is BigDecimal.equals,
   * which also compares the scale).
   */
  function Equals(c: Conta, o: Objeto): (r: bool)
    ensures r <==> o == UmaConta(c)
  {
    match o
    case UmaConta(d) =>
      c.id == d.id && c.numero == d.numero && c.saldo == d.saldo
      && c.clienteId == d.clienteId && c.agenciaId == d.agenciaId
    case _ => false
  }
}
