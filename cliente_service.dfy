/** The customer registry (ClienteService). */
module Clientes {
  import opened Wrappers
  import opened Text
  import opened Tables
  import opened Model
  import opened Exceptions
  import opened Repositories

  /** The request body of the customer endpoints. */
  datatype ClienteDTO = ClienteDTO(cpf: string, nome: string)

  function NaoEncontradoPorId(id: int): Excecao
  {
    EntidadeNaoEncontrada("Cliente não encontrado com ID: " + IntToString(id))
  }

  function NaoEncontradoPorCpf(cpf: string): Excecao
  {
    EntidadeNaoEncontrada("Cliente não encontrado com CPF: " + cpf)
  }

  class ClienteService {
    const clienteRepository: ClienteRepository

    ghost predicate Valid()
      reads clienteRepository
    {
      clienteRepository.Valid()
    }

    constructor (clienteRepository: ClienteRepository)
      ensures this.clienteRepository == clienteRepository
    {
      this.clienteRepository := clienteRepository;
    }

    /** A new customer carrying the request's cpf and nome, stored under a fresh id. */
    method Salvar(dto: ClienteDTO) returns (r: Result<Cliente>)
      requires Valid()
      modifies clienteRepository
      ensures Valid()
      ensures var novo := Cliente(None, dto.cpf, dto.nome);
        if old(clienteRepository.Collides(novo)) then
          && r == Err(ViolacaoDeUnicidade("CPF"))
          && clienteRepository.rows == old(clienteRepository.rows)
          && clienteRepository.nextId == old(clienteRepository.nextId)
        else
          && r == Ok(Cliente(Some(old(clienteRepository.nextId)), dto.cpf, dto.nome))
          && clienteRepository.rows == old(clienteRepository.rows)[old(clienteRepository.nextId) := r.value]
          && clienteRepository.nextId == old(clienteRepository.nextId) + 1
    {
      var cliente := Cliente(None, dto.cpf, dto.nome);
      r := clienteRepository.Save(cliente);
    }

    function BuscarPorId(id: int): (r: Result<Cliente>)
      reads clienteRepository
      requires Valid()
      ensures r.Ok? <==> id in clienteRepository.rows
      ensures r.Ok? ==> r.value == clienteRepository.rows[id] && r.value.id == Some(id)
      ensures r.Err? ==> r.error == NaoEncontradoPorId(id)
    {
      if id in clienteRepository.rows then Ok(clienteRepository.rows[id]) else Err(NaoEncontradoPorId(id))
    }

    /** `findByCpf`: the one customer with that cpf (the column is unique). */
    function BuscarPorCpf(cpf: string): (r: Result<Cliente>)
      reads clienteRepository
      requires Valid()
      ensures r.Ok? <==> exists k :: k in clienteRepository.rows && clienteRepository.rows[k].cpf == cpf
      ensures r.Ok? ==> r.value.cpf == cpf && r.value.id.Some?
      ensures r.Ok? ==> forall k :: k in clienteRepository.rows && clienteRepository.rows[k].cpf == cpf ==>
                          r.value == clienteRepository.rows[k] && r.value.id == Some(k)
      ensures r.Err? ==> r.error == NaoEncontradoPorCpf(cpf)
    {
      var rows := clienteRepository.rows;
      match First(rows, (c: Cliente) => c.cpf == cpf, clienteRepository.nextId)
      case Some(k) => Ok(rows[k])
      case None => Err(NaoEncontradoPorCpf(cpf))
    }

    /** `findByNomeContainingIgnoreCase`: never fails; may be empty. */
    function BuscarPorNome(nome: string): (r: seq<Cliente>)
      reads clienteRepository
      requires Valid()
      ensures forall i :: 0 <= i < |r| ==>
                && r[i].id.Some? && r[i].id.value in clienteRepository.rows
                && clienteRepository.rows[r[i].id.value] == r[i]
                && ContainsIgnoreCase(r[i].nome, nome)
      ensures forall k :: k in clienteRepository.rows && ContainsIgnoreCase(clienteRepository.rows[k].nome, nome) ==>
                clienteRepository.rows[k] in r
      ensures forall i, j :: 0 <= i < j < |r| ==> r[i].id.value < r[j].id.value
    {
      var rows := clienteRepository.rows;
      var ks := Select(rows, (c: Cliente) => ContainsIgnoreCase(c.nome, nome), clienteRepository.nextId);
      var r := Rows(rows, ks);
      RowsContainsKeys(rows, ks);
      r
    }

    /** Replaces cpf and nome of an existing customer and keeps its id. */
    method Atualizar(id: int, dto: ClienteDTO) returns (r: Result<Cliente>)
      requires Valid()
      modifies clienteRepository
      ensures Valid()
      ensures id !in old(clienteRepository.rows) ==>
        r == Err(NaoEncontradoPorId(id)) && unchanged(clienteRepository)
      ensures id in old(clienteRepository.rows) ==>
        var novo := Cliente(Some(id), dto.cpf, dto.nome);
        if old(clienteRepository.Collides(novo)) then
          && r == Err(ViolacaoDeUnicidade("CPF"))
          && clienteRepository.rows == old(clienteRepository.rows)
          && clienteRepository.nextId == old(clienteRepository.nextId)
        else
          && r == Ok(novo)
          && clienteRepository.rows == old(clienteRepository.rows)[id := novo]
          && clienteRepository.nextId == old(clienteRepository.nextId)
    {
      var existente := BuscarPorId(id);
      if existente.Err? {
        return Err(existente.error);
      }
      var cliente := existente.value.(cpf := dto.cpf, nome := dto.nome);
      r := clienteRepository.Save(cliente);
    }

    /** Removes exactly the customer with that id, which must exist. */
    method Deletar(id: int) returns (r: Result<()>)
      requires Valid()
      modifies clienteRepository
      ensures Valid()
      ensures id !in old(clienteRepository.rows) ==>
        r == Err(NaoEncontradoPorId(id)) && unchanged(clienteRepository)
      ensures id in old(clienteRepository.rows) ==>
        && r == Ok(())
        && clienteRepository.rows == old(clienteRepository.rows) - {id}
        && clienteRepository.nextId == old(clienteRepository.nextId)
    {
      if id !in clienteRepository.rows {
        return Err(NaoEncontradoPorId(id));
      }
      clienteRepository.DeleteById(id);
      r := Ok(());
    }
  }
}
