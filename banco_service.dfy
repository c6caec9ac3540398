/** The bank registry (BancoService). */
module Bancos {
  import opened Wrappers
  import opened Text
  import opened Tables
  import opened Model
  import opened Exceptions
  import opened Repositories

  /** The request body of the bank endpoints. */
  datatype BancoDTO = BancoDTO(codigo: int, nome: string, cnpj: string)

  function NaoEncontradoPorId(id: int): Excecao
  {
    EntidadeNaoEncontrada("Banco não encontrado com ID: " + IntToString(id))
  }

  function NaoEncontradoPorCodigo(codigo: int): Excecao
  {
    EntidadeNaoEncontrada("Banco não encontrado com código: " + IntToString(codigo))
  }

  class BancoService {
    const bancoRepository: BancoRepository

    ghost predicate Valid()
      reads bancoRepository
    {
      bancoRepository.Valid()
    }

    constructor (bancoRepository: BancoRepository)
      ensures this.bancoRepository == bancoRepository
    {
      this.bancoRepository := bancoRepository;
    }

    /** A new bank carrying the request's three fields, stored under a fresh id. */
    method Salvar(dto: BancoDTO) returns (r: Result<Banco>)
      requires Valid()
      modifies bancoRepository
      ensures Valid()
      ensures var novo := Banco(None, dto.codigo, dto.nome, dto.cnpj);
        if old(bancoRepository.Collides(novo)) then
          r == Err(ViolacaoDeUnicidade("CODIGO")) && bancoRepository.rows == old(bancoRepository.rows) && bancoRepository.nextId == old(bancoRepository.nextId)
        else
          && r == Ok(Banco(Some(old(bancoRepository.nextId)), dto.codigo, dto.nome, dto.cnpj))
          && bancoRepository.rows == old(bancoRepository.rows)[old(bancoRepository.nextId) := r.value]
          && bancoRepository.nextId == old(bancoRepository.nextId) + 1
    {
      var banco := Banco(None, dto.codigo, dto.nome, dto.cnpj);
      r := bancoRepository.Save(banco);
    }

    function BuscarPorId(id: int): (r: Result<Banco>)
      reads bancoRepository
      requires Valid()
      ensures r.Ok? <==> id in bancoRepository.rows
      ensures r.Ok? ==> r.value == bancoRepository.rows[id] && r.value.id == Some(id)
      ensures r.Err? ==> r.error == NaoEncontradoPorId(id)
    {
      if id in bancoRepository.rows then Ok(bancoRepository.rows[id]) else Err(NaoEncontradoPorId(id))
    }

    /** `findByCodigo`: the one bank with that code (the column is unique). */
    function BuscarPorCodigo(codigo: int): (r: Result<Banco>)
      reads bancoRepository
      requires Valid()
      ensures r.Ok? <==> exists k :: k in bancoRepository.rows && bancoRepository.rows[k].codigo == codigo
      ensures r.Ok? ==> r.value.codigo == codigo && r.value.id.Some?
      ensures r.Ok? ==> forall k :: k in bancoRepository.rows && bancoRepository.rows[k].codigo == codigo ==>
                          r.value == bancoRepository.rows[k] && r.value.id == Some(k)
      ensures r.Err? ==> r.error == NaoEncontradoPorCodigo(codigo)
    {
      var rows := bancoRepository.rows;
      match First(rows, (b: Banco) => b.codigo == codigo, bancoRepository.nextId)
      case Some(k) => Ok(rows[k])
      case None => Err(NaoEncontradoPorCodigo(codigo))
    }

    /** `findByNomeContainingIgnoreCase`: never fails; may be empty. */
    function BuscarPorNome(nome: string): (r: seq<Banco>)
      reads bancoRepository
      requires Valid()
      ensures forall i :: 0 <= i < |r| ==>
                && r[i].id.Some? && r[i].id.value in bancoRepository.rows
                && bancoRepository.rows[r[i].id.value] == r[i]
                && ContainsIgnoreCase(r[i].nome, nome)
      ensures forall k :: k in bancoRepository.rows && ContainsIgnoreCase(bancoRepository.rows[k].nome, nome) ==>
                bancoRepository.rows[k] in r
      ensures forall i, j :: 0 <= i < j < |r| ==> r[i].id.value < r[j].id.value
    {
      var rows := bancoRepository.rows;
      var ks := Select(rows, (b: Banco) => ContainsIgnoreCase(b.nome, nome), bancoRepository.nextId);
      var r := Rows(rows, ks);
      RowsContainsKeys(rows, ks);
      r
    }

    /** `findAll`: every stored bank, once each. */
    function ListarTodos(): (r: seq<Banco>)
      reads bancoRepository
      requires Valid()
      ensures forall i :: 0 <= i < |r| ==>
                && r[i].id.Some? && r[i].id.value in bancoRepository.rows
                && bancoRepository.rows[r[i].id.value] == r[i]
      ensures forall k :: k in bancoRepository.rows ==> bancoRepository.rows[k] in r
      ensures forall i, j :: 0 <= i < j < |r| ==> r[i].id.value < r[j].id.value
    {
      var rows := bancoRepository.rows;
      var ks := Select(rows, (b: Banco) => true, bancoRepository.nextId);
      var r := Rows(rows, ks);
      RowsContainsKeys(rows, ks);
      r
    }

    /** Replaces all three fields of an existing bank and keeps its id. */
    method Atualizar(id: int, dto: BancoDTO) returns (r: Result<Banco>)
      requires Valid()
      modifies bancoRepository
      ensures Valid()
      ensures id !in old(bancoRepository.rows) ==>
        r == Err(NaoEncontradoPorId(id)) && unchanged(bancoRepository)
      ensures id in old(bancoRepository.rows) ==>
        var novo := Banco(Some(id), dto.codigo, dto.nome, dto.cnpj);
        if old(bancoRepository.Collides(novo)) then
          r == Err(ViolacaoDeUnicidade("CODIGO")) && bancoRepository.rows == old(bancoRepository.rows) && bancoRepository.nextId == old(bancoRepository.nextId)
        else
          && r == Ok(novo)
          && bancoRepository.rows == old(bancoRepository.rows)[id := novo]
          && bancoRepository.nextId == old(bancoRepository.nextId)
    {
      var existente := BuscarPorId(id);
      if existente.Err? {
        return Err(existente.error);
      }
      var banco := existente.value.(codigo := dto.codigo, nome := dto.nome, cnpj := dto.cnpj);
      r := bancoRepository.Save(banco);
    }

    /** Removes exactly the bank with that id, which must exist. */
    method Deletar(id: int) returns (r: Result<()>)
      requires Valid()
      modifies bancoRepository
      ensures Valid()
      ensures id !in old(bancoRepository.rows) ==>
        r == Err(NaoEncontradoPorId(id)) && unchanged(bancoRepository)
      ensures id in old(bancoRepository.rows) ==>
        && r == Ok(())
        && bancoRepository.rows == old(bancoRepository.rows) - {id}
        && bancoRepository.nextId == old(bancoRepository.nextId)
    {
      if id !in bancoRepository.rows {
        return Err(NaoEncontradoPorId(id));
      }
      bancoRepository.DeleteById(id);
      r := Ok(());
    }
  }
}
