/** The branch registry (AgenciaService). Every write resolves the bank first. */
module Agencias {
  import opened Wrappers
  import opened Text
  import opened Tables
  import opened Model
  import opened Exceptions
  import opened Repositories
  import Bancos

  /** The request body of the branch endpoints. */
  datatype AgenciaDTO = AgenciaDTO(numero: int, nome: string, bancoId: int)

  function NaoEncontradaPorId(id: int): Excecao
  {
    EntidadeNaoEncontrada("Agência não encontrada com ID: " + IntToString(id))
  }

  function NaoEncontradaPorNumero(numero: int): Excecao
  {
    EntidadeNaoEncontrada("Agência não encontrada com número: " + IntToString(numero))
  }

  class AgenciaService {
    const agenciaRepository: AgenciaRepository
    const bancoRepository: BancoRepository

    ghost predicate Valid()
      reads agenciaRepository, bancoRepository
    {
      agenciaRepository.Valid() && bancoRepository.Valid()
    }

    constructor (agenciaRepository: AgenciaRepository, bancoRepository: BancoRepository)
      ensures this.agenciaRepository == agenciaRepository && this.bancoRepository == bancoRepository
    {
      this.agenciaRepository := agenciaRepository;
      this.bancoRepository := bancoRepository;
    }

    /**
     * The bank is resolved before anything is written; the new branch takes
     * numero and nome from the request and references the resolved bank.
     */
    method Salvar(dto: AgenciaDTO) returns (r: Result<Agencia>)
      requires Valid()
      modifies agenciaRepository
      ensures Valid()
      ensures dto.bancoId !in bancoRepository.rows ==>
        r == Err(Bancos.NaoEncontradoPorId(dto.bancoId)) && unchanged(agenciaRepository)
      ensures dto.bancoId in bancoRepository.rows ==>
        var nova := Agencia(None, dto.numero, dto.nome, dto.bancoId);
        if old(agenciaRepository.Collides(nova)) then
          && r == Err(ViolacaoDeUnicidade("NUMERO"))
          && agenciaRepository.rows == old(agenciaRepository.rows)
          && agenciaRepository.nextId == old(agenciaRepository.nextId)
        else
          && r == Ok(nova.(id := Some(old(agenciaRepository.nextId))))
          && agenciaRepository.rows == old(agenciaRepository.rows)[old(agenciaRepository.nextId) := r.value]
          && agenciaRepository.nextId == old(agenciaRepository.nextId) + 1
    {
      if dto.bancoId !in bancoRepository.rows {
        return Err(Bancos.NaoEncontradoPorId(dto.bancoId));
      }
      var banco := bancoRepository.rows[dto.bancoId];
      var agencia := Agencia(None, dto.numero, dto.nome, banco.id.value);
      r := agenciaRepository.Save(agencia);
    }

    function BuscarPorId(id: int): (r: Result<Agencia>)
      reads agenciaRepository
      requires agenciaRepository.Valid()
      ensures r.Ok? <==> id in agenciaRepository.rows
      ensures r.Ok? ==> r.value == agenciaRepository.rows[id] && r.value.id == Some(id)
      ensures r.Err? ==> r.error == NaoEncontradaPorId(id)
    {
      if id in agenciaRepository.rows then Ok(agenciaRepository.rows[id]) else Err(NaoEncontradaPorId(id))
    }

    /** `findByNumero`: the one branch with that number (the column is unique). */
    function BuscarPorNumero(numero: int): (r: Result<Agencia>)
      reads agenciaRepository
      requires agenciaRepository.Valid()
      ensures r.Ok? <==> exists k :: k in agenciaRepository.rows && agenciaRepository.rows[k].numero == numero
      ensures r.Ok? ==> r.value.numero == numero && r.value.id.Some?
      ensures r.Ok? ==> forall k :: k in agenciaRepository.rows && agenciaRepository.rows[k].numero == numero ==>
                          r.value == agenciaRepository.rows[k] && r.value.id == Some(k)
      ensures r.Err? ==> r.error == NaoEncontradaPorNumero(numero)
    {
      var rows := agenciaRepository.rows;
      match First(rows, (a: Agencia) => a.numero == numero, agenciaRepository.nextId)
      case Some(k) => Ok(rows[k])
      case None => Err(NaoEncontradaPorNumero(numero))
    }

    /**
     * Fails when the bank itself does not exist; otherwise exactly the branches
     * whose bank is `bancoId` (possibly none).
     */
    function BuscarPorBanco(bancoId: int): (r: Result<seq<Agencia>>)
      reads agenciaRepository, bancoRepository
      requires Valid()
      ensures r.Err? <==> bancoId !in bancoRepository.rows
      ensures r.Err? ==> r.error == Bancos.NaoEncontradoPorId(bancoId)
      ensures r.Ok? ==> forall i :: 0 <= i < |r.value| ==>
                && r.value[i].id.Some? && r.value[i].id.value in agenciaRepository.rows
                && agenciaRepository.rows[r.value[i].id.value] == r.value[i]
                && r.value[i].bancoId == bancoId
      ensures r.Ok? ==> forall k :: k in agenciaRepository.rows && agenciaRepository.rows[k].bancoId == bancoId ==>
                agenciaRepository.rows[k] in r.value
      ensures r.Ok? ==> forall i, j :: 0 <= i < j < |r.value| ==> r.value[i].id.value < r.value[j].id.value
    {
      if bancoId !in bancoRepository.rows then
        Err(Bancos.NaoEncontradoPorId(bancoId))
      else
        var rows := agenciaRepository.rows;
        var ks := Select(rows, (a: Agencia) => a.bancoId == bancoId, agenciaRepository.nextId);
        var r := Rows(rows, ks);
        RowsContainsKeys(rows, ks);
        Ok(r)
    }

    /**
     * The branch is looked up before the bank; when both exist, numero, nome and
     * bank are all replaced and the id is kept.
     */
    method Atualizar(id: int, dto: AgenciaDTO) returns (r: Result<Agencia>)
      requires Valid()
      modifies agenciaRepository
      ensures Valid()
      ensures id !in old(agenciaRepository.rows) ==>
        r == Err(NaoEncontradaPorId(id)) && unchanged(agenciaRepository)
      ensures id in old(agenciaRepository.rows) && dto.bancoId !in bancoRepository.rows ==>
        r == Err(Bancos.NaoEncontradoPorId(dto.bancoId)) && unchanged(agenciaRepository)
      ensures id in old(agenciaRepository.rows) && dto.bancoId in bancoRepository.rows ==>
        var nova := Agencia(Some(id), dto.numero, dto.nome, dto.bancoId);
        if old(agenciaRepository.Collides(nova)) then
          && r == Err(ViolacaoDeUnicidade("NUMERO"))
          && agenciaRepository.rows == old(agenciaRepository.rows)
          && agenciaRepository.nextId == old(agenciaRepository.nextId)
        else
          && r == Ok(nova)
          && agenciaRepository.rows == old(agenciaRepository.rows)[id := nova]
          && agenciaRepository.nextId == old(agenciaRepository.nextId)
    {
      var existente := BuscarPorId(id);
      if existente.Err? {
        return Err(existente.error);
      }
      if dto.bancoId !in bancoRepository.rows {
        return Err(Bancos.NaoEncontradoPorId(dto.bancoId));
      }
      var banco := bancoRepository.rows[dto.bancoId];
      var agencia := existente.value.(numero := dto.numero, nome := dto.nome, bancoId := banco.id.value);
      r := agenciaRepository.Save(agencia);
    }

    /** Removes exactly the branch with that id, which must exist. */
    method Deletar(id: int) returns (r: Result<()>)
      requires Valid()
      modifies agenciaRepository
      ensures Valid()
      ensures id !in old(agenciaRepository.rows) ==>
        r == Err(NaoEncontradaPorId(id)) && unchanged(agenciaRepository)
      ensures id in old(agenciaRepository.rows) ==>
        && r == Ok(())
        && agenciaRepository.rows == old(agenciaRepository.rows) - {id}
        && agenciaRepository.nextId == old(agenciaRepository.nextId)
    {
      if id !in agenciaRepository.rows {
        return Err(NaoEncontradaPorId(id));
      }
      agenciaRepository.DeleteById(id);
      r := Ok(());
    }
  }
}
