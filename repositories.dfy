/**
 * The four Spring Data repositories as keyed stores. Each owns a map from id to
 * row and the next identity value (GenerationType.IDENTITY, starting at 1).
 * `save` inserts a row without id under a fresh id and replaces a row that has
 * one; the database's unique constraint makes `save` fail when another row
 * already holds the same value in the unique column.
 */
module Repositories {
  import opened Wrappers
  import opened Model
  import opened Exceptions

  /** The failure the database reports for a unique-constraint violation. */
  function ViolacaoDeUnicidade(coluna: string): Excecao
  {
    Outra("unique constraint violated: " + coluna)
  }

  class BancoRepository {
    var rows: map<int, Banco>
    var nextId: int

    ghost predicate Valid()
      reads this
    {
      && 1 <= nextId
      && (forall k :: k in rows ==> 1 <= k < nextId && rows[k].id == Some(k))
      && (forall j, k :: j in rows && k in rows && rows[j].codigo == rows[k].codigo ==> j == k)
    }

    constructor ()
      ensures Valid() && rows == map[] && nextId == 1
    {
      rows := map[];
      nextId := 1;
    }

    /** Some other row already has `b`'s codigo. */
    predicate Collides(b: Banco)
      reads this
    {
      exists k :: k in rows && Some(k) != b.id && rows[k].codigo == b.codigo
    }

    method Save(b: Banco) returns (r: Result<Banco>)
      requires Valid()
      requires b.id.Some? ==> b.id.value in rows
      modifies this
      ensures Valid()
      ensures old(Collides(b)) ==>
        r == Err(ViolacaoDeUnicidade("CODIGO")) && rows == old(rows) && nextId == old(nextId)
      ensures !old(Collides(b)) && b.id.None? ==>
        && r == Ok(b.(id := Some(old(nextId))))
        && rows == old(rows)[old(nextId) := r.value]
        && nextId == old(nextId) + 1
      ensures !old(Collides(b)) && b.id.Some? ==>
        r == Ok(b) && rows == old(rows)[b.id.value := b] && nextId == old(nextId)
    {
      if Collides(b) {
        r := Err(ViolacaoDeUnicidade("CODIGO"));
      } else if b.id.None? {
        var saved := b.(id := Some(nextId));
        rows := rows[nextId := saved];
        nextId := nextId + 1;
        r := Ok(saved);
      } else {
        rows := rows[b.id.value := b];
        r := Ok(b);
      }
    }

    method DeleteById(id: int)
      requires Valid()
      modifies this
      ensures Valid()
      ensures rows == old(rows) - {id} && nextId == old(nextId)
    {
      rows := rows - {id};
    }
  }

  class AgenciaRepository {
    var rows: map<int, Agencia>
    var nextId: int

    ghost predicate Valid()
      reads this
    {
      && 1 <= nextId
      && (forall k :: k in rows ==> 1 <= k < nextId && rows[k].id == Some(k))
      && (forall j, k :: j in rows && k in rows && rows[j].numero == rows[k].numero ==> j == k)
    }

    constructor ()
      ensures Valid() && rows == map[] && nextId == 1
    {
      rows := map[];
      nextId := 1;
    }

    /** Some other row already has `a`'s numero. */
    predicate Collides(a: Agencia)
      reads this
    {
      exists k :: k in rows && Some(k) != a.id && rows[k].numero == a.numero
    }

    method Save(a: Agencia) returns (r: Result<Agencia>)
      requires Valid()
      requires a.id.Some? ==> a.id.value in rows
      modifies this
      ensures Valid()
      ensures old(Collides(a)) ==>
        r == Err(ViolacaoDeUnicidade("NUMERO")) && rows == old(rows) && nextId == old(nextId)
      ensures !old(Collides(a)) && a.id.None? ==>
        && r == Ok(a.(id := Some(old(nextId))))
        && rows == old(rows)[old(nextId) := r.value]
        && nextId == old(nextId) + 1
      ensures !old(Collides(a)) && a.id.Some? ==>
        r == Ok(a) && rows == old(rows)[a.id.value := a] && nextId == old(nextId)
    {
      if Collides(a) {
        r := Err(ViolacaoDeUnicidade("NUMERO"));
      } else if a.id.None? {
        var saved := a.(id := Some(nextId));
        rows := rows[nextId := saved];
        nextId := nextId + 1;
        r := Ok(saved);
      } else {
        rows := rows[a.id.value := a];
        r := Ok(a);
      }
    }

    method DeleteById(id: int)
      requires Valid()
      modifies this
      ensures Valid()
      ensures rows == old(rows) - {id} && nextId == old(nextId)
    {
      rows := rows - {id};
    }
  }

  class ClienteRepository {
    var rows: map<int, Cliente>
    var nextId: int

    ghost predicate Valid()
      reads this
    {
      && 1 <= nextId
      && (forall k :: k in rows ==> 1 <= k < nextId && rows[k].id == Some(k))
      && (forall j, k :: j in rows && k in rows && rows[j].cpf == rows[k].cpf ==> j == k)
    }

    constructor ()
      ensures Valid() && rows == map[] && nextId == 1
    {
      rows := map[];
      nextId := 1;
    }

    /** Some other row already has `c`'s cpf. */
    predicate Collides(c: Cliente)
      reads this
    {
      exists k :: k in rows && Some(k) != c.id && rows[k].cpf == c.cpf
    }

    method Save(c: Cliente) returns (r: Result<Cliente>)
      requires Valid()
      requires c.id.Some? ==> c.id.value in rows
      modifies this
      ensures Valid()
      ensures old(Collides(c)) ==>
        r == Err(ViolacaoDeUnicidade("CPF")) && rows == old(rows) && nextId == old(nextId)
      ensures !old(Collides(c)) && c.id.None? ==>
        && r == Ok(c.(id := Some(old(nextId))))
        && rows == old(rows)[old(nextId) := r.value]
        && nextId == old(nextId) + 1
      ensures !old(Collides(c)) && c.id.Some? ==>
        r == Ok(c) && rows == old(rows)[c.id.value := c] && nextId == old(nextId)
    {
      if Collides(c) {
        r := Err(ViolacaoDeUnicidade("CPF"));
      } else if c.id.None? {
        var saved := c.(id := Some(nextId));
        rows := rows[nextId := saved];
        nextId := nextId + 1;
        r := Ok(saved);
      } else {
        rows := rows[c.id.value := c];
        r := Ok(c);
      }
    }

    method DeleteById(id: int)
      requires Valid()
      modifies this
      ensures Valid()
      ensures rows == old(rows) - {id} && nextId == old(nextId)
    {
      rows := rows - {id};
    }
  }

  /** Accounts additionally keep every balance non-negative (`@PositiveOrZero`). */
  class ContaRepository {
    var rows: map<int, Conta>
    var nextId: int

    ghost predicate Valid()
      reads this
    {
      && 1 <= nextId
      && (forall k :: k in rows ==> 1 <= k < nextId && rows[k].id == Some(k))
      && (forall j, k :: j in rows && k in rows && rows[j].numero == rows[k].numero ==> j == k)
      && (forall k :: k in rows ==> SaldoValido(rows[k]))
    }

    constructor ()
      ensures Valid() && rows == map[] && nextId == 1
    {
      rows := map[];
      nextId := 1;
    }

    /** Some other row already has `c`'s numero. */
    predicate Collides(c: Conta)
      reads this
    {
      exists k :: k in rows && Some(k) != c.id && rows[k].numero == c.numero
    }

    method Save(c: Conta) returns (r: Result<Conta>)
      requires Valid()
      requires c.id.Some? ==> c.id.value in rows
      requires SaldoValido(c)
      modifies this
      ensures Valid()
      ensures old(Collides(c)) ==>
        r == Err(ViolacaoDeUnicidade("NUMERO")) && rows == old(rows) && nextId == old(nextId)
      ensures !old(Collides(c)) && c.id.None? ==>
        && r == Ok(c.(id := Some(old(nextId))))
        && rows == old(rows)[old(nextId) := r.value]
        && nextId == old(nextId) + 1
      ensures !old(Collides(c)) && c.id.Some? ==>
        r == Ok(c) && rows == old(rows)[c.id.value := c] && nextId == old(nextId)
    {
      if Collides(c) {
        r := Err(ViolacaoDeUnicidade("NUMERO"));
      } else if c.id.None? {
        var saved := c.(id := Some(nextId));
        rows := rows[nextId := saved];
        nextId := nextId + 1;
        r := Ok(saved);
      } else {
        rows := rows[c.id.value := c];
        r := Ok(c);
      }
    }

    method DeleteById(id: int)
      requires Valid()
      modifies this
      ensures Valid()
      ensures rows == old(rows) - {id} && nextId == old(nextId)
    {
      rows := rows - {id};
    }
  }
}
