# Banking back end: service layer in Dafny

This project models the service layer of a small banking back end (package
`com.org.fundatec.sistemabancario`). The layer sits over four keyed stores: banks
(`Banco`), branches (`Agencia`), customers (`Cliente`) and accounts (`Conta`).

- **Account ledger** (`ContaService`, module `Contas`). It opens accounts once the
  customer and the branch resolve, deposits and withdraws, looks accounts up by
  number and deletes them by id.
- **Registries** for branches, banks and customers (`AgenciaService`,
  `BancoService`, `ClienteService`; modules `Agencias`, `Bancos`, `Clientes`).
- **Exception handler** (`RestExceptionHandler`, module `ExceptionHandler`). It
  turns a thrown exception into an HTTP status and an `ErroResponse` body.
- **The `Conta` entity** (module `Model`): its default balance, its constructor,
  `setSaldo` and `equals`.

How the model is built:

- **Repositories** (module `Repositories`). Each Spring Data repository is a class
  that owns a `map<int, Row>` and the next identity value (`IDENTITY` ids start at
  1). `save` inserts a row that has no id under a fresh id. It replaces a row
  that has one.
- **Store invariant** (`Valid()`). Every key is below the next identity value. Every
  row's id is its key. Every unique column (`Banco.codigo`, `Agencia.numero`,
  `Cliente.cpf`, `Conta.numero`) holds each value at most once. Every account
  balance is non-negative (`@PositiveOrZero`, `Conta.java:22`).
- **Unique columns.** The services never check them. The database does, and a
  duplicate makes `save` fail with an unclassified exception. The model writes
  this as `Outra(...)`, which the handler turns into the generic 500.
- **Exceptions** are values of type `Excecao`. A service returns
  `Result<T> = Ok(value) | Err(error)` where Java throws.
- **Money** is `Decimal(unscaled, scale)`, an exact model of `java.math.BigDecimal`:
  - `add` and `subtract` are exact and use the larger scale;
  - `compareTo` compares numerically;
  - `equals` also compares the scale, so 700 and 700.00 differ (`EqualsIsScaleSensitive`).
  
  The ghost function `Value` gives the rational number a decimal denotes. The
  ledger's contracts are stated in terms of `Value`.
- **Ledger specification.** Deposits and withdrawals are specified by pure functions
  (`Deposito`, `Saque`) on the map of accounts. The methods `Depositar` and
  `Sacar` take the same steps against the repository (look up, `setSaldo`,
  `save`) and are proved to produce the same outcome and the same accounts.
- **Error messages** are built exactly as the source builds them, e.g.
  `"Conta não encontrada com ID: " + id`.

Facts about the code that shape the model:

- There is no Conflict error. A duplicate unique value surfaces as the
  database's exception, which the catch-all handler answers with 500.
- Of the bank's columns only `codigo` is unique (`Banco.java:19`); `cnpj` is not
  (`Banco.java:26-29`).
- `salvar` of an account ignores the request's `saldo` (`ContaService.java:39`).
  A new account starts at `BigDecimal.ZERO` (`Conta.java:24`).
- A field-error message puts `"; "` after every entry, trailing space included
  (`RestExceptionHandler.java:41`, `MensagemTerminaComSeparador`). Yet
  `BancoControllerTest.java:64` expects `"nome - Nome é obrigatório;"`.

## Model

| member | source | states |
|---|---|---|
| `Decimals.AddValue` | src/main/java/com/org/fundatec/sistemabancario/service/ContaService.java:67 | `add` is exact: the value of the sum is the sum of the values |
| `Decimals.SubtractValue` | src/main/java/com/org/fundatec/sistemabancario/service/ContaService.java:80 | `subtract` is exact: the value of the difference is the difference of the values |
| `Decimals.CompareToValue` | src/main/java/com/org/fundatec/sistemabancario/service/ContaService.java:81 | `compareTo` is negative, zero or positive exactly when the first value is below, equal to or above the second, whatever the scales |
| `Decimals.CompareToZero` | src/main/java/com/org/fundatec/sistemabancario/service/ContaService.java:60 | `x.compareTo(ZERO)` is the sign of `x`, and that sign is the sign of its value |
| `Decimals.NonNegativeValue` | src/main/java/com/org/fundatec/sistemabancario/model/Conta.java:22 | `@PositiveOrZero` holds exactly of the decimals whose value is at least zero |
| `Decimals.EqualsIsScaleSensitive` | src/main/java/com/org/fundatec/sistemabancario/model/Conta.java:91 | `equals` holds exactly when two decimals compare equal and have the same scale, so 700 and 700.00 compare equal but are not `equals` |
| `Decimals.AddTwiceCommutes` | src/main/java/com/org/fundatec/sistemabancario/service/ContaService.java:67 | adding two amounts to a balance gives the same BigDecimal, scale included, in either order |
| `Decimals.AddThenSubtract` | src/main/java/com/org/fundatec/sistemabancario/service/ContaService.java:80 | subtracting an amount just added restores the original value |
| `Decimals.AddNonNegative` | src/main/java/com/org/fundatec/sistemabancario/service/ContaService.java:67 | a non-negative balance plus a non-negative amount is non-negative |
| `Text.EmptyQueryMatchesAll` | src/main/java/com/org/fundatec/sistemabancario/repository/BancoRepository.java:12 | the empty name query matches every name |
| `Text.SubstringMatches` | src/main/java/com/org/fundatec/sistemabancario/repository/BancoRepository.java:12 | a name that contains the query exactly is matched |
| `Text.MatchIgnoresCase` | src/main/java/com/org/fundatec/sistemabancario/repository/BancoRepository.java:12 | upper-casing the name or the query does not change whether it matches |
| `Tables.Select` | src/main/java/com/org/fundatec/sistemabancario/repository/AgenciaRepository.java:12 | a derived list query returns exactly the stored keys whose rows satisfy the filter, each once, in ascending order |
| `Tables.First` | src/main/java/com/org/fundatec/sistemabancario/repository/BancoRepository.java:11 | a derived single-row query finds the matching row with the smallest key when one exists, and reports that none exists otherwise |
| `Model.NovaConta` | src/main/java/com/org/fundatec/sistemabancario/model/Conta.java:39-43 | a new account has no id, the given numero, customer and branch, and balance zero, so it meets `@PositiveOrZero` |
| `Model.SetSaldo` | src/main/java/com/org/fundatec/sistemabancario/model/Conta.java:65-67 | `setSaldo` sets the balance and leaves every other field as it was |
| `Model.Equals` | src/main/java/com/org/fundatec/sistemabancario/model/Conta.java:85-94 | `equals` is false for null and for another class, and otherwise true exactly when all five fields are equal |
| `Repositories.BancoRepository.Save` | src/main/java/com/org/fundatec/sistemabancario/model/Banco.java:19 | save fails, changing nothing, when another bank has the same codigo; otherwise it inserts under a fresh id or replaces the row; the store invariant is kept |
| `Repositories.BancoRepository.DeleteById` | src/main/java/com/org/fundatec/sistemabancario/service/BancoService.java:63 | removes that id and nothing else |
| `Repositories.AgenciaRepository.Save` | src/main/java/com/org/fundatec/sistemabancario/model/Agencia.java:18-19 | as for banks, with the unique branch numero |
| `Repositories.AgenciaRepository.DeleteById` | src/main/java/com/org/fundatec/sistemabancario/service/AgenciaService.java:74 | removes that id and nothing else |
| `Repositories.ClienteRepository.Save` | src/main/java/com/org/fundatec/sistemabancario/model/Cliente.java:19 | as for banks, with the unique cpf |
| `Repositories.ClienteRepository.DeleteById` | src/main/java/com/org/fundatec/sistemabancario/service/ClienteService.java:57 | removes that id and nothing else |
| `Repositories.ContaRepository.Save` | src/main/java/com/org/fundatec/sistemabancario/model/Conta.java:19-24 | as for banks, with the unique account numero; only non-negative balances are ever stored |
| `Repositories.ContaRepository.DeleteById` | src/main/java/com/org/fundatec/sistemabancario/service/ContaService.java:55 | removes that id and nothing else |
| `Bancos.BancoService.Salvar` | src/main/java/com/org/fundatec/sistemabancario/service/BancoService.java:19-26 | stores a new bank whose codigo, nome and cnpj are the request's, under a fresh id; a duplicate codigo fails and stores nothing |
| `Bancos.BancoService.BuscarPorId` | src/main/java/com/org/fundatec/sistemabancario/service/BancoService.java:28-31 | returns the stored bank, whose id is the one asked for, exactly when the id exists; otherwise fails with NotFound |
| `Bancos.BancoService.BuscarPorCodigo` | src/main/java/com/org/fundatec/sistemabancario/service/BancoService.java:33-36 | succeeds exactly when some bank has that codigo and then returns the only such bank; otherwise fails with NotFound |
| `Bancos.BancoService.BuscarPorNome` | src/main/java/com/org/fundatec/sistemabancario/service/BancoService.java:38-40 | never fails; returns exactly the stored banks whose nome contains the query ignoring case, each once |
| `Bancos.BancoService.ListarTodos` | src/main/java/com/org/fundatec/sistemabancario/service/BancoService.java:42-44 | returns every stored bank, each once, and nothing else |
| `Bancos.BancoService.Atualizar` | src/main/java/com/org/fundatec/sistemabancario/service/BancoService.java:46-56 | fails with NotFound, changing nothing, on an absent id; otherwise replaces all three fields and keeps the id |
| `Bancos.BancoService.Deletar` | src/main/java/com/org/fundatec/sistemabancario/service/BancoService.java:58-64 | fails with NotFound and deletes nothing on an absent id; otherwise removes exactly that bank |
| `Clientes.ClienteService.Salvar` | src/main/java/com/org/fundatec/sistemabancario/service/ClienteService.java:19-25 | stores a new customer with the request's cpf and nome under a fresh id; a duplicate cpf fails and stores nothing |
| `Clientes.ClienteService.BuscarPorId` | src/main/java/com/org/fundatec/sistemabancario/service/ClienteService.java:27-30 | returns the stored customer exactly when the id exists; otherwise fails with NotFound |
| `Clientes.ClienteService.BuscarPorCpf` | src/main/java/com/org/fundatec/sistemabancario/service/ClienteService.java:32-35 | succeeds exactly when some customer has that cpf and then returns the only such customer; otherwise fails with NotFound |
| `Clientes.ClienteService.BuscarPorNome` | src/main/java/com/org/fundatec/sistemabancario/service/ClienteService.java:37-39 | never fails; returns exactly the customers whose nome contains the query ignoring case, each once |
| `Clientes.ClienteService.Atualizar` | src/main/java/com/org/fundatec/sistemabancario/service/ClienteService.java:41-50 | fails with NotFound on an absent id; otherwise replaces cpf and nome and keeps the id |
| `Clientes.ClienteService.Deletar` | src/main/java/com/org/fundatec/sistemabancario/service/ClienteService.java:52-58 | fails with NotFound on an absent id; otherwise removes exactly that customer |
| `Agencias.AgenciaService.Salvar` | src/main/java/com/org/fundatec/sistemabancario/service/AgenciaService.java:24-35 | an absent bank fails with NotFound and stores nothing; otherwise stores a branch with the request's numero and nome that references the resolved bank |
| `Agencias.AgenciaService.BuscarPorId` | src/main/java/com/org/fundatec/sistemabancario/service/AgenciaService.java:37-40 | returns the stored branch exactly when the id exists; otherwise fails with NotFound |
| `Agencias.AgenciaService.BuscarPorNumero` | src/main/java/com/org/fundatec/sistemabancario/service/AgenciaService.java:42-45 | succeeds exactly when some branch has that numero and then returns the only such branch; otherwise fails with NotFound |
| `Agencias.AgenciaService.BuscarPorBanco` | src/main/java/com/org/fundatec/sistemabancario/service/AgenciaService.java:47-52 | fails with NotFound exactly when the bank is absent; otherwise returns exactly the branches of that bank, possibly none |
| `Agencias.AgenciaService.Atualizar` | src/main/java/com/org/fundatec/sistemabancario/service/AgenciaService.java:54-67 | checks the branch before the bank, and either missing one fails with NotFound and changes nothing; otherwise replaces numero, nome and bank and keeps the id |
| `Agencias.AgenciaService.Deletar` | src/main/java/com/org/fundatec/sistemabancario/service/AgenciaService.java:69-75 | fails with NotFound on an absent id; otherwise removes exactly that branch |
| `Contas.ConverterParaDTO` | src/main/java/com/org/fundatec/sistemabancario/service/ContaService.java:89-96 | the DTO carries the account's id, numero, saldo, customer id and branch id |
| `Contas.Deposito` | src/main/java/com/org/fundatec/sistemabancario/service/ContaService.java:58-69 | succeeds exactly when the amount is positive and the account exists. A non-positive amount fails InvalidOperation before any lookup, and an absent account fails NotFound; a failure changes nothing. On success the balance grows by exactly the amount, at the larger of the two scales (500.00 + 200.00 is 700.00), and no other field or account changes |
| `Contas.Saque` | src/main/java/com/org/fundatec/sistemabancario/service/ContaService.java:71-87 | succeeds exactly when the amount is positive, the account exists and the amount is at most the balance, so the whole balance may be withdrawn. A larger amount fails InvalidOperation ("Saldo insuficiente") and changes nothing. On success the balance shrinks by exactly the amount, at the larger of the two scales, and nothing else changes |
| `Contas.DepositoPreservaSaldos` | src/main/java/com/org/fundatec/sistemabancario/service/ContaService.java:58-69 | a deposit keeps every balance non-negative |
| `Contas.SaquePreservaSaldos` | src/main/java/com/org/fundatec/sistemabancario/service/ContaService.java:71-87 | a withdrawal keeps every balance non-negative |
| `Contas.DepositosComutam` | src/main/java/com/org/fundatec/sistemabancario/service/ContaService.java:67-68 | the two serial orders of two deposits give the same accounts and the same outcome for each deposit |
| `Contas.DepositoDepoisSaque` | src/main/java/com/org/fundatec/sistemabancario/service/ContaService.java:58-87 | withdrawing an amount just deposited succeeds and restores the balance's value, touching nothing else |
| `Contas.ContaService.Salvar` | src/main/java/com/org/fundatec/sistemabancario/service/ContaService.java:31-42 | resolves the customer, then the branch, and a missing one fails with NotFound and saves nothing. Otherwise it stores a new account with balance zero, ignoring the request's saldo, and returns its stored id, numero, saldo, customer id and branch id |
| `Contas.ContaService.BuscarPorNumero` | src/main/java/com/org/fundatec/sistemabancario/service/ContaService.java:44-48 | succeeds exactly when an account has that number and returns that account's DTO, whose balance is non-negative; otherwise fails with NotFound |
| `Contas.ContaService.Deletar` | src/main/java/com/org/fundatec/sistemabancario/service/ContaService.java:50-56 | fails with NotFound and removes nothing on an absent id; otherwise removes exactly that account, whatever its balance |
| `Contas.ContaService.Depositar` | src/main/java/com/org/fundatec/sistemabancario/service/ContaService.java:58-69 | has the outcome and leaves the accounts of `Deposito`, keeping the store invariant, non-negative balances included |
| `Contas.ContaService.Sacar` | src/main/java/com/org/fundatec/sistemabancario/service/ContaService.java:71-87 | has the outcome and leaves the accounts of `Saque`, keeping the store invariant, non-negative balances included |
| `ExceptionHandler.TrataEntidadeNaoEncontrada` | src/main/java/com/org/fundatec/sistemabancario/exception/handler/RestExceptionHandler.java:17-22 | NotFound answers 404 with body `{404, exception message}` |
| `ExceptionHandler.TrataOperacaoInvalida` | src/main/java/com/org/fundatec/sistemabancario/exception/handler/RestExceptionHandler.java:24-29 | InvalidOperation and Validation answer 400 with body `{400, exception message}` |
| `ExceptionHandler.MensagemDeCampos` | src/main/java/com/org/fundatec/sistemabancario/exception/handler/RestExceptionHandler.java:34-42 | the field-error message is empty exactly when there are no field errors |
| `ExceptionHandler.MensagemDeCamposAppend` | src/main/java/com/org/fundatec/sistemabancario/exception/handler/RestExceptionHandler.java:35-42 | one more field error appends exactly `field + " - " + message + "; "` |
| `ExceptionHandler.MensagemDeCamposConcat` | src/main/java/com/org/fundatec/sistemabancario/exception/handler/RestExceptionHandler.java:35-42 | the message for a concatenation of error lists is the concatenation of their messages, so entries keep their order |
| `ExceptionHandler.MensagemTerminaComSeparador` | src/main/java/com/org/fundatec/sistemabancario/exception/handler/RestExceptionHandler.java:41 | a non-empty message ends in `"; "`, trailing space included |
| `ExceptionHandler.HandleValidationExceptions` | src/main/java/com/org/fundatec/sistemabancario/exception/handler/RestExceptionHandler.java:31-45 | the message built by the loop is the list's field-error message, with status 400 and the same code in the body |
| `ExceptionHandler.TrataErroGenerico` | src/main/java/com/org/fundatec/sistemabancario/exception/handler/RestExceptionHandler.java:47-54 | any other exception answers 500 with the fixed generic message, whatever the exception says |
| `ExceptionHandler.Trata` | src/main/java/com/org/fundatec/sistemabancario/exception/handler/RestExceptionHandler.java:14-55 | the body's code always equals the status. The status is 404 exactly for NotFound, 500 exactly for an unclassified exception, and 400 otherwise. The catch-all never passes on the exception's message |

## Left out

- Controllers, HTTP routing, status codes of successful calls, and request
  binding: these belong to the web framework. In particular, the controller's
  call `depositar(numeroConta, valor)` matches no service method. The model keeps
  the service's id-keyed `depositar(OperacaoBancariaDTO)`.
- Bean validation of requests and entities: `@NotNull`, `@NotBlank`, `@Positive`,
  and the CPF/CNPJ checksums of `@CPF`/`@CNPJ`. That is library code. Requests are
  taken as already validated, and null fields cannot be written. The one entity
  constraint the ledger must keep, `@PositiveOrZero` on `saldo`, is part of the
  store invariant.
- Foreign-key constraints and cascades on delete: a database concern the services
  never check. Deletes here are unconditional, so a dangling reference can remain.
  For the same reason the store invariant says nothing about references.
- `@Transactional`, isolation and concurrent requests: each operation is one atomic
  step. `DepositosComutam` shows only that the serial orders of two deposits agree.
  The source takes no row lock and has no version column: `depositar` and `sacar`
  read the row, compute the balance in memory and save it. So concurrent deposits
  or withdrawals on one account can lose an update, which the model does not capture.
- The text of the database's unique-constraint error. The model uses a message of
  its own, and the handler hides it anyway. It also does not model identity values
  consumed by a failed insert.
- Repositories.BancoRepository.Save, Repositories.AgenciaRepository.Save,
  Repositories.ClienteRepository.Save, Repositories.ContaRepository.Save: each
  requires that an entity carrying an id is already stored. This rules out a merge
  that inserts, which no service performs.
- The JPA persistence context: managed entities, dirty checking, and the aliasing
  of a loaded entity with the stored row. Setters become record updates that
  `save` writes back. References between entities are held as ids, the
  join-column values. So `Conta.equals` compares the customer and branch ids
  rather than calling `Cliente.equals` and `Agencia.equals` on loaded objects.
- The `ClienteRepository` interface is modelled from the queries `ClienteService`
  and `ContaService` call (`findById`, `findByCpf`, `findByNomeContainingIgnoreCase`).
- `ContaDTO.java` as written has neither an id field nor a five-argument
  constructor, yet `ContaService` uses both. The model uses the shape the service
  uses.
- BigDecimal values with a negative scale (e.g. `1E+3`), `MathContext` rounding,
  and null amounts.
- Case folding for the `IgnoreCase` queries: only `a`–`z` and the Latin-1 letters
  `à`–`þ` (but not `÷`) are upper-cased. `ÿ`, `ß`, `µ` and every character outside
  Latin-1 are compared as they are, although Java upper-cases `ÿ` to `Ÿ` and `ß` to `SS`.
- The SALDO column's precision and scale (`Conta.java:23` declares none), and the
  rounding the database applies when it stores a value, are not modelled. The stored
  balance is the exact BigDecimal.
- Row order of list queries: the database promises none. The model returns rows
  in ascending id order.
- The cast `(FieldError) error` in the field-error handler: global (non-field)
  binding errors and null default messages are not modelled.
- `hashCode`, the getters and setters of `ErroResponse`, the no-argument
  constructors, and the `BancoServiceTest` return types, which do not match
  `BancoService`.
