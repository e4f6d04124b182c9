# Notebook stock ledger

A Dafny model of the stock logic of the notebook-sales backend's batch service
(`LoteServiceImpl`). A notebook's stock is held in batches ("lotes"), each with
a `quantidade`. The service does two things with them:

- `verificarEstoque` reports a notebook's total stock. It rejects an unknown
  notebook. Otherwise it sums the quantities of the notebook's batches, which
  is 0 when there are none.
- `atualizarEstoque` removes a requested quantity from the notebook's batches.
  It walks them in the order the repository returns them. Each batch is either
  drained to zero or gives up the rest of the request. The walk stops as soon
  as nothing is owed. The method throws if there are no batches at all, and it
  throws after the walk if something is still owed. Each touched batch entity
  is updated in place and passed to `persist` inside the loop, so when the
  exception is raised the batches walked so far are already drained.

The repository lookups are inputs. "Does the notebook exist" is a boolean.
The batch list that the lookup by notebook returns is a sequence of quantities
in lookup order. In the in-place method, that list is an `array<int>` held by
the class `LoteLedger`, and updating a batch is the array write. The array is
the batch entities' in-memory state, including at the moment an exception is
raised; what the transaction does with that state afterwards is not modelled
(see Left out).

Files:

- `int32.dfy` (module `Int32`): the range of Java's `int` and its
  two's-complement wrap-around.
- `ledger.dfy` (module `Ledger`): the total `Sum`, and `Decrement`, the
  decrement pass as a function over the batch quantities. `Decrement` starts at
  batch `i` with `restante` still owed and moves one batch per step, exactly as
  the loop does. The lemmas state what that pass guarantees.
- `lote_service.dfy` (module `LoteService`): `VerificarEstoque` as a pure
  function. `LoteLedger.AtualizarEstoque` is the loop over the array, proved
  equal to `Decrement` and carrying the lemmas' guarantees in its contract.

Java integer widths are modelled explicitly. Batch quantities and the request
are `int`s. The loop in `atualizarEstoque` cannot overflow: its invariant keeps
`restante` either equal to the request or within `[0, quantidade]`. The stream
sum in `verificarEstoque` is `int` arithmetic and wraps past `INT_MAX` (see
Findings).

`atualizarEstoque` (LoteServiceImpl.java:102-107), unlike `verificarEstoque`,
never looks the notebook up. An unknown id fails there only because its batch
list is empty (NoLotes), so `AtualizarEstoque` has no "notebook exists" input.
A known notebook can fail in two ways: NoLotes when it has no batches, and
InsufficientStock after the walk when its batches cannot cover the request.

## Model

| member | source | states |
|---|---|---|
| `Int32.Wrap32` | src/main/java/br/unitins/tp1/notebooks/service/LoteServiceImpl.java:94-97 | the `int` that an exact sum becomes: in range, congruent to it modulo 2^32, and equal to it when it fits |
| `LoteService.VerificarEstoque` | src/main/java/br/unitins/tp1/notebooks/service/LoteServiceImpl.java:86-98 | unknown notebook (and only then) gives NotebookNotFound; otherwise Ok with an `int` congruent to the batch total modulo 2^32, equal to the total whenever the total fits in an `int`, and 0 for a notebook without batches; a function, so it has no side effects |
| `LoteService.VerificarEstoqueOverflows` | src/main/java/br/unitins/tp1/notebooks/service/LoteServiceImpl.java:94-97 | batches `[INT_MAX, 1]` are valid `int` quantities, yet the stock is reported as `INT_MIN`, while the exact total is `INT_MAX + 1` |
| `LoteService.VerificarEstoqueExato` | src/main/java/br/unitins/tp1/notebooks/service/LoteServiceImpl.java:86-98 | the intended total stock: NotebookNotFound exactly for an unknown notebook; otherwise a non-negative total, and 0 with no batches |
| `LoteService.VerificarEstoqueExatoAfterDecrement` | src/main/java/br/unitins/tp1/notebooks/service/LoteServiceImpl.java:86-133 | after a decrement the stock covers, every batch is still a valid `int` quantity, the exact total is the old total minus the request, and `verificarEstoque` reports that value whenever the old total fits in an `int` |
| `LoteService.LoteLedger.constructor` | src/main/java/br/unitins/tp1/notebooks/service/LoteServiceImpl.java:103 | the ledger holds exactly the quantities that the lookup by notebook returned, in lookup order |
| `LoteService.LoteLedger.AtualizarEstoque` | src/main/java/br/unitins/tp1/notebooks/service/LoteServiceImpl.java:101-134 | no batches: NoLotes, whatever the request; otherwise the array becomes the `Decrement` pass of the old quantities; success exactly when there are batches and the request is at most the old total; any other failure is InsufficientStock, and every batch is 0 in the batches' state at the throw; on success the total drops by exactly a non-negative request; a request ≤ 0 changes nothing; no batch gains stock or goes negative; once a batch keeps stock, every later batch is untouched |
| `Ledger.Decrement` | src/main/java/br/unitins/tp1/notebooks/service/LoteServiceImpl.java:109-129 | the pass keeps one quantity per batch: it never adds or removes batches |
| `Ledger.SumNonNegative` | src/main/java/br/unitins/tp1/notebooks/service/LoteServiceImpl.java:94-97 | the total of non-negative batches is non-negative |
| `Ledger.DecrementBounds` | src/main/java/br/unitins/tp1/notebooks/service/LoteServiceImpl.java:118-126 | every batch ends between 0 and its old quantity |
| `Ledger.DecrementConserves` | src/main/java/br/unitins/tp1/notebooks/service/LoteServiceImpl.java:109-129 | what is still owed plus what was taken from the batches equals what was owed at the start, for any input |
| `Ledger.DecrementRestante` | src/main/java/br/unitins/tp1/notebooks/service/LoteServiceImpl.java:109-133 | a request ≤ 0 leaves batches and `restante` unchanged; otherwise the amount still owed is 0 when the stock covers the request and exactly the shortfall when it does not |
| `Ledger.DecrementPrefix` | src/main/java/br/unitins/tp1/notebooks/service/LoteServiceImpl.java:111-126 | batches before the starting point are untouched; once a batch is left holding stock, every later batch is exactly as it was |
| `Ledger.DecrementShortfall` | src/main/java/br/unitins/tp1/notebooks/service/LoteServiceImpl.java:128-133 | owing more than the stock drains every remaining batch to 0 |
| `Ledger.DecrementOutcome` | src/main/java/br/unitins/tp1/notebooks/service/LoteServiceImpl.java:109-133 | for the whole pass: the bounds, "something still owed iff request > total", all batches drained on a shortfall, the total drops by exactly the request when covered, a request ≤ 0 changes nothing, and only a prefix is touched |
| `Ledger.PartialScenario` | src/main/java/br/unitins/tp1/notebooks/service/LoteServiceImpl.java:109-133 | batches [5, 3] and request 6 end as [0, 2] with nothing owed |
| `Ledger.ShortfallScenario` | src/main/java/br/unitins/tp1/notebooks/service/LoteServiceImpl.java:109-133 | batches [5, 3] and request 10 end as [0, 0] with 2 still owed, which makes the call throw |

## Findings

| source | as written | input that shows it | evidently intended | confidence | as-written member | corrected member |
|---|---|---|---|---|---|---|
| src/main/java/br/unitins/tp1/notebooks/service/LoteServiceImpl.java:94-97 | the total stock is `mapToInt(...).sum()`, which adds in 32-bit `int` and wraps silently | two batches of 2147483647 and 1 units: reported stock is -2147483648 | the exact total, 2147483648, which is never negative | medium, not executed (needs more than 2^31 - 1 units of one notebook) | `LoteService.VerificarEstoqueOverflows` | `LoteService.VerificarEstoqueExato` |

The rest of the model measures stock with the exact `Ledger.Sum`. That covers
conservation, the success condition and `VerificarEstoqueExatoAfterDecrement`.

## Left out

- `findAll`, `findById`, `create`, `update` and `delete` are not modelled. They are repository calls plus DTO mapping, with no logic of their own.
- `loteRepository.persist` and the `@Transactional` boundary are not modelled. An updated batch is the in-place array write.
- The container rolls back the drained batches on InsufficientStock, and that rollback is not modelled. `atualizarEstoque` is `@Transactional` (LoteServiceImpl.java:101) and throws an `IllegalArgumentException`, a `RuntimeException` (:132). By default that marks the transaction for rollback, so the store keeps the old quantities when the call goes through the interceptor. The model's array is the batch entities' state at the moment of the throw, not what the store holds after the rollback.
- Concurrent decrements and transaction isolation are not modelled. The code does no coordination of its own.
- Dependency injection and the exception message strings are not modelled. The exceptions are the three `Error` values.
- `ItemPedido` is not modelled. It is an entity with accessors only, and its price is a floating-point `double`.
- The `Lote` entity is not part of this model. Its `quantidade` is taken to be a Java `int`, as `mapToInt` and `int quantidadeLote` read it. A null boxed quantity is not considered.
- `LoteService.LoteLedger.AtualizarEstoque` requires every initial batch quantity to be non-negative. The code relies on this but does not check it: a negative batch would make `restante` grow.
