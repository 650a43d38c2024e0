# mybooks-api catalog store, modelled in Dafny

This project models the catalog store of a personal book-catalog API. It covers
two pieces of the Java code:

- `LivroService` keeps the catalog as a JSON file holding a list of `Livro`
  records. Every operation loads the whole list from the file and works on it
  in memory. When it changes something, it writes the whole list back.
- `Livro` is the mutable book object, with a no-argument constructor that gives
  each new book a freshly generated id.

Files:

- `wrappers.dfy`: `Option` and `Result`. These replace `Optional`, `null` and
  the thrown `RuntimeException`s.
- `livro.dfy` (module `Model`): the value `LivroRecord`, the class `Livro`
  with its getters and setters, and `UuidSource`, which stands for
  `UUID.randomUUID()`.
- `catalog.dfy` (module `Catalog`): the list operations the service relies on.
  These are the first match of `stream().filter(...).findFirst()`,
  `List.remove(Object)`, `List.removeIf` and the catalog that an update leaves
  behind. The lemmas about lookup, add, update, delete and id uniqueness are
  here too.
- `service.dfy` (module `Service`): the backing file as the abstract state
  `Missing | Empty | Stored(livros) | Corrupt`, and the class `LivroService`.
  That class holds this state and has one method per service operation.
- `scenarios.dfy` (module `Scenarios`): sample catalog scenarios, written as
  methods whose assertions the verifier proves. They cover adding "Dune" to an empty
  catalog, update-then-lookup, deleting an absent id, and two freshly
  constructed books keeping the ids unique.

Modelling choices:

- The file and the in-memory list hold `LivroRecord` values. A list that Java
  writes out is a snapshot of its objects' fields, and `Livro.Record()` is that
  snapshot. `AdicionarLivro` and `AtualizarLivro` take and return `Livro`
  objects, as the Java methods do, and return the very object they were
  given. `CarregarLivros` and `BuscarPorId` return `LivroRecord` values where
  Java returns freshly decoded `Livro` objects; no caller can tell them
  apart, because nothing else holds those objects.
- Java's `livros.remove(livroExistente.get())` removes by `Object.equals`.
  `Livro` does not override `equals`, so this is identity. The model removes
  the first value-equal element. The two coincide because the element removed
  is the first one with its id: any earlier equal element would have that id
  too. `Catalog.RemoveFirstAtFirstIndex` proves that the removal takes out
  exactly the element at the first match.
- A file that holds only whitespace is not `isEmpty()`, so the JSON decoder
  reads it and fails. It therefore belongs to `Corrupt`, not to `Empty`.
- `adicionarLivro` never assigns an id. Every id comes from the `Livro`
  constructor or from `setId`.
- Nothing in the code keeps ids unique. `Catalog.AppendUnique` says exactly
  when an add keeps them unique, and `Catalog.FindAfterAppend` shows that an
  added duplicate is hidden from lookup.

## Model

| member | source | states |
|---|---|---|
| Service.LivroService.CarregarLivros | src/main/java/br/com/gabs/mybooks_api/service/LivroService.java:38-53 | A missing or zero-length file loads as the empty catalog (not an error); a stored catalog loads as itself; undecodable content fails with the load error |
| Service.LivroService.SalvarLivros | src/main/java/br/com/gabs/mybooks_api/service/LivroService.java:56-63 | The backing file is overwritten in full with the given list |
| Service.LivroService.BuscarPorId | src/main/java/br/com/gabs/mybooks_api/service/LivroService.java:66-70 | Fails only on an unreadable file; otherwise returns nothing exactly when no record has the id, else the record at the first position holding that id; it has no write effect (no modifies clause) |
| Service.LivroService.AdicionarLivro | src/main/java/br/com/gabs/mybooks_api/service/LivroService.java:73-78 | Stored catalog becomes old catalog + [the book], with every earlier record at its old position, no id check, and the same object is returned; afterwards the ids are unique if and only if they were before and the new id was absent; an unreadable file fails with storage unchanged |
| Service.LivroService.AtualizarLivro | src/main/java/br/com/gabs/mybooks_api/service/LivroService.java:81-98 | With the id present: stored catalog becomes `Updated(old, book)` and the same object is returned, and on unique ids the ids stay unique and a lookup of the id then finds the new record; with the id absent: NotFound(id) and storage unchanged; unreadable file: load error, storage unchanged |
| Service.LivroService.ExcluirLivro | src/main/java/br/com/gabs/mybooks_api/service/LivroService.java:101-110 | With the id present: stored catalog becomes the old one without every record of that id; absent: NotFound(id) and storage unchanged; unreadable file: load error, storage unchanged; unique ids stay unique |
| Catalog.FirstIndex | src/main/java/br/com/gabs/mybooks_api/service/LivroService.java:84-86 | The position found is the first holding the id: no earlier record has it, the record there has it, and it is inside the list exactly when the id is present |
| Catalog.FindFirst | src/main/java/br/com/gabs/mybooks_api/service/LivroService.java:67-69 | Empty exactly when no record has the id; otherwise a record of the list with that id with no earlier record having it |
| Catalog.RemoveFirst | src/main/java/br/com/gabs/mybooks_api/service/LivroService.java:90 | Removing an element that is in the list shortens it by one; removing one that is not leaves it unchanged |
| Catalog.IndexOf | src/main/java/br/com/gabs/mybooks_api/service/LivroService.java:90 | The position of the first occurrence of an element that is in the list: it holds the element and no earlier position does |
| Catalog.RemoveFirstAt | src/main/java/br/com/gabs/mybooks_api/service/LivroService.java:90 | `remove(Object)` drops exactly the first occurrence and keeps every other element in its order |
| Catalog.RemoveAllWithIdSpec | src/main/java/br/com/gabs/mybooks_api/service/LivroService.java:104 | No kept record has the id, every kept record was in the list, every record without the id is kept, and the length drops by the number of records with the id |
| Catalog.Updated | src/main/java/br/com/gabs/mybooks_api/service/LivroService.java:88-93 | The updated catalog has the old length and ends with the new record |
| Catalog.UpdatedReplacesFirst | src/main/java/br/com/gabs/mybooks_api/service/LivroService.java:88-91 | As a multiset, the updated catalog is the old one minus the first record with the id plus the new record |
| Catalog.RemoveFirstAtFirstIndex | src/main/java/br/com/gabs/mybooks_api/service/LivroService.java:84-90 | Removing the record the lookup found removes exactly the element at the first position holding the id |
| Catalog.CountIdPositive | src/main/java/br/com/gabs/mybooks_api/service/LivroService.java:104-105 | The number of records with an id is positive if and only if the id is present |
| Catalog.RemoveAllWithId | src/main/java/br/com/gabs/mybooks_api/service/LivroService.java:104 | `removeIf` never lengthens the list; what it keeps is stated by `RemoveAllWithIdSpec` |
| Catalog.RemoveIfReportsMatch | src/main/java/br/com/gabs/mybooks_api/service/LivroService.java:104-109 | `removeIf` reports a removal if and only if some record has the id; with no match the list is unchanged |
| Catalog.NoMatchKeepsAll | src/main/java/br/com/gabs/mybooks_api/service/LivroService.java:104-108 | Removing an absent id leaves the list exactly as it was |
| Catalog.RemoveAllWithIdAppend | src/main/java/br/com/gabs/mybooks_api/service/LivroService.java:104 | Removal commutes with concatenation, so the kept records stay in their original relative order |
| Catalog.RemoveAllKeepsUnique | src/main/java/br/com/gabs/mybooks_api/service/LivroService.java:102-106 | A delete keeps the ids unique when they were unique before |
| Catalog.AppendUnique | src/main/java/br/com/gabs/mybooks_api/service/LivroService.java:73-78 | After an add the ids are unique if and only if they were unique before and the new id was not present |
| Catalog.FindAfterAppend | src/main/java/br/com/gabs/mybooks_api/service/LivroService.java:66-78 | A lookup after an add returns the old first match if the id was present, the added record if its id is the one sought and new, and nothing otherwise |
| Catalog.UpdatedKeepsOthers | src/main/java/br/com/gabs/mybooks_api/service/LivroService.java:88-93 | Apart from the records with the updated id, the catalog after update is the old one, in the same order |
| Catalog.UpdatedRemovesOnlyMatch | src/main/java/br/com/gabs/mybooks_api/service/LivroService.java:84-91 | On unique ids, after the found record is removed and before the new one is appended, no record has the id |
| Catalog.UpdatedKeepsUnique | src/main/java/br/com/gabs/mybooks_api/service/LivroService.java:84-93 | A successful update keeps the ids unique when they were unique before |
| Catalog.FindAfterUpdate | src/main/java/br/com/gabs/mybooks_api/service/LivroService.java:66-93 | On unique ids, a lookup of the updated id after update returns the new record |
| Catalog.FindAfterUpdateWithDuplicate | src/main/java/br/com/gabs/mybooks_api/service/LivroService.java:66-93 | With a second record of the same id, a lookup after update returns that next old record and not the new one |
| Model.UuidSource.RandomUuid | src/main/java/br/com/gabs/mybooks_api/model/Livro.java:25 | The id returned was never issued before, and it is now recorded as issued |
| Model.Livro.constructor | src/main/java/br/com/gabs/mybooks_api/model/Livro.java:9-27 | A new book has a freshly issued id, every text field null and `valorPago` +0.0 |
| Model.Livro.SetId | src/main/java/br/com/gabs/mybooks_api/model/Livro.java:34-40 | Setter and getter pair: after `SetId(v)`, the getter `GetId` returns `v`, and the record written for the book (`Record`, what `salvarLivros` writes at LivroService.java:58) differs from the old one only in `id` |
| Model.Livro.SetTitulo | src/main/java/br/com/gabs/mybooks_api/model/Livro.java:42-48 | Setter and getter pair: after `SetTitulo(v)`, the getter `GetTitulo` returns `v`, and the record written for the book (`Record`, what `salvarLivros` writes at LivroService.java:58) differs from the old one only in `titulo` |
| Model.Livro.SetGenero | src/main/java/br/com/gabs/mybooks_api/model/Livro.java:50-56 | Setter and getter pair: after `SetGenero(v)`, the getter `GetGenero` returns `v`, and the record written for the book (`Record`, what `salvarLivros` writes at LivroService.java:58) differs from the old one only in `genero` |
| Model.Livro.SetMidia | src/main/java/br/com/gabs/mybooks_api/model/Livro.java:58-64 | Setter and getter pair: after `SetMidia(v)`, the getter `GetMidia` returns `v`, and the record written for the book (`Record`, what `salvarLivros` writes at LivroService.java:58) differs from the old one only in `midia` |
| Model.Livro.SetAnoLancamento | src/main/java/br/com/gabs/mybooks_api/model/Livro.java:66-72 | Setter and getter pair: after `SetAnoLancamento(v)`, the getter `GetAnoLancamento` returns `v`, and the record written for the book (`Record`, what `salvarLivros` writes at LivroService.java:58) differs from the old one only in `anoLancamento` |
| Model.Livro.SetStatusLeitura | src/main/java/br/com/gabs/mybooks_api/model/Livro.java:74-80 | Setter and getter pair: after `SetStatusLeitura(v)`, the getter `GetStatusLeitura` returns `v`, and the record written for the book (`Record`, what `salvarLivros` writes at LivroService.java:58) differs from the old one only in `statusLeitura` |
| Model.Livro.SetAnoCompra | src/main/java/br/com/gabs/mybooks_api/model/Livro.java:82-88 | Setter and getter pair: after `SetAnoCompra(v)`, the getter `GetAnoCompra` returns `v`, and the record written for the book (`Record`, what `salvarLivros` writes at LivroService.java:58) differs from the old one only in `anoCompra` |
| Model.Livro.SetValorPago | src/main/java/br/com/gabs/mybooks_api/model/Livro.java:90-96 | Setter and getter pair: after `SetValorPago(v)`, the getter `GetValorPago` returns `v`, and the record written for the book (`Record`, what `salvarLivros` writes at LivroService.java:58) differs from the old one only in `valorPago` |
| Model.Livro.SetAutor | src/main/java/br/com/gabs/mybooks_api/model/Livro.java:98-104 | Setter and getter pair: after `SetAutor(v)`, the getter `GetAutor` returns `v`, and the record written for the book (`Record`, what `salvarLivros` writes at LivroService.java:58) differs from the old one only in `autor` |
| Model.Livro.SetEsaga | src/main/java/br/com/gabs/mybooks_api/model/Livro.java:106-112 | Setter and getter pair: after `SetEsaga(v)`, the getter `GetEsaga` returns `v`, and the record written for the book (`Record`, what `salvarLivros` writes at LivroService.java:58) differs from the old one only in `esaga` |

## Left out

- File I/O and the file location: the file is the abstract `Storage` value. The path under `user.home` is not modelled.
- JSON encoding and decoding and the indented output setting: the object-mapper constructor is not modelled. A decode failure, or a read `IOException`, is the `Corrupt` state. A file holding the JSON literal `null` decodes to a null list. `carregarLivros` returns that null normally, while lookup, add, update and delete then throw a `NullPointerException` before saving anything; the model puts this file in the `Corrupt` state.
- A failed write in `salvarLivros`: the model's save always succeeds. The file state after a failed or partial write is not modelled.
- Concurrency: the `CopyOnWriteArrayList` and the lost update between two concurrent load-change-save cycles are not modelled. The model's operations run one at a time.
- `UUID.randomUUID()`: it is an oracle that promises a never-issued id. One `UuidSource` shared by every constructor call stands for the process-wide generator; ids are fresh only within one source, and two sources may repeat ids. Its counter is a stand-in for the random generator. The 128-bit layout of a UUID is not modelled, because only equality of ids is used.
- `valorPago`: it is an opaque bit pattern. No `double` arithmetic or comparison is modelled.
- Null ids: the model's ids are never null. A stored record with a null id makes `removeIf` in delete always throw a `NullPointerException`, because it visits every record. The lazy `filter(...).findFirst()` of lookup and update throws only when that record comes before the first match. `setId(null)` is not modelled.
- The HTTP controllers are not part of this model. This covers both `LivroController.java` files, their routing, status codes, location URIs and CORS, and the PUT handler's overwrite of the body id.
- Model.Livro.constructor: assigns the id unconditionally. The source's `if (this.id == null)` test always holds at that point, because the field has just been initialised to null.
- Service.LivroService.CarregarLivros: reports a file holding the JSON literal `null` as a load failure, where the source returns a null list without throwing.
