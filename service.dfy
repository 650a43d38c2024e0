/**
 * `LivroService`: the catalog store. Every operation loads the whole catalog
 * from the backing file, works on that list in memory and, when it changes
 * something, overwrites the file with the whole list. The file is abstract
 * state here; its JSON encoding is not modelled.
 */
module Service {
  import opened Wrappers
  import opened Model
  import opened Catalog

  /**
   * The backing file `livros.json`: absent, present with zero length,
   * holding a decodable catalog, or `Corrupt`. `Corrupt` covers content that
   * does not decode, a read that fails with an `IOException`, and a file
   * holding the JSON literal `null`.
   */
  datatype Storage = Missing | Empty | Stored(livros: seq<LivroRecord>) | Corrupt

  /**
   * The service's failures. The load failure is kept; the not-found errors of
   * update and delete, which differ only in their message, are merged; the
   * save failure is not modelled.
   */
  datatype Error =
    | LoadFailure        // "Falha ao carregar os livros do arquivo."
    | NotFound(id: Uuid) // "Livro com ID ... não encontrado ..."

  /** The catalog a readable file holds; a missing or empty file holds none. */
  function Contents(st: Storage): (livros: seq<LivroRecord>)
  {
    if st.Stored? then st.livros else []
  }

  class LivroService {
    var storage: Storage

    constructor (initial: Storage)
      ensures storage == initial
    {
      storage := initial;
    }

    /** Loads the catalog; a missing or zero-length file is the empty catalog, not an error. */
    method CarregarLivros() returns (r: Result<seq<LivroRecord>, Error>)
      ensures storage.Missing? || storage.Empty? ==> r == Success([])
      ensures storage.Stored? ==> r == Success(storage.livros)
      ensures storage.Corrupt? ==> r == Failure(LoadFailure)
    {
      match storage
      case Missing => r := Success([]);
      case Empty => r := Success([]);
      case Stored(livros) => r := Success(livros);
      case Corrupt => r := Failure(LoadFailure);
    }

    /** Overwrites the whole backing file with `livros`. */
    method SalvarLivros(livros: seq<LivroRecord>)
      modifies this
      ensures storage == Stored(livros)
    {
      storage := Stored(livros);
    }

    /** The first record with id `id`, in catalog order; it reads storage and never writes it. */
    method BuscarPorId(id: Uuid) returns (r: Result<Option<LivroRecord>, Error>)
      ensures storage.Corrupt? <==> r.Failure?
      ensures r.Failure? ==> r.error == LoadFailure
      ensures r.Success? ==> (r.value.None? <==> !HasId(Contents(storage), id))
      ensures r.Success? && r.value.Some? ==>
        r.value.value.id == id &&
        r.value.value == Contents(storage)[FirstIndex(Contents(storage), id)]
    {
      var carregados := CarregarLivros();
      if carregados.Failure? {
        return Failure(carregados.error);
      }
      r := Success(FindFirst(carregados.value, id));
    }

    /** Appends `novoLivro` without looking for its id, saves, and returns the same object. */
    method AdicionarLivro(novoLivro: Livro) returns (r: Result<Livro, Error>)
      modifies this
      ensures old(storage).Corrupt? ==> r == Failure(LoadFailure) && storage == old(storage)
      ensures !old(storage).Corrupt? ==>
        r == Success(novoLivro) &&
        storage == Stored(Contents(old(storage)) + [novoLivro.Record()])
      ensures !old(storage).Corrupt? ==>
        forall i :: 0 <= i < |Contents(old(storage))| ==> Contents(storage)[i] == Contents(old(storage))[i]
      ensures !old(storage).Corrupt? ==>
        (UniqueIds(Contents(storage)) <==>
           UniqueIds(Contents(old(storage))) && !HasId(Contents(old(storage)), novoLivro.id))
    {
      var carregados := CarregarLivros();
      if carregados.Failure? {
        return Failure(carregados.error);
      }
      var livros := carregados.value;
      AppendUnique(livros, novoLivro.Record());
      livros := livros + [novoLivro.Record()];
      SalvarLivros(livros);
      return Success(novoLivro);
    }

    /**
     * Replaces the first record with the id of `livroAtualizado`: that record
     * is removed and the new one appended. A missing id fails before anything
     * is saved.
     */
    method AtualizarLivro(livroAtualizado: Livro) returns (r: Result<Livro, Error>)
      modifies this
      ensures old(storage).Corrupt? ==> r == Failure(LoadFailure) && storage == old(storage)
      ensures !old(storage).Corrupt? && !HasId(Contents(old(storage)), livroAtualizado.id) ==>
        r == Failure(NotFound(livroAtualizado.id)) && storage == old(storage)
      ensures !old(storage).Corrupt? && HasId(Contents(old(storage)), livroAtualizado.id) ==>
        r == Success(livroAtualizado) &&
        storage == Stored(Updated(Contents(old(storage)), livroAtualizado.Record()))
      ensures UniqueIds(Contents(old(storage))) ==> UniqueIds(Contents(storage))
      ensures r.Success? && UniqueIds(Contents(old(storage))) ==>
        FindFirst(Contents(storage), livroAtualizado.id) == Some(livroAtualizado.Record())
    {
      var carregados := CarregarLivros();
      if carregados.Failure? {
        return Failure(carregados.error);
      }
      var livros := carregados.value;
      var existente := FindFirst(livros, livroAtualizado.GetId());
      if existente.Some? {
        RemoveFirstAtFirstIndex(livros, livroAtualizado.id);
        if UniqueIds(livros) {
          UpdatedKeepsUnique(livros, livroAtualizado.Record());
          FindAfterUpdate(livros, livroAtualizado.Record());
        }
        livros := RemoveFirst(livros, existente.value);
        livros := livros + [livroAtualizado.Record()];
        SalvarLivros(livros);
        return Success(livroAtualizado);
      } else {
        return Failure(NotFound(livroAtualizado.GetId()));
      }
    }

    /** Removes every record with id `id`; when none matched it fails and saves nothing. */
    method ExcluirLivro(id: Uuid) returns (r: Result<(), Error>)
      modifies this
      ensures old(storage).Corrupt? ==> r == Failure(LoadFailure) && storage == old(storage)
      ensures !old(storage).Corrupt? && !HasId(Contents(old(storage)), id) ==>
        r == Failure(NotFound(id)) && storage == old(storage)
      ensures !old(storage).Corrupt? && HasId(Contents(old(storage)), id) ==>
        r == Success(()) && storage == Stored(RemoveAllWithId(Contents(old(storage)), id))
      ensures UniqueIds(Contents(old(storage))) ==> UniqueIds(Contents(storage))
    {
      var carregados := CarregarLivros();
      if carregados.Failure? {
        return Failure(carregados.error);
      }
      var livros := carregados.value;
      var restantes := RemoveAllWithId(livros, id);
      var removed := |restantes| < |livros|;
      RemoveIfReportsMatch(livros, id);
      if UniqueIds(livros) {
        RemoveAllKeepsUnique(livros, id);
      }
      if removed {
        SalvarLivros(restantes);
        return Success(());
      } else {
        return Failure(NotFound(id));
      }
    }
  }
}
