/**
 * Sample catalog scenarios, written as methods whose assertions the verifier
 * proves: each one drives the service and the book object and asserts what
 * the caller sees.
 */
module Scenarios {
  import opened Wrappers
  import opened Model
  import opened Catalog
  import opened Service

  /** Empty catalog, add a book titled "Dune": the catalog holds that one book, with a generated id. */
  method AddToEmptyCatalog() {
    var ids := new UuidSource();
    var service := new LivroService(Missing);
    var livro := new Livro(ids);
    livro.SetTitulo(Some("Dune"));
    var added := service.AdicionarLivro(livro);
    assert added == Success(livro);
    var loaded := service.CarregarLivros();
    assert loaded.Success? && |loaded.value| == 1;
    assert loaded.value[0].titulo == Some("Dune");
    assert loaded.value[0].id in ids.issued;
  }

  /** One book with id x; an update with id x and a new title is what a lookup of x then finds. */
  method UpdateThenFind(x: LivroRecord) {
    var ids := new UuidSource();
    var service := new LivroService(Stored([x]));
    var livro := new Livro(ids);
    livro.SetId(x.id);
    livro.SetTitulo(Some("New Title"));
    assert HasId([x], livro.id) by { assert [x][0].id == livro.id; }
    var updated := service.AtualizarLivro(livro);
    assert updated == Success(livro);
    var found := service.BuscarPorId(x.id);
    assert found.Success? && found.value.Some?;
    assert found.value.value.titulo == Some("New Title");
    // Full replace, not merge: the other fields are the new object's, not x's.
    assert found.value.value.autor == None;
  }

  /** One book with id x; deleting another id fails, and the book is still there. */
  method DeleteOtherId(x: LivroRecord, y: Uuid)
    requires y != x.id
  {
    var service := new LivroService(Stored([x]));
    var deleted := service.ExcluirLivro(y);
    assert deleted == Failure(NotFound(y));
    var loaded := service.CarregarLivros();
    assert loaded == Success([x]);
  }

  /** Books made by the no-argument constructor get distinct ids, so adding them keeps the ids unique. */
  method FreshBooksStayUnique() {
    var ids := new UuidSource();
    var service := new LivroService(Empty);
    var a := new Livro(ids);
    var ra := service.AdicionarLivro(a);
    var first := Contents(service.storage);
    assert first == [a.Record()];
    var b := new Livro(ids);
    assert !HasId(first, b.id) by { assert first[0].id == a.id != b.id; }
    var rb := service.AdicionarLivro(b);
    assert UniqueIds(Contents(service.storage));
    assert |Contents(service.storage)| == 2;
  }
}
