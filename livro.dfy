/**
 * The book record `Livro` (package `model`): a mutable object with one private
 * field per attribute, a no-argument constructor that gives every new book a
 * freshly generated id, and a getter and a setter per field.
 */
module Model {
  import opened Wrappers

  /**
   * A `java.util.UUID`. The catalog only ever compares ids for equality, so an
   * id is modelled as an unbounded identity without its 128-bit layout.
   */
  type Uuid = nat

  /** A Java `String` field: `None` is `null`. */
  type Text = Option<string>

  /**
   * A Java `double`, kept as its IEEE 754 binary64 bit pattern. The catalog
   * stores and returns it but never computes with it or compares it.
   */
  type DoubleBits = bv64

  /** The default value of a `double` field, `+0.0`, whose bit pattern is all zeros. */
  const PositiveZero: DoubleBits := 0

  /** The state of one `Livro`, as the catalog file holds it. */
  datatype LivroRecord = LivroRecord(
    id: Uuid,
    titulo: Text,
    genero: Text,
    midia: Text,
    anoLancamento: Text,
    statusLeitura: Text,
    anoCompra: Text,
    valorPago: DoubleBits,
    autor: Text,
    esaga: Text)

  /**
   * The source of `UUID.randomUUID()`. Its only promise is that an id it hands
   * out has not been handed out before; the counter is a stand-in for the
   * random generator.
   */
  class UuidSource {
    ghost var issued: set<Uuid>
    var next: nat

    ghost predicate Valid()
      reads this
    {
      forall u :: u in issued ==> u < next
    }

    constructor ()
      ensures Valid() && issued == {}
    {
      next := 0;
      issued := {};
    }

    method RandomUuid() returns (u: Uuid)
      requires Valid()
      modifies this
      ensures Valid()
      ensures u !in old(issued)
      ensures issued == old(issued) + {u}
    {
      u := next;
      next := next + 1;
      issued := issued + {u};
    }
  }

  class Livro {
    var id: Uuid
    var titulo: Text
    var genero: Text
    var midia: Text
    var anoLancamento: Text
    var statusLeitura: Text
    var anoCompra: Text
    var valorPago: DoubleBits
    var autor: Text
    var esaga: Text

    /**
     * The record this object turns into when the catalog is written out. The
     * JSON writer reads a bean through its getters, so the record is built
     * from them; it holds every field of the object.
     */
    function Record(): (r: LivroRecord)
      reads this
    {
      LivroRecord(GetId(), GetTitulo(), GetGenero(), GetMidia(), GetAnoLancamento(),
                  GetStatusLeitura(), GetAnoCompra(), GetValorPago(), GetAutor(), GetEsaga())
    }

    /**
     * The no-argument constructor. Every field starts at its Java default
     * (`null`, or `+0.0` for `valorPago`); the id, still `null` at that point,
     * is then always replaced by a fresh one, so the model assigns it directly.
     */
    constructor (ids: UuidSource)
      requires ids.Valid()
      modifies ids
      ensures ids.Valid()
      ensures id !in old(ids.issued) && ids.issued == old(ids.issued) + {id}
      ensures Record() == LivroRecord(id, None, None, None, None, None, None, PositiveZero, None, None)
    {
      titulo, genero, midia := None, None, None;
      anoLancamento, statusLeitura, anoCompra := None, None, None;
      valorPago := PositiveZero;
      autor, esaga := None, None;
      var generated := ids.RandomUuid();
      id := generated;
    }

    // Getters: each returns its own field and changes nothing.

    function GetId(): (v: Uuid) reads this { id }
    function GetTitulo(): (v: Text) reads this { titulo }
    function GetGenero(): (v: Text) reads this { genero }
    function GetMidia(): (v: Text) reads this { midia }
    function GetAnoLancamento(): (v: Text) reads this { anoLancamento }
    function GetStatusLeitura(): (v: Text) reads this { statusLeitura }
    function GetAnoCompra(): (v: Text) reads this { anoCompra }
    function GetValorPago(): (v: DoubleBits) reads this { valorPago }
    function GetAutor(): (v: Text) reads this { autor }
    function GetEsaga(): (v: Text) reads this { esaga }
    // Setters: each one changes its own field and nothing else.

    method SetId(u: Uuid)
      modifies this
      ensures GetId() == u
      ensures Record() == old(Record()).(id := u)
    {
      id := u;
    }

    method SetTitulo(t: Text)
      modifies this
      ensures GetTitulo() == t
      ensures Record() == old(Record()).(titulo := t)
    {
      titulo := t;
    }

    method SetGenero(t: Text)
      modifies this
      ensures GetGenero() == t
      ensures Record() == old(Record()).(genero := t)
    {
      genero := t;
    }

    method SetMidia(t: Text)
      modifies this
      ensures GetMidia() == t
      ensures Record() == old(Record()).(midia := t)
    {
      midia := t;
    }

    method SetAnoLancamento(t: Text)
      modifies this
      ensures GetAnoLancamento() == t
      ensures Record() == old(Record()).(anoLancamento := t)
    {
      anoLancamento := t;
    }

    method SetStatusLeitura(t: Text)
      modifies this
      ensures GetStatusLeitura() == t
      ensures Record() == old(Record()).(statusLeitura := t)
    {
      statusLeitura := t;
    }

    method SetAnoCompra(t: Text)
      modifies this
      ensures GetAnoCompra() == t
      ensures Record() == old(Record()).(anoCompra := t)
    {
      anoCompra := t;
    }

    method SetValorPago(v: DoubleBits)
      modifies this
      ensures GetValorPago() == v
      ensures Record() == old(Record()).(valorPago := v)
    {
      valorPago := v;
    }

    method SetAutor(t: Text)
      modifies this
      ensures GetAutor() == t
      ensures Record() == old(Record()).(autor := t)
    {
      autor := t;
    }

    method SetEsaga(t: Text)
      modifies this
      ensures GetEsaga() == t
      ensures Record() == old(Record()).(esaga := t)
    {
      esaga := t;
    }
  }
}
