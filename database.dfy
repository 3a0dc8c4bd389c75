/** The relational store as one in-memory object: a sequence of rows per table
    and the auto-increment counters of the tables the handlers insert into.
    Each handler is one atomic step on it; a rolled-back transaction leaves
    it unchanged. */
module Database {
  import opened Models

  /** Primary keys in insertion order: strictly increasing, hence unique. */
  predicate IdsIncreasing<T>(s: seq<T>, id: T -> nat)
  {
    forall i, j :: 0 <= i < j < |s| ==> id(s[i]) < id(s[j])
  }

  predicate IdsBelow<T>(s: seq<T>, id: T -> nat, next: nat)
  {
    forall i :: 0 <= i < |s| ==> id(s[i]) < next
  }

  /** Primary keys of a table whose rows the model never inserts. */
  predicate IdsUnique<T>(s: seq<T>, id: T -> nat)
  {
    forall i, j :: 0 <= i < j < |s| ==> id(s[i]) != id(s[j])
  }

  /** The `email` column is UNIQUE (servidor/models/Usuario.js). */
  predicate EmailsUnique(us: seq<Usuario>)
  {
    forall i, j :: 0 <= i < j < |us| ==> us[i].email != us[j].email
  }

  const TorneoId: Torneo -> nat := (t: Torneo) => t.id
  const InscripcionId: Inscripcion -> nat := (r: Inscripcion) => r.id
  const UsuarioId: Usuario -> nat := (u: Usuario) => u.id
  const TestimonioId: Testimonio -> nat := (t: Testimonio) => t.id
  const GanadorId: Ganador -> nat := (g: Ganador) => g.id

  predicate ExisteTorneo(ts: seq<Torneo>, id: nat)
  {
    exists k :: 0 <= k < |ts| && ts[k].id == id
  }

  /** `Torneo.findByPk(id)`: the position of the row with that key, or |ts|. */
  function BuscarTorneo(ts: seq<Torneo>, id: nat): (k: nat)
    ensures k <= |ts|
    ensures k < |ts| <==> ExisteTorneo(ts, id)
    ensures k < |ts| ==> ts[k].id == id
  {
    if ts == [] then 0
    else if ts[0].id == id then 0
    else
      var k := BuscarTorneo(ts[1..], id) + 1;
      assert ExisteTorneo(ts[1..], id) ==> ExisteTorneo(ts, id);
      assert ExisteTorneo(ts, id) ==> ExisteTorneo(ts[1..], id) by {
        if ExisteTorneo(ts, id) {
          var j :| 0 <= j < |ts| && ts[j].id == id;
          assert j > 0 && ts[1..][j - 1].id == id;
        }
      }
      k
  }

  /** With unique keys, the row `findByPk` returns is the only one with that key. */
  lemma BuscarTorneoUnico(ts: seq<Torneo>, id: nat, j: nat)
    requires IdsIncreasing(ts, TorneoId)
    requires j < |ts| && ts[j].id == id
    ensures BuscarTorneo(ts, id) == j
  {
    var k := BuscarTorneo(ts, id);
    assert TorneoId(ts[k]) == TorneoId(ts[j]);
  }

  predicate ExisteUsuario(us: seq<Usuario>, id: nat)
  {
    exists k :: 0 <= k < |us| && us[k].id == id
  }

  /** `Usuario.findByPk(id)` / `findOne({ where: { id } })`: position or |us|. */
  function BuscarUsuario(us: seq<Usuario>, id: nat): (k: nat)
    ensures k <= |us|
    ensures k < |us| <==> ExisteUsuario(us, id)
    ensures k < |us| ==> us[k].id == id
  {
    if us == [] then 0
    else if us[0].id == id then 0
    else
      var k := BuscarUsuario(us[1..], id) + 1;
      assert ExisteUsuario(us[1..], id) ==> ExisteUsuario(us, id);
      assert ExisteUsuario(us, id) ==> ExisteUsuario(us[1..], id) by {
        if ExisteUsuario(us, id) {
          var j :| 0 <= j < |us| && us[j].id == id;
          assert j > 0 && us[1..][j - 1].id == id;
        }
      }
      k
  }

  class Db {
    var torneos: seq<Torneo>
    var inscripciones: seq<Inscripcion>
    var usuarios: seq<Usuario>
    var testimonios: seq<Testimonio>
    var ganadores: seq<Ganador>
    var siguienteTorneoId: nat
    var siguienteInscripcionId: nat
    var siguienteTestimonioId: nat

    /** What the schema guarantees: unique primary keys, fresh auto-increment
        values and unique emails. Nothing here says anything about
        enrollments per pair or per tournament. */
    ghost predicate Valid()
      reads this
    {
      && IdsIncreasing(torneos, TorneoId)
      && IdsBelow(torneos, TorneoId, siguienteTorneoId)
      && IdsIncreasing(inscripciones, InscripcionId)
      && IdsBelow(inscripciones, InscripcionId, siguienteInscripcionId)
      && IdsIncreasing(testimonios, TestimonioId)
      && IdsBelow(testimonios, TestimonioId, siguienteTestimonioId)
      && IdsUnique(usuarios, UsuarioId)
      && EmailsUnique(usuarios)
      && IdsUnique(ganadores, GanadorId)
    }

    /** A store over existing user and winner rows (created outside this model)
        with empty tournament, enrollment and testimonial tables. */
    constructor (usuarios: seq<Usuario>, ganadores: seq<Ganador>)
      requires IdsUnique(usuarios, UsuarioId) && EmailsUnique(usuarios)
      requires IdsUnique(ganadores, GanadorId)
      ensures Valid()
      ensures this.usuarios == usuarios && this.ganadores == ganadores
      ensures torneos == [] && inscripciones == [] && testimonios == []
    {
      torneos := [];
      inscripciones := [];
      this.usuarios := usuarios;
      testimonios := [];
      this.ganadores := ganadores;
      siguienteTorneoId := 1;
      siguienteInscripcionId := 1;
      siguienteTestimonioId := 1;
    }
  }

  /** Deleting one row keeps keys increasing and below the counter. */
  lemma RemoveKeepsIds<T>(s: seq<T>, k: nat, id: T -> nat, next: nat)
    requires k < |s|
    requires IdsIncreasing(s, id) && IdsBelow(s, id, next)
    ensures IdsIncreasing(s[..k] + s[k + 1..], id) && IdsBelow(s[..k] + s[k + 1..], id, next)
  {
    var s' := s[..k] + s[k + 1..];
    assert forall i :: 0 <= i < |s'| ==> s'[i] == s[if i < k then i else i + 1];
  }

  /** Appending a row with a key above every existing key keeps keys increasing. */
  lemma AppendFresh<T>(s: seq<T>, x: T, id: T -> nat, next: nat)
    requires IdsIncreasing(s, id) && IdsBelow(s, id, next) && id(x) == next
    ensures IdsIncreasing(s + [x], id) && IdsBelow(s + [x], id, next + 1)
  {
    var s' := s + [x];
    forall i, j | 0 <= i < j < |s'| ensures id(s'[i]) < id(s'[j]) {
      if j == |s| {
        assert s'[i] == s[i];
      } else {
        assert s'[i] == s[i] && s'[j] == s[j];
      }
    }
  }
}
