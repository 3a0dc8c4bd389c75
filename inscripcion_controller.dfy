/** The enrollment handlers that act for the authenticated caller
    (servidor/controllers/InscripcionController.js). */
module InscripcionController {
  import opened Models
  import opened Responses
  import opened Database
  import opened Inscripciones

  /** Enrolls the caller, whatever a request body might say: the user id
      comes from the authenticated identity only. */
  method InscribirUsuario(db: Db, torneoId: nat, usuario: UsuarioAutenticado) returns (r: Response<Inscripcion>)
    requires db.Valid()
    modifies db`inscripciones, db`siguienteInscripcionId
    ensures db.Valid()
    ensures Transicion(db.torneos, old(db.inscripciones), old(db.siguienteInscripcionId), torneoId, usuario.id,
                       r, db.inscripciones, db.siguienteInscripcionId)
    ensures r.Ok? ==> r.value.usuarioId == usuario.id && r.value.torneoId == torneoId
    ensures ParesUnicos(old(db.inscripciones)) ==> ParesUnicos(db.inscripciones)
    ensures DentroDelCupo(db.torneos, old(db.inscripciones)) ==> DentroDelCupo(db.torneos, db.inscripciones)
  {
    r := Inscribir(db, torneoId, usuario.id);
  }

  /** Deletes the caller's enrollment in the tournament without looking at the
      tournament at all; 404 when the caller holds none. */
  method CancelarInscripcion(db: Db, torneoId: nat, usuario: UsuarioAutenticado) returns (r: Response<()>)
    requires db.Valid()
    modifies db`inscripciones
    ensures db.Valid()
    ensures r.Err? <==> !EstaInscrito(old(db.inscripciones), usuario.id, torneoId)
    ensures r.Err? ==> r == Err(404, NoInscrito)
    ensures r.Ok? ==> r.status == 200
    ensures db.inscripciones == Quitar(old(db.inscripciones), usuario.id, torneoId)
    ensures ParesUnicos(old(db.inscripciones)) ==> ParesUnicos(db.inscripciones)
    ensures DentroDelCupo(db.torneos, old(db.inscripciones)) ==> DentroDelCupo(db.torneos, db.inscripciones)
    ensures ParesUnicos(old(db.inscripciones)) ==> !EstaInscrito(db.inscripciones, usuario.id, torneoId)
  {
    var k := Posicion(db.inscripciones, usuario.id, torneoId);
    if k == |db.inscripciones| {
      return Err(404, NoInscrito);
    }
    if ParesUnicos(db.inscripciones) {
      QuitarEfecto(db.inscripciones, usuario.id, torneoId, usuario.id, torneoId);
    }
    RemoveKeepsIds(db.inscripciones, k, InscripcionId, db.siguienteInscripcionId);
    QuitarPreservaInvariantes(db.torneos, db.inscripciones, usuario.id, torneoId);
    db.inscripciones := db.inscripciones[..k] + db.inscripciones[k + 1..];
    return Ok(200, ());
  }

  /** A successful enrollment followed by a cancellation by the same caller
      for the same tournament gives back the enrollment table, and the
      cancellation then succeeds. */
  lemma InscribirLuegoCancelar(
    ts: seq<Torneo>, ins: seq<Inscripcion>, sig: nat, torneoId: nat, usuario: UsuarioAutenticado,
    r: Response<Inscripcion>, ins': seq<Inscripcion>, sig': nat)
    requires Transicion(ts, ins, sig, torneoId, usuario.id, r, ins', sig')
    requires r.Ok?
    ensures EstaInscrito(ins', usuario.id, torneoId)
    ensures Quitar(ins', usuario.id, torneoId) == ins
  {
    assert ins'[|ins|] == Inscripcion(sig, usuario.id, torneoId);
    InscribirYCancelar(ts, ins, torneoId, usuario.id, sig);
  }
}
