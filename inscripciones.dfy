/** The enrollment ledger: the `Inscripcion` table, the guarded enrollment
    step both enrollment handlers run, the delete that cancels an enrollment,
    and the two table invariants the handlers keep although the schema does
    not enforce them: one row per (user, tournament) pair, and no more rows
    per tournament than its `cupo`. */
module Inscripciones {
  import opened Models
  import opened Responses
  import opened Database
  import Sequences

  /** `Inscripcion.count({ where: { torneoId } })`. */
  function Inscritos(ins: seq<Inscripcion>, torneoId: nat): (n: nat)
    ensures n <= |ins|
  {
    if ins == [] then 0
    else (if ins[0].torneoId == torneoId then 1 else 0) + Inscritos(ins[1..], torneoId)
  }

  predicate Coincide(r: Inscripcion, usuarioId: nat, torneoId: nat)
  {
    r.usuarioId == usuarioId && r.torneoId == torneoId
  }

  predicate EstaInscrito(ins: seq<Inscripcion>, usuarioId: nat, torneoId: nat)
  {
    exists k :: 0 <= k < |ins| && Coincide(ins[k], usuarioId, torneoId)
  }

  /** `Inscripcion.findOne({ where: { usuarioId, torneoId } })`: the position of
      the first matching row, or |ins| when there is none. */
  function Posicion(ins: seq<Inscripcion>, usuarioId: nat, torneoId: nat): (k: nat)
    ensures k <= |ins|
    ensures k < |ins| <==> EstaInscrito(ins, usuarioId, torneoId)
    ensures k < |ins| ==> Coincide(ins[k], usuarioId, torneoId)
    ensures forall j :: 0 <= j < k ==> !Coincide(ins[j], usuarioId, torneoId)
  {
    if ins == [] then 0
    else if Coincide(ins[0], usuarioId, torneoId) then 0
    else
      var k := Posicion(ins[1..], usuarioId, torneoId) + 1;
      assert forall j :: 1 <= j < |ins| ==> ins[1..][j - 1] == ins[j];
      k
  }

  /** At most one enrollment per (user, tournament) pair. */
  predicate ParesUnicos(ins: seq<Inscripcion>)
  {
    forall i, j :: 0 <= i < j < |ins| ==> !Coincide(ins[j], ins[i].usuarioId, ins[i].torneoId)
  }

  /** No tournament has more enrollments than its `cupo`. */
  predicate DentroDelCupo(ts: seq<Torneo>, ins: seq<Inscripcion>)
  {
    forall k :: 0 <= k < |ts| ==> Inscritos(ins, ts[k].id) <= ts[k].cupo
  }

  datatype Admision = Rechazada(falla: Falla) | Admitida

  /** The guards of both enrollment handlers, in the order they run: the
      tournament must exist, be active, not already hold a row for this
      user, and have fewer rows than its `cupo`. */
  function Admitir(ts: seq<Torneo>, ins: seq<Inscripcion>, torneoId: nat, usuarioId: nat): (a: Admision)
    ensures a == Rechazada(TorneoNoEncontrado) <==> !ExisteTorneo(ts, torneoId)
    ensures a == Admitida ==> !EstaInscrito(ins, usuarioId, torneoId)
    ensures a.Rechazada? ==> a.falla in {TorneoNoEncontrado, TorneoNoActivo, YaInscrito, SinCupos}
  {
    var k := BuscarTorneo(ts, torneoId);
    if k == |ts| then Rechazada(TorneoNoEncontrado)
    else if ts[k].estado != Activo then Rechazada(TorneoNoActivo)
    else if Posicion(ins, usuarioId, torneoId) < |ins| then Rechazada(YaInscrito)
    else if Inscritos(ins, torneoId) >= ts[k].cupo then Rechazada(SinCupos)
    else Admitida
  }

  /** The row `cancelarInscripcion` destroys: the one `findOne` returns. */
  function Quitar(ins: seq<Inscripcion>, usuarioId: nat, torneoId: nat): (r: seq<Inscripcion>)
    ensures EstaInscrito(ins, usuarioId, torneoId) ==> |r| == |ins| - 1
    ensures !EstaInscrito(ins, usuarioId, torneoId) ==> r == ins
  {
    var k := Posicion(ins, usuarioId, torneoId);
    if k == |ins| then ins else ins[..k] + ins[k + 1..]
  }

  lemma {:induction false} InscritosAgregar(ins: seq<Inscripcion>, r: Inscripcion, torneoId: nat)
    ensures Inscritos(ins + [r], torneoId) == Inscritos(ins, torneoId) + (if r.torneoId == torneoId then 1 else 0)
  {
    if ins == [] {
      assert ins + [r] == [r];
    } else {
      assert (ins + [r])[1..] == ins[1..] + [r];
      InscritosAgregar(ins[1..], r, torneoId);
    }
  }

  lemma {:induction false} InscritosSinFila(ins: seq<Inscripcion>, k: nat, torneoId: nat)
    requires k < |ins|
    ensures Inscritos(ins[..k] + ins[k + 1..], torneoId)
         == Inscritos(ins, torneoId) - (if ins[k].torneoId == torneoId then 1 else 0)
  {
    if k == 0 {
      assert ins[..0] + ins[1..] == ins[1..];
    } else {
      assert (ins[..k] + ins[k + 1..])[1..] == ins[1..][..k - 1] + ins[1..][k..];
      InscritosSinFila(ins[1..], k - 1, torneoId);
    }
  }

  /** A successful enrollment keeps one row per (user, tournament) pair. */
  lemma InscribirPreservaParesUnicos(ts: seq<Torneo>, ins: seq<Inscripcion>, torneoId: nat, usuarioId: nat, id: nat)
    requires Admitir(ts, ins, torneoId, usuarioId) == Admitida
    ensures ParesUnicos(ins) ==> ParesUnicos(ins + [Inscripcion(id, usuarioId, torneoId)])
  {
    var ins' := ins + [Inscripcion(id, usuarioId, torneoId)];
    if ParesUnicos(ins) {
      forall i, j | 0 <= i < j < |ins'| ensures !Coincide(ins'[j], ins'[i].usuarioId, ins'[i].torneoId) {
        assert ins'[i] == ins[i];
        if j == |ins| {
          assert !Coincide(ins[i], usuarioId, torneoId);
        } else {
          assert ins'[j] == ins[j];
        }
      }
    }
  }

  /** A successful enrollment raises its tournament's count by one, to at
      most the `cupo`, and leaves every other tournament's count alone: the
      count never exceeds the `cupo` where it did not before. */
  lemma InscribirPreservaCupo(ts: seq<Torneo>, ins: seq<Inscripcion>, torneoId: nat, usuarioId: nat, id: nat)
    requires IdsIncreasing(ts, TorneoId)
    requires Admitir(ts, ins, torneoId, usuarioId) == Admitida
    ensures var t := ts[BuscarTorneo(ts, torneoId)];
      Inscritos(ins + [Inscripcion(id, usuarioId, torneoId)], torneoId) == Inscritos(ins, torneoId) + 1 <= t.cupo
    ensures DentroDelCupo(ts, ins) ==> DentroDelCupo(ts, ins + [Inscripcion(id, usuarioId, torneoId)])
  {
    var r := Inscripcion(id, usuarioId, torneoId);
    forall t' | 0 <= t' < |ts|
      ensures Inscritos(ins + [r], ts[t'].id) == Inscritos(ins, ts[t'].id) + (if ts[t'].id == torneoId then 1 else 0)
    {
      InscritosAgregar(ins, r, ts[t'].id);
    }
    InscritosAgregar(ins, r, torneoId);
    forall t' | 0 <= t' < |ts| && ts[t'].id == torneoId ensures t' == BuscarTorneo(ts, torneoId) {
      BuscarTorneoUnico(ts, torneoId, t');
    }
  }

  /** A tournament that is not active turns every enrollment away, free
      places or not. */
  lemma NoActivoRechaza(ts: seq<Torneo>, ins: seq<Inscripcion>, j: nat, usuarioId: nat)
    requires IdsIncreasing(ts, TorneoId)
    requires j < |ts| && ts[j].estado != Activo
    ensures Admitir(ts, ins, ts[j].id, usuarioId) == Rechazada(TorneoNoActivo)
  {
    BuscarTorneoUnico(ts, ts[j].id, j);
  }

  /** The duplicate guard runs before the capacity guard: a user already
      enrolled in an active tournament is told so, full or not. */
  lemma DuplicadoAntesQueCupo(ts: seq<Torneo>, ins: seq<Inscripcion>, j: nat, usuarioId: nat)
    requires IdsIncreasing(ts, TorneoId)
    requires j < |ts| && ts[j].estado == Activo
    requires EstaInscrito(ins, usuarioId, ts[j].id)
    ensures Admitir(ts, ins, ts[j].id, usuarioId) == Rechazada(YaInscrito)
  {
    BuscarTorneoUnico(ts, ts[j].id, j);
  }

  /** An active tournament with as many rows as its `cupo` turns away every
      user not yet enrolled in it. */
  lemma LlenoRechaza(ts: seq<Torneo>, ins: seq<Inscripcion>, j: nat, usuarioId: nat)
    requires IdsIncreasing(ts, TorneoId)
    requires j < |ts| && ts[j].estado == Activo
    requires !EstaInscrito(ins, usuarioId, ts[j].id)
    requires Inscritos(ins, ts[j].id) >= ts[j].cupo
    ensures Admitir(ts, ins, ts[j].id, usuarioId) == Rechazada(SinCupos)
  {
    BuscarTorneoUnico(ts, ts[j].id, j);
  }

  /** Cancelling removes exactly one row of that tournament and none of any other. */
  lemma QuitarCuenta(ins: seq<Inscripcion>, usuarioId: nat, torneoId: nat, otro: nat)
    requires EstaInscrito(ins, usuarioId, torneoId)
    ensures Inscritos(Quitar(ins, usuarioId, torneoId), torneoId) == Inscritos(ins, torneoId) - 1
    ensures otro != torneoId ==> Inscritos(Quitar(ins, usuarioId, torneoId), otro) == Inscritos(ins, otro)
  {
    var k := Posicion(ins, usuarioId, torneoId);
    InscritosSinFila(ins, k, torneoId);
    InscritosSinFila(ins, k, otro);
  }

  /** Cancelling keeps both invariants. */
  lemma QuitarPreservaInvariantes(ts: seq<Torneo>, ins: seq<Inscripcion>, usuarioId: nat, torneoId: nat)
    ensures ParesUnicos(ins) ==> ParesUnicos(Quitar(ins, usuarioId, torneoId))
    ensures DentroDelCupo(ts, ins) ==> DentroDelCupo(ts, Quitar(ins, usuarioId, torneoId))
  {
    if EstaInscrito(ins, usuarioId, torneoId) {
      var k := Posicion(ins, usuarioId, torneoId);
      var ins' := Quitar(ins, usuarioId, torneoId);
      assert ins' == ins[..k] + ins[k + 1..];
      forall i | 0 <= i < |ins'| ensures ins'[i] == ins[if i < k then i else i + 1] {
      }
      forall t' | 0 <= t' < |ts| ensures Inscritos(ins', ts[t'].id) <= Inscritos(ins, ts[t'].id) {
        InscritosSinFila(ins, k, ts[t'].id);
      }
    }
  }

  /** With one row per pair, cancelling leaves the caller not enrolled in
      that tournament, and every other pair enrolled exactly as before. */
  lemma QuitarEfecto(ins: seq<Inscripcion>, usuarioId: nat, torneoId: nat, otroUsuario: nat, otroTorneo: nat)
    requires ParesUnicos(ins)
    ensures !EstaInscrito(Quitar(ins, usuarioId, torneoId), usuarioId, torneoId)
    ensures otroUsuario != usuarioId || otroTorneo != torneoId ==>
      (EstaInscrito(Quitar(ins, usuarioId, torneoId), otroUsuario, otroTorneo) <==> EstaInscrito(ins, otroUsuario, otroTorneo))
  {
    if EstaInscrito(ins, usuarioId, torneoId) {
      var k := Posicion(ins, usuarioId, torneoId);
      var ins' := Quitar(ins, usuarioId, torneoId);
      assert ins' == ins[..k] + ins[k + 1..];
      assert forall i :: 0 <= i < |ins'| ==> ins'[i] == ins[if i < k then i else i + 1];
      if otroUsuario != usuarioId || otroTorneo != torneoId {
        if EstaInscrito(ins, otroUsuario, otroTorneo) {
          var i :| 0 <= i < |ins| && Coincide(ins[i], otroUsuario, otroTorneo);
          assert i != k;
          var j := if i < k then i else i - 1;
          assert ins'[j] == ins[i];
        }
      }
    }
  }

  /** Enrolling and then cancelling for the same user and tournament gives
      back the enrollment table it started from. */
  lemma InscribirYCancelar(ts: seq<Torneo>, ins: seq<Inscripcion>, torneoId: nat, usuarioId: nat, id: nat)
    requires Admitir(ts, ins, torneoId, usuarioId) == Admitida
    ensures Quitar(ins + [Inscripcion(id, usuarioId, torneoId)], usuarioId, torneoId) == ins
  {
    var ins' := ins + [Inscripcion(id, usuarioId, torneoId)];
    var k := Posicion(ins', usuarioId, torneoId);
    assert Coincide(ins'[|ins|], usuarioId, torneoId);
    assert forall j :: 0 <= j < |ins| ==> ins'[j] == ins[j];
    assert k == |ins|;
    assert ins'[..k] == ins;
  }

  /** The whole effect of one enrollment request on the table, the counter
      and the response: a failing guard rolls back and answers with its
      status; success appends exactly the row (usuarioId, torneoId) under
      the next id and answers 201 with it. */
  ghost predicate Transicion(
    ts: seq<Torneo>, ins: seq<Inscripcion>, sig: nat, torneoId: nat, usuarioId: nat,
    r: Response<Inscripcion>, ins': seq<Inscripcion>, sig': nat)
  {
    match Admitir(ts, ins, torneoId, usuarioId)
    case Rechazada(f) => r == Err(Status(f), f) && ins' == ins && sig' == sig
    case Admitida =>
      && r == Ok(201, Inscripcion(sig, usuarioId, torneoId))
      && ins' == ins + [r.value]
      && sig' == sig + 1
  }

  /** The guarded enrollment step both enrollment handlers run as one
      transaction. It keeps both table invariants. */
  method Inscribir(db: Db, torneoId: nat, usuarioId: nat) returns (r: Response<Inscripcion>)
    requires db.Valid()
    modifies db`inscripciones, db`siguienteInscripcionId
    ensures db.Valid()
    ensures Transicion(db.torneos, old(db.inscripciones), old(db.siguienteInscripcionId), torneoId, usuarioId,
                       r, db.inscripciones, db.siguienteInscripcionId)
    ensures ParesUnicos(old(db.inscripciones)) ==> ParesUnicos(db.inscripciones)
    ensures DentroDelCupo(db.torneos, old(db.inscripciones)) ==> DentroDelCupo(db.torneos, db.inscripciones)
  {
    var k := BuscarTorneo(db.torneos, torneoId);
    if k == |db.torneos| {
      return Err(404, TorneoNoEncontrado);
    }
    var torneo := db.torneos[k];
    if torneo.estado != Activo {
      return Err(400, TorneoNoActivo);
    }
    if Posicion(db.inscripciones, usuarioId, torneoId) < |db.inscripciones| {
      return Err(400, YaInscrito);
    }
    var inscripciones := Inscritos(db.inscripciones, torneoId);
    if inscripciones >= torneo.cupo {
      return Err(400, SinCupos);
    }
    var nueva := Inscripcion(db.siguienteInscripcionId, usuarioId, torneoId);
    InscribirPreservaParesUnicos(db.torneos, db.inscripciones, torneoId, usuarioId, nueva.id);
    InscribirPreservaCupo(db.torneos, db.inscripciones, torneoId, usuarioId, nueva.id);
    AppendFresh(db.inscripciones, nueva, InscripcionId, db.siguienteInscripcionId);
    db.inscripciones := db.inscripciones + [nueva];
    db.siguienteInscripcionId := db.siguienteInscripcionId + 1;
    return Ok(201, nueva);
  }

  /** `Inscripcion.count({ where: { torneoId } })` counts exactly the rows the
      `include` of that tournament's enrollments lists. */
  lemma {:induction false} InscritosEsFiltro(ins: seq<Inscripcion>, torneoId: nat)
    ensures Inscritos(ins, torneoId) == |Sequences.Filter(ins, DelTorneo(torneoId))|
  {
    if ins != [] {
      InscritosEsFiltro(ins[1..], torneoId);
    }
  }

  function DelTorneo(torneoId: nat): Inscripcion -> bool
  {
    (r: Inscripcion) => r.torneoId == torneoId
  }
}
