/** The tournament handlers (servidor/controllers/TorneoController.js): three
    listings and a detail view computed from the tables, and the handlers that
    create, overwrite, change the state of, and enroll into a tournament. */
module TorneoController {
  import opened Models
  import opened Responses
  import opened Database
  import opened Sequences
  import opened Inscripciones

  /** Body of `crearTorneo`: the seven fields it reads. */
  datatype TorneoBody = TorneoBody(
    nombre: string,
    deporte: Deporte,
    fecha: int,
    ubicacion: string,
    descripcion: string,
    cupo: int,
    precio: real)

  /** Body of `actualizarTorneo`: the eight fields it reads, each of which may
      be absent; the update skips an absent field. */
  datatype CambiosTorneo = CambiosTorneo(
    nombre: Option<string>,
    deporte: Option<Deporte>,
    fecha: Option<int>,
    ubicacion: Option<string>,
    descripcion: Option<string>,
    cupo: Option<int>,
    precio: Option<real>,
    estado: Option<Estado>)

  /** Body of `cambiarEstadoTorneo`; the client also sends the winner's id,
      which the handler never reads. A body without `estado` updates nothing. */
  datatype CambioEstadoBody = CambioEstadoBody(estado: Option<Estado>, usuarioId: Option<nat>)

  /** Body of the routed enrollment handler. */
  datatype InscripcionBody = InscripcionBody(usuarioId: nat)

  const PorFecha: Torneo -> int := (t: Torneo) => t.fecha

  // ----- Listings -----

  predicate ActivoProximo(t: Torneo, now: int)
  {
    t.estado == Activo && t.fecha >= now
  }

  function ActivoProximoEn(now: int): Torneo -> bool
  {
    (t: Torneo) => ActivoProximo(t, now)
  }

  /** `obtenerTorneosActivos`: the active tournaments dated now or later,
      earliest first. */
  function ObtenerTorneosActivos(ts: seq<Torneo>, now: int): (r: Response<seq<Torneo>>)
    ensures r.Ok? && r.status == 200
    ensures SortedBy(r.value, PorFecha)
    ensures forall t :: multiset(r.value)[t] == if ActivoProximo(t, now) then multiset(ts)[t] else 0
  {
    FilterContenido(ts, ActivoProximoEn(now));
    Ok(200, SortBy(Filter(ts, ActivoProximoEn(now)), PorFecha))
  }

  /** SQL `LIKE '%sub%'`, read as a plain substring test. */
  predicate Contiene(s: string, sub: string)
    decreases |s|
  {
    |sub| <= |s| && (s[..|sub|] == sub || Contiene(s[1..], sub))
  }

  /** The WHERE clause `obtenerTorneosConFiltros` builds: `estado` defaults to
      active when absent, `deporte` is compared for equality, `busqueda`
      matches part of `nombre`. No date condition. */
  predicate CumpleFiltros(t: Torneo, deporte: Option<Deporte>, busqueda: Option<string>, estado: Option<Estado>)
  {
    && t.estado == (if estado.Some? then estado.value else Activo)
    && (deporte.Some? ==> t.deporte == deporte.value)
    && (busqueda.Some? ==> Contiene(t.nombre, busqueda.value))
  }

  function ObtenerTorneosConFiltros(ts: seq<Torneo>, deporte: Option<Deporte>, busqueda: Option<string>, estado: Option<Estado>)
    : (r: Response<seq<Torneo>>)
    ensures r.Ok? && r.status == 200
    ensures SortedBy(r.value, PorFecha)
    ensures forall t :: multiset(r.value)[t] == if CumpleFiltros(t, deporte, busqueda, estado) then multiset(ts)[t] else 0
  {
    var cumple := (t: Torneo) => CumpleFiltros(t, deporte, busqueda, estado);
    FilterContenido(ts, cumple);
    Ok(200, SortBy(Filter(ts, cumple), PorFecha))
  }

  /** With no query parameters the filtered listing shows every active
      tournament, including past ones that the active listing leaves out. */
  lemma FiltrosPorDefecto(ts: seq<Torneo>, now: int, t: Torneo)
    requires t in ts && t.estado == Activo
    ensures t in ObtenerTorneosConFiltros(ts, None, None, None).value
    ensures t in ObtenerTorneosActivos(ts, now).value <==> t.fecha >= now
  {
    var filtrados := ObtenerTorneosConFiltros(ts, None, None, None).value;
    var activos := ObtenerTorneosActivos(ts, now).value;
    assert multiset(filtrados)[t] == multiset(ts)[t] > 0;
    assert multiset(activos)[t] == if t.fecha >= now then multiset(ts)[t] else 0;
  }

  datatype TorneoConInscritos = TorneoConInscritos(torneo: Torneo, inscritos: nat)

  /** `obtenerTorneosConInscritos`: every tournament with its enrollment
      count, or 404 when the table is empty. */
  function ObtenerTorneosConInscritos(ts: seq<Torneo>, ins: seq<Inscripcion>): (r: Response<seq<TorneoConInscritos>>)
    ensures r.Err? <==> ts == []
    ensures r.Err? ==> r == Err(404, NoHayTorneos)
    ensures r.Ok? ==> r.status == 200 && |r.value| == |ts|
    ensures r.Ok? ==> forall k :: 0 <= k < |ts| ==>
      r.value[k].torneo == ts[k] && r.value[k].inscritos == Inscritos(ins, ts[k].id)
  {
    if ts == [] then Err(404, NoHayTorneos)
    else Ok(200, Map(ts, (t: Torneo) => TorneoConInscritos(t, Inscritos(ins, t.id))))
  }

  // ----- Detail view -----

  /** The attributes of an enrolled user the detail view includes. */
  datatype UsuarioResumen = UsuarioResumen(id: nat, nombre: string, genero: Genero, edad: int)

  datatype InscritoDetalle = InscritoDetalle(inscripcion: Inscripcion, usuario: Option<UsuarioResumen>)

  /** The enrollment row an entry of the detail view was built from. */
  const FilaInscrita: InscritoDetalle -> Inscripcion := (e: InscritoDetalle) => e.inscripcion

  datatype TorneoDetalle = TorneoDetalle(
    torneo: Torneo,
    inscritos: seq<InscritoDetalle>,
    cuposDisponibles: int,
    inscripciones: nat)

  function Resumen(us: seq<Usuario>, usuarioId: nat): (r: Option<UsuarioResumen>)
    ensures r.Some? <==> ExisteUsuario(us, usuarioId)
    ensures r.Some? ==> exists u :: u in us && u.id == usuarioId
                                    && r.value == UsuarioResumen(u.id, u.nombre, u.genero, u.edad)
  {
    var k := BuscarUsuario(us, usuarioId);
    if k == |us| then None
    else Some(UsuarioResumen(us[k].id, us[k].nombre, us[k].genero, us[k].edad))
  }

  function ConUsuario(us: seq<Usuario>): Inscripcion -> InscritoDetalle
  {
    (f: Inscripcion) => InscritoDetalle(f, Resumen(us, f.usuarioId))
  }

  /** The included enrollments of the detail view: every row of the
      tournament once, each joined with its user. */
  function DetalleInscritos(ins: seq<Inscripcion>, us: seq<Usuario>, id: nat): (r: seq<InscritoDetalle>)
    ensures |r| == Inscritos(ins, id)
    ensures forall k :: 0 <= k < |r| ==>
      r[k].inscripcion in ins && r[k].inscripcion.torneoId == id && r[k].usuario == Resumen(us, r[k].inscripcion.usuarioId)
    ensures forall f :: multiset(Map(r, FilaInscrita))[f] == if f.torneoId == id then multiset(ins)[f] else 0
  {
    var filas := Filter(ins, DelTorneo(id));
    InscritosEsFiltro(ins, id);
    FilterMapUndone(ins, DelTorneo(id), ConUsuario(us), FilaInscrita);
    FilterMapEntries(ins, DelTorneo(id), ConUsuario(us), FilaInscrita);
    Map(filas, ConUsuario(us))
  }

  /** `obtenerTorneoPorId`: 404 when absent; otherwise the tournament, its
      enrollments each joined with its user, their number, and the free places
      `cupo - inscripciones`, not clamped at zero. */
  function ObtenerTorneoPorId(ts: seq<Torneo>, ins: seq<Inscripcion>, us: seq<Usuario>, id: nat): (r: Response<TorneoDetalle>)
    ensures r.Err? <==> !ExisteTorneo(ts, id)
    ensures r.Err? ==> r == Err(404, TorneoNoEncontrado)
    ensures r.Ok? ==>
      && r.status == 200
      && r.value.torneo in ts && r.value.torneo.id == id
      && r.value.inscripciones == Inscritos(ins, id)
      && r.value.cuposDisponibles == r.value.torneo.cupo - r.value.inscripciones
      && |r.value.inscritos| == r.value.inscripciones
      && forall k :: 0 <= k < |r.value.inscritos| ==>
           var e := r.value.inscritos[k];
           e.inscripcion in ins && e.inscripcion.torneoId == id && e.usuario == Resumen(us, e.inscripcion.usuarioId)
    ensures r.Ok? ==> forall f :: multiset(Map(r.value.inscritos, FilaInscrita))[f]
                                  == if f.torneoId == id then multiset(ins)[f] else 0
  {
    var k := BuscarTorneo(ts, id);
    if k == |ts| then Err(404, TorneoNoEncontrado)
    else
      var n := Inscritos(ins, id);
      Ok(200, TorneoDetalle(ts[k], DetalleInscritos(ins, us, id), ts[k].cupo - n, n))
  }

  /** The detail view and the admin listing report the same count. */
  lemma DetalleYListadoCoinciden(ts: seq<Torneo>, ins: seq<Inscripcion>, us: seq<Usuario>, j: nat)
    requires j < |ts|
    ensures ObtenerTorneoPorId(ts, ins, us, ts[j].id).Ok?
    ensures ObtenerTorneoPorId(ts, ins, us, ts[j].id).value.inscripciones
         == ObtenerTorneosConInscritos(ts, ins).value[j].inscritos
  {
    assert ExisteTorneo(ts, ts[j].id);
  }

  /** After a successful enrollment the detail view shows one free place
      fewer than before, and never a negative number. */
  lemma CuposTrasInscribir(ts: seq<Torneo>, ins: seq<Inscripcion>, us: seq<Usuario>, torneoId: nat, usuarioId: nat, id: nat)
    requires IdsIncreasing(ts, TorneoId)
    requires Admitir(ts, ins, torneoId, usuarioId) == Admitida
    ensures var antes := ObtenerTorneoPorId(ts, ins, us, torneoId);
            var despues := ObtenerTorneoPorId(ts, ins + [Inscripcion(id, usuarioId, torneoId)], us, torneoId);
            && antes.Ok? && despues.Ok?
            && despues.value.cuposDisponibles == antes.value.cuposDisponibles - 1
            && despues.value.cuposDisponibles >= 0
  {
    InscribirPreservaCupo(ts, ins, torneoId, usuarioId, id);
    var antes := ObtenerTorneoPorId(ts, ins, us, torneoId);
    BuscarTorneoUnico(ts, torneoId, BuscarTorneo(ts, torneoId));
    var k := BuscarTorneo(ts, torneoId);
    assert antes.value.torneo == ts[k] by {
      var j :| 0 <= j < |ts| && ts[j] == antes.value.torneo;
      BuscarTorneoUnico(ts, torneoId, j);
    }
    var despues := ObtenerTorneoPorId(ts, ins + [Inscripcion(id, usuarioId, torneoId)], us, torneoId);
    assert despues.value.torneo == ts[k] by {
      var j :| 0 <= j < |ts| && ts[j] == despues.value.torneo;
      BuscarTorneoUnico(ts, torneoId, j);
    }
  }

  // ----- Handlers that change the tables -----

  /** The row `crearTorneo` inserts: the body's seven fields under a fresh
      id, and `estado` active; the handler reads no state from the body. */
  function NuevoTorneo(id: nat, body: TorneoBody): Torneo
  {
    Torneo(id, body.nombre, body.deporte, body.fecha, body.ubicacion, body.descripcion, body.cupo, body.precio, Activo)
  }

  method CrearTorneo(db: Db, body: TorneoBody) returns (r: Response<Torneo>)
    requires db.Valid()
    modifies db`torneos, db`siguienteTorneoId
    ensures db.Valid()
    ensures r.Ok? && r.status == 201
    ensures r.value.estado == Activo
    ensures r.value == NuevoTorneo(old(db.siguienteTorneoId), body)
    ensures db.torneos == old(db.torneos) + [r.value]
    ensures db.siguienteTorneoId == old(db.siguienteTorneoId) + 1
  {
    var nuevo := NuevoTorneo(db.siguienteTorneoId, body);
    AppendFresh(db.torneos, nuevo, TorneoId, db.siguienteTorneoId);
    db.torneos := db.torneos + [nuevo];
    db.siguienteTorneoId := db.siguienteTorneoId + 1;
    return Ok(201, nuevo);
  }

  /** Creating a tournament changes no enrollment count and so keeps both
      invariants; the new tournament starts with no enrollments. */
  lemma CrearPreservaCupo(ts: seq<Torneo>, ins: seq<Inscripcion>, id: nat, body: TorneoBody)
    requires DentroDelCupo(ts, ins)
    requires body.cupo >= 0
    requires forall r :: r in ins ==> r.torneoId != id
    ensures DentroDelCupo(ts + [NuevoTorneo(id, body)], ins)
  {
    NingunoInscrito(ins, id);
    var ts' := ts + [NuevoTorneo(id, body)];
    assert forall k :: 0 <= k < |ts| ==> ts'[k] == ts[k];
  }

  /** The server does not check `cupo` on creation: a negative one leaves
      the new tournament over capacity at once. */
  lemma CrearConCupoNegativo(ts: seq<Torneo>, ins: seq<Inscripcion>, id: nat, body: TorneoBody)
    requires body.cupo < 0
    ensures !DentroDelCupo(ts + [NuevoTorneo(id, body)], ins)
  {
    var ts' := ts + [NuevoTorneo(id, body)];
    assert ts'[|ts|].cupo < 0 <= Inscritos(ins, ts'[|ts|].id);
  }

  lemma {:induction false} NingunoInscrito(ins: seq<Inscripcion>, id: nat)
    requires forall r :: r in ins ==> r.torneoId != id
    ensures Inscritos(ins, id) == 0
  {
    if ins != [] {
      assert ins[0] in ins;
      assert forall r :: r in ins[1..] ==> r in ins;
      NingunoInscrito(ins[1..], id);
    }
  }

  /** The value a field takes: the body's when present, else the current one. */
  function Elegir<T>(nuevo: Option<T>, actual: T): T
  {
    if nuevo.Some? then nuevo.value else actual
  }

  /** `actualizarTorneo` overwrites each of the eight fields the body carries,
      `estado` and `cupo` included, and keeps the id and every absent field. */
  function Sobrescribir(t: Torneo, body: CambiosTorneo): Torneo
  {
    Torneo(t.id, Elegir(body.nombre, t.nombre), Elegir(body.deporte, t.deporte), Elegir(body.fecha, t.fecha),
           Elegir(body.ubicacion, t.ubicacion), Elegir(body.descripcion, t.descripcion),
           Elegir(body.cupo, t.cupo), Elegir(body.precio, t.precio), Elegir(body.estado, t.estado))
  }

  method ActualizarTorneo(db: Db, id: nat, body: CambiosTorneo) returns (r: Response<Torneo>)
    requires db.Valid()
    modifies db`torneos
    ensures db.Valid()
    ensures r.Err? <==> !ExisteTorneo(old(db.torneos), id)
    ensures r.Err? ==> r == Err(404, TorneoNoEncontrado) && db.torneos == old(db.torneos)
    ensures r.Ok? ==>
      var k := BuscarTorneo(old(db.torneos), id);
      && r.status == 200
      && r.value == Sobrescribir(old(db.torneos)[k], body)
      && db.torneos == old(db.torneos)[k := r.value]
    ensures r.Ok? ==> r.value.id == id
    ensures r.Ok? && body.estado.None? ==> r.value.estado == old(db.torneos)[BuscarTorneo(old(db.torneos), id)].estado
    ensures r.Ok? && body.cupo.None? ==> r.value.cupo == old(db.torneos)[BuscarTorneo(old(db.torneos), id)].cupo
  {
    var k := BuscarTorneo(db.torneos, id);
    if k == |db.torneos| {
      return Err(404, TorneoNoEncontrado);
    }
    var actualizado := Sobrescribir(db.torneos[k], body);
    MismosIds(db.torneos, k, actualizado, db.siguienteTorneoId);
    db.torneos := db.torneos[k := actualizado];
    return Ok(200, actualizado);
  }

  /** Replacing a row by one with the same id keeps the key invariants. */
  lemma MismosIds(ts: seq<Torneo>, k: nat, t: Torneo, next: nat)
    requires k < |ts| && t.id == ts[k].id
    requires IdsIncreasing(ts, TorneoId)
    ensures IdsIncreasing(ts[k := t], TorneoId)
    ensures IdsBelow(ts, TorneoId, next) ==> IdsBelow(ts[k := t], TorneoId, next)
  {
    var ts' := ts[k := t];
    assert forall i :: 0 <= i < |ts| ==> TorneoId(ts'[i]) == TorneoId(ts[i]);
  }

  /** `actualizarTorneo` does not keep the capacity invariant: a new `cupo`
      below the tournament's current count leaves it over capacity. */
  lemma ActualizarRompeCupo(ts: seq<Torneo>, ins: seq<Inscripcion>, k: nat, body: CambiosTorneo)
    requires k < |ts|
    requires body.cupo.Some? && body.cupo.value < Inscritos(ins, ts[k].id)
    ensures !DentroDelCupo(ts[k := Sobrescribir(ts[k], body)], ins)
  {
    var ts' := ts[k := Sobrescribir(ts[k], body)];
    assert Inscritos(ins, ts'[k].id) > ts'[k].cupo;
  }

  /** A reachable instance: a tournament filled by two enrollments, then
      updated to `cupo` 1. */
  lemma ActualizarRompeCupoEjemplo()
    ensures var t := Torneo(1, "Copa Lima", Natacion, 100, "Lima Sur", "", 2, 0.0, Activo);
            var ins := [Inscripcion(1, 7, 1), Inscripcion(2, 8, 1)];
            var body := CambiosTorneo(None, None, None, None, None, Some(1), None, None);
            && ParesUnicos(ins) && DentroDelCupo([t], ins)
            && !DentroDelCupo([Sobrescribir(t, body)], ins)
  {
    var t := Torneo(1, "Copa Lima", Natacion, 100, "Lima Sur", "", 2, 0.0, Activo);
    var ins := [Inscripcion(1, 7, 1), Inscripcion(2, 8, 1)];
    var body := CambiosTorneo(None, None, None, None, None, Some(1), None, None);
    assert Inscritos(ins, 1) == 2 by {
      assert ins[1..] == [Inscripcion(2, 8, 1)];
      assert ins[1..][1..] == [];
    }
    assert DentroDelCupo([t], ins);
    assert [Sobrescribir(t, body)][0].cupo == 1;
  }

  /** `cambiarEstadoTorneo` sets the requested state whatever the current one
      is, and touches no other field. Without a state in the body the row is
      left as it is and the answer is still 200. */
  method CambiarEstadoTorneo(db: Db, id: nat, body: CambioEstadoBody) returns (r: Response<Torneo>)
    requires db.Valid()
    modifies db`torneos
    ensures db.Valid()
    ensures r.Err? <==> !ExisteTorneo(old(db.torneos), id)
    ensures r.Err? ==> r == Err(404, TorneoNoEncontrado) && db.torneos == old(db.torneos)
    ensures r.Ok? ==>
      var k := BuscarTorneo(old(db.torneos), id);
      && r.status == 200
      && r.value == old(db.torneos)[k].(estado := Elegir(body.estado, old(db.torneos)[k].estado))
      && db.torneos == old(db.torneos)[k := r.value]
    ensures r.Ok? && body.estado.Some? ==> r.value.estado == body.estado.value
    ensures r.Ok? && body.estado.None? ==> db.torneos == old(db.torneos)
  {
    var k := BuscarTorneo(db.torneos, id);
    if k == |db.torneos| {
      return Err(404, TorneoNoEncontrado);
    }
    var actualizado := db.torneos[k].(estado := Elegir(body.estado, db.torneos[k].estado));
    MismosIds(db.torneos, k, actualizado, db.siguienteTorneoId);
    db.torneos := db.torneos[k := actualizado];
    return Ok(200, actualizado);
  }

  /** Setting a tournament back to active, even from finalised, reopens it to
      every user not enrolled in it while it has room. */
  lemma ReactivarPermiteInscribir(ts: seq<Torneo>, ins: seq<Inscripcion>, k: nat, usuarioId: nat)
    requires IdsIncreasing(ts, TorneoId)
    requires k < |ts|
    requires !EstaInscrito(ins, usuarioId, ts[k].id)
    requires Inscritos(ins, ts[k].id) < ts[k].cupo
    ensures Admitir(ts[k := ts[k].(estado := Activo)], ins, ts[k].id, usuarioId) == Admitida
  {
    var ts' := ts[k := ts[k].(estado := Activo)];
    MismosIds(ts, k, ts'[k], 0);
    BuscarTorneoUnico(ts', ts[k].id, k);
  }

  /** The routed enrollment handler: the user enrolled is whoever the body
      names, not necessarily the authenticated caller. */
  method InscribirUsuario(db: Db, torneoId: nat, body: InscripcionBody) returns (r: Response<Inscripcion>)
    requires db.Valid()
    modifies db`inscripciones, db`siguienteInscripcionId
    ensures db.Valid()
    ensures Transicion(db.torneos, old(db.inscripciones), old(db.siguienteInscripcionId), torneoId, body.usuarioId,
                       r, db.inscripciones, db.siguienteInscripcionId)
    ensures ParesUnicos(old(db.inscripciones)) ==> ParesUnicos(db.inscripciones)
    ensures DentroDelCupo(db.torneos, old(db.inscripciones)) ==> DentroDelCupo(db.torneos, db.inscripciones)
  {
    r := Inscribir(db, torneoId, body.usuarioId);
  }
}
