/** The user handlers (servidor/controllers/UsuarioController.js): the
    tournaments and testimonials of one user, the profile update, the
    participant listing and the public profile with the tournaments won. */
module UsuarioController {
  import opened Models
  import opened Responses
  import opened Database
  import opened Sequences
  import opened Inscripciones

  // ----- Tournaments of a user -----

  /** The six tournament attributes the enrollment join includes. */
  datatype TorneoResumen = TorneoResumen(
    id: nat,
    nombre: string,
    deporte: Deporte,
    fecha: int,
    ubicacion: string,
    estado: Estado)

  /** The joined tournament of an enrollment row: `null` when no tournament
      has that key (a LEFT OUTER JOIN). */
  function ResumenTorneo(ts: seq<Torneo>, torneoId: nat): (r: Option<TorneoResumen>)
    ensures r.Some? <==> ExisteTorneo(ts, torneoId)
    ensures r.Some? ==> r.value.id == torneoId
    ensures r.Some? ==> exists t :: t in ts && t.id == torneoId
                                    && r.value == TorneoResumen(t.id, t.nombre, t.deporte, t.fecha, t.ubicacion, t.estado)
  {
    var k := BuscarTorneo(ts, torneoId);
    if k == |ts| then None
    else Some(TorneoResumen(ts[k].id, ts[k].nombre, ts[k].deporte, ts[k].fecha, ts[k].ubicacion, ts[k].estado))
  }

  function DelUsuario(usuarioId: nat): Inscripcion -> bool
  {
    (r: Inscripcion) => r.usuarioId == usuarioId
  }

  function ResumenDe(ts: seq<Torneo>): Inscripcion -> Option<TorneoResumen>
  {
    (r: Inscripcion) => ResumenTorneo(ts, r.torneoId)
  }

  /** `obtenerTorneosUsuario`: one entry per enrollment row of the user, each
      the joined tournament. An unknown user gets an empty list, not a 404. */
  function ObtenerTorneosUsuario(ts: seq<Torneo>, ins: seq<Inscripcion>, usuarioId: nat)
    : (r: Response<seq<Option<TorneoResumen>>>)
    ensures r.Ok? && r.status == 200
    ensures |r.value| == Count(ins, DelUsuario(usuarioId))
    ensures forall t :: Some(t) in r.value ==>
      exists f :: f in ins && f.usuarioId == usuarioId && f.torneoId == t.id
  {
    var filas := Filter(ins, DelUsuario(usuarioId));
    CountIsFilterLength(ins, DelUsuario(usuarioId));
    FilterContenido(ins, DelUsuario(usuarioId));
    MapMembers(filas, ResumenDe(ts));
    Ok(200, Map(filas, ResumenDe(ts)))
  }

  /** Appending one enrollment row appends its tournament to the list of the
      row's user and to no other list. */
  lemma TorneosUsuarioAgregar(ts: seq<Torneo>, ins: seq<Inscripcion>, fila: Inscripcion, usuarioId: nat)
    ensures ObtenerTorneosUsuario(ts, ins + [fila], usuarioId).value
         == ObtenerTorneosUsuario(ts, ins, usuarioId).value
            + (if fila.usuarioId == usuarioId then [ResumenTorneo(ts, fila.torneoId)] else [])
  {
    FilterAppend(ins, fila, DelUsuario(usuarioId));
    if fila.usuarioId == usuarioId {
      MapAppend(Filter(ins, DelUsuario(usuarioId)), fila, ResumenDe(ts));
    }
  }

  /** A successful enrollment adds its tournament at the end of the user's
      list and leaves every other user's list as it was. */
  lemma TorneosUsuarioTrasInscribir(
    ts: seq<Torneo>, ins: seq<Inscripcion>, sig: nat, torneoId: nat, usuarioId: nat,
    r: Response<Inscripcion>, ins': seq<Inscripcion>, sig': nat, otro: nat)
    requires Transicion(ts, ins, sig, torneoId, usuarioId, r, ins', sig')
    requires r.Ok?
    ensures ObtenerTorneosUsuario(ts, ins', usuarioId).value
         == ObtenerTorneosUsuario(ts, ins, usuarioId).value + [ResumenTorneo(ts, torneoId)]
    ensures otro != usuarioId ==> ObtenerTorneosUsuario(ts, ins', otro) == ObtenerTorneosUsuario(ts, ins, otro)
  {
    var fila := Inscripcion(sig, usuarioId, torneoId);
    assert Admitir(ts, ins, torneoId, usuarioId).Admitida?;
    assert ins' == ins + [fila];
    TorneosUsuarioAgregar(ts, ins, fila, usuarioId);
    if otro != usuarioId {
      TorneosUsuarioAgregar(ts, ins, fila, otro);
      var antes := ObtenerTorneosUsuario(ts, ins, otro).value;
      assert antes + [] == antes;
    }
  }

  // ----- Testimonials of a user -----

  const Reciente: Testimonio -> int := (t: Testimonio) => -t.createdAt

  /** `obtenerTestimoniosUsuario`: the user's testimonials, newest first. */
  function ObtenerTestimoniosUsuario(tms: seq<Testimonio>, usuarioId: nat): (r: Response<seq<Testimonio>>)
    ensures r.Ok? && r.status == 200
    ensures forall i, j :: 0 <= i < j < |r.value| ==> r.value[i].createdAt >= r.value[j].createdAt
    ensures forall t :: multiset(r.value)[t] == if t.usuarioId == usuarioId then multiset(tms)[t] else 0
  {
    var suyo := (t: Testimonio) => t.usuarioId == usuarioId;
    FilterContenido(tms, suyo);
    var r := SortBy(Filter(tms, suyo), Reciente);
    assert forall i, j :: 0 <= i < j < |r| ==> Reciente(r[i]) <= Reciente(r[j]);
    Ok(200, r)
  }

  // ----- Profile update -----

  /** The four attributes `actualizarPerfilUsuario` reads from the body and
      echoes back. */
  datatype PerfilBody = PerfilBody(nombre: string, email: string, genero: Genero, edad: int)

  /** Another row than the k-th already holds the email: the UNIQUE
      constraint on `email` then rejects the update. */
  predicate EmailDeOtro(us: seq<Usuario>, k: nat, email: string)
  {
    exists j :: 0 <= j < |us| && j != k && us[j].email == email
  }

  function Actualizado(u: Usuario, datos: PerfilBody): (u': Usuario)
    ensures u'.id == u.id && u'.password == u.password && u'.rol == u.rol && u'.createdAt == u.createdAt
    ensures u'.nombre == datos.nombre && u'.email == datos.email && u'.genero == datos.genero && u'.edad == datos.edad
  {
    u.(nombre := datos.nombre, email := datos.email, genero := datos.genero, edad := datos.edad)
  }

  /** `actualizarPerfilUsuario`: 404 when the user is absent; a 500 when the
      new email belongs to another user; otherwise the four profile attributes
      are overwritten and echoed. The password, role and creation time stay. */
  method ActualizarPerfilUsuario(db: Db, id: nat, datos: PerfilBody) returns (r: Response<PerfilBody>)
    requires db.Valid()
    modifies db`usuarios
    ensures db.Valid()
    ensures r.Err? <==> !ExisteUsuario(old(db.usuarios), id)
                        || EmailDeOtro(old(db.usuarios), BuscarUsuario(old(db.usuarios), id), datos.email)
    ensures r.Err? ==> db.usuarios == old(db.usuarios)
    ensures r.Err? ==> r == (if ExisteUsuario(old(db.usuarios), id) then Err(500, EmailEnUso)
                             else Err(404, UsuarioNoEncontrado))
    ensures r.Ok? ==>
      var k := BuscarUsuario(old(db.usuarios), id);
      && r == Ok(200, datos)
      && db.usuarios == old(db.usuarios)[k := Actualizado(old(db.usuarios)[k], datos)]
  {
    var k := BuscarUsuario(db.usuarios, id);
    if k == |db.usuarios| {
      return Err(404, UsuarioNoEncontrado);
    }
    if EmailDeOtro(db.usuarios, k, datos.email) {
      return Err(500, EmailEnUso);
    }
    ActualizarConservaClaves(db.usuarios, k, datos);
    db.usuarios := db.usuarios[k := Actualizado(db.usuarios[k], datos)];
    return Ok(200, datos);
  }

  /** Overwriting one user's profile with an email no other row holds keeps
      ids and emails unique. */
  lemma ActualizarConservaClaves(us: seq<Usuario>, k: nat, datos: PerfilBody)
    requires k < |us|
    requires IdsUnique(us, UsuarioId) && EmailsUnique(us)
    requires !EmailDeOtro(us, k, datos.email)
    ensures IdsUnique(us[k := Actualizado(us[k], datos)], UsuarioId)
    ensures EmailsUnique(us[k := Actualizado(us[k], datos)])
  {
    var us' := us[k := Actualizado(us[k], datos)];
    forall i, j | 0 <= i < j < |us'| ensures us'[i].email != us'[j].email {
      if i == k {
        assert us[j].email != datos.email;
      } else if j == k {
        assert us[i].email != datos.email;
      }
    }
    forall i, j | 0 <= i < j < |us'| ensures UsuarioId(us'[i]) != UsuarioId(us'[j]) {
      assert UsuarioId(us[i]) != UsuarioId(us[j]);
    }
  }

  /** Saving one's profile with one's own unchanged email succeeds. */
  lemma MismoEmailAceptado(us: seq<Usuario>, k: nat, datos: PerfilBody)
    requires k < |us| && EmailsUnique(us)
    requires datos.email == us[k].email
    ensures !EmailDeOtro(us, k, datos.email)
  {
    forall j | 0 <= j < |us| && j != k ensures us[j].email != datos.email {
      if j < k {
        assert us[j].email != us[k].email;
      } else {
        assert us[k].email != us[j].email;
      }
    }
  }

  // ----- Participant listing -----

  const PublicoReciente: UsuarioPublico -> int := (p: UsuarioPublico) => -p.createdAt

  const EsParticipante: Usuario -> bool := (u: Usuario) => u.rol == Participante

  /** The participants' rows without the password, in table order. */
  function PublicosParticipantes(us: seq<Usuario>): (ps: seq<UsuarioPublico>)
    ensures |ps| == Count(us, EsParticipante)
    ensures forall p :: p in ps ==> p.rol == Participante && exists u :: u in us && Publico(u) == p
    ensures forall u :: u in us && u.rol == Participante ==> Publico(u) in ps
  {
    var participantes := Filter(us, EsParticipante);
    CountIsFilterLength(us, EsParticipante);
    FilterContenido(us, EsParticipante);
    MapMembers(participantes, Publico);
    Map(participantes, Publico)
  }

  /** `obtenerTodosLosUsuarios`: every participant (no admin) without the
      password, newest account first. */
  function ObtenerParticipantes(us: seq<Usuario>): (r: Response<seq<UsuarioPublico>>)
    ensures r.Ok? && r.status == 200
    ensures |r.value| == Count(us, EsParticipante)
    ensures forall i, j :: 0 <= i < j < |r.value| ==> r.value[i].createdAt >= r.value[j].createdAt
    ensures forall p :: p in r.value ==> p.rol == Participante && exists u :: u in us && Publico(u) == p
    ensures forall u :: u in us && u.rol == Participante ==> Publico(u) in r.value
  {
    var publicos := PublicosParticipantes(us);
    var r := SortBy(publicos, PublicoReciente);
    SortByMembers(publicos, PublicoReciente);
    assert forall i, j :: 0 <= i < j < |r| ==> PublicoReciente(r[i]) <= PublicoReciente(r[j]);
    Ok(200, r)
  }

  // ----- Public profile -----

  datatype GanadorConTorneo = GanadorConTorneo(ganador: Ganador, torneo: Option<Torneo>)

  datatype PerfilConGanados = PerfilConGanados(usuario: UsuarioPublico, torneosGanados: seq<GanadorConTorneo>)

  /** The winner row an entry of `torneosGanados` was built from. */
  const FilaGanador: GanadorConTorneo -> Ganador := (e: GanadorConTorneo) => e.ganador

  /** The whole tournament row a winner row points at, when it exists. */
  function TorneoDe(ts: seq<Torneo>, torneoId: nat): (r: Option<Torneo>)
    ensures r.Some? <==> ExisteTorneo(ts, torneoId)
    ensures r.Some? ==> r.value in ts && r.value.id == torneoId
  {
    var k := BuscarTorneo(ts, torneoId);
    if k == |ts| then None else Some(ts[k])
  }

  function GanadoPor(usuarioId: nat): Ganador -> bool
  {
    (g: Ganador) => g.usuarioId == usuarioId
  }

  function ConTorneo(ts: seq<Torneo>): Ganador -> GanadorConTorneo
  {
    (g: Ganador) => GanadorConTorneo(g, TorneoDe(ts, g.torneoId))
  }

  /** `torneosGanados`: every winner row naming the user once, each joined
      with its tournament. */
  function GanadosPor(gs: seq<Ganador>, ts: seq<Torneo>, id: nat): (r: seq<GanadorConTorneo>)
    ensures |r| == Count(gs, GanadoPor(id))
    ensures forall k :: 0 <= k < |r| ==>
      r[k].ganador in gs && r[k].ganador.usuarioId == id && r[k].torneo == TorneoDe(ts, r[k].ganador.torneoId)
    ensures forall g :: multiset(Map(r, FilaGanador))[g] == if g.usuarioId == id then multiset(gs)[g] else 0
  {
    var filas := Filter(gs, GanadoPor(id));
    CountIsFilterLength(gs, GanadoPor(id));
    FilterMapUndone(gs, GanadoPor(id), ConTorneo(ts), FilaGanador);
    FilterMapEntries(gs, GanadoPor(id), ConTorneo(ts), FilaGanador);
    Map(filas, ConTorneo(ts))
  }

  /** `obtenerUserById`: 404 when absent; otherwise the user without the
      password and every winner row naming the user, each joined with its
      tournament. Nothing stops several rows for one tournament. */
  function ObtenerUserById(us: seq<Usuario>, gs: seq<Ganador>, ts: seq<Torneo>, id: nat): (r: Response<PerfilConGanados>)
    ensures r.Err? <==> !ExisteUsuario(us, id)
    ensures r.Err? ==> r == Err(404, UsuarioNoEncontrado)
    ensures r.Ok? ==>
      && r.status == 200
      && r.value.usuario.id == id
      && (exists u :: u in us && Publico(u) == r.value.usuario)
      && |r.value.torneosGanados| == Count(gs, GanadoPor(id))
      && forall k :: 0 <= k < |r.value.torneosGanados| ==>
           var e := r.value.torneosGanados[k];
           e.ganador in gs && e.ganador.usuarioId == id && e.torneo == TorneoDe(ts, e.ganador.torneoId)
    ensures r.Ok? ==> forall g :: multiset(Map(r.value.torneosGanados, FilaGanador))[g]
                                  == if g.usuarioId == id then multiset(gs)[g] else 0
  {
    var k := BuscarUsuario(us, id);
    if k == |us| then Err(404, UsuarioNoEncontrado)
    else Ok(200, PerfilConGanados(Publico(us[k]), GanadosPor(gs, ts, id)))
  }

  /** Two winner rows for the same user and tournament both show up. */
  lemma GanadorRepetido(u: Usuario, t: Torneo)
    ensures var gs := [Ganador(1, u.id, t.id), Ganador(2, u.id, t.id)];
      |ObtenerUserById([u], gs, [t], u.id).value.torneosGanados| == 2
  {
    var gs := [Ganador(1, u.id, t.id), Ganador(2, u.id, t.id)];
    assert Count(gs, GanadoPor(u.id)) == 2 by {
      assert gs[1..] == [Ganador(2, u.id, t.id)];
      assert gs[1..][1..] == [];
    }
    assert ExisteUsuario([u], u.id) by { assert [u][0].id == u.id; }
  }
}
