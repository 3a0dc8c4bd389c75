/** The administrator's handlers (servidor/controllers/AdminController.js):
    the dashboard statistics, and the listings of every user and every
    testimonial. All three only read the tables. */
module AdminController {
  import opened Models
  import opened Responses
  import opened Database
  import opened Sequences
  import opened Inscripciones
  import TorneoController
  import UsuarioController
  import TestimonioController

  // ----- Statistics -----

  /** The values of the `deporte` enumeration, in declaration order. */
  const Deportes: seq<Deporte> := [Natacion, AguasAbiertas, Triatlon, Acuatlon, Atletismo]

  /** The `genero` a joined enrollment row carries: the enrolled user's, or
      `null` when no user has the row's `usuarioId` (a LEFT OUTER JOIN). */
  const Generos: seq<Option<Genero>> := [Some(Masculino), Some(Femenino), None]

  const DeporteDe: Torneo -> Deporte := (t: Torneo) => t.deporte

  function GeneroDe(us: seq<Usuario>): Inscripcion -> Option<Genero>
  {
    (r: Inscripcion) =>
      var k := BuscarUsuario(us, r.usuarioId);
      if k == |us| then None else Some(us[k].genero)
  }

  /** Active and dated strictly after `now`. */
  predicate Proximo(t: Torneo, now: int)
  {
    t.estado == Activo && t.fecha > now
  }

  function ProximoEn(now: int): Torneo -> bool
  {
    (t: Torneo) => Proximo(t, now)
  }

  /** Dated strictly before `now`, in any state. */
  predicate Pasado(t: Torneo, now: int)
  {
    t.fecha < now
  }

  function PasadoEn(now: int): Torneo -> bool
  {
    (t: Torneo) => Pasado(t, now)
  }

  /** Active and dated exactly `now`. */
  function ActivoHoy(now: int): Torneo -> bool
  {
    (t: Torneo) => t.estado == Activo && t.fecha == now
  }

  /** The group-by keys: every value of each enumeration, each listed once. */
  lemma ClavesEnumeradas()
    ensures Distinct(Deportes) && Distinct(Generos)
    ensures forall d: Deporte :: d in Deportes
    ensures forall g: Option<Genero> :: g in Generos
  {
    forall d: Deporte ensures d in Deportes {
      match d
      case Natacion => assert Deportes[0] == d;
      case AguasAbiertas => assert Deportes[1] == d;
      case Triatlon => assert Deportes[2] == d;
      case Acuatlon => assert Deportes[3] == d;
      case Atletismo => assert Deportes[4] == d;
    }
    forall g: Option<Genero> ensures g in Generos {
      match g
      case Some(Masculino) => assert Generos[0] == g;
      case Some(Femenino) => assert Generos[1] == g;
      case None => assert Generos[2] == g;
    }
  }

  function SumaCalificaciones(tms: seq<Testimonio>): int
  {
    if tms == [] then 0 else tms[0].calificacion + SumaCalificaciones(tms[1..])
  }

  /** `avg(calificacion) || 0`: the mean rating, and 0 when there is no
      testimonial (SQL gives NULL). The decimal rounding of the database is
      not modelled. */
  function CalificacionPromedio(tms: seq<Testimonio>): (p: real)
    ensures tms == [] ==> p == 0.0
    ensures tms != [] ==> p * (|tms| as real) == SumaCalificaciones(tms) as real
    ensures tms != [] && TestimonioController.CalificacionesEnRango(tms) ==> 1.0 <= p <= 5.0
  {
    if tms == [] then 0.0
    else
      var n := |tms| as real;
      var suma := SumaCalificaciones(tms) as real;
      assert TestimonioController.CalificacionesEnRango(tms) ==> 1.0 <= suma / n <= 5.0 by {
        if TestimonioController.CalificacionesEnRango(tms) {
          SumaEnRango(tms);
          CocienteEntre(suma, n);
        }
      }
      suma / n
  }

  lemma CocienteEntre(suma: real, n: real)
    requires n > 0.0 && n <= suma <= 5.0 * n
    ensures 1.0 <= suma / n <= 5.0
  {
    var q := suma / n;
    assert q * n == suma;
    if q < 1.0 {
      MulPositivo(1.0 - q, n);
      assert false;
    } else if q > 5.0 {
      MulPositivo(q - 5.0, n);
      assert false;
    }
  }

  lemma MulPositivo(a: real, b: real)
    requires a > 0.0 && b > 0.0
    ensures a * b > 0.0
  {
  }

  /** Ratings between 1 and 5 add up to between one and five times their number. */
  lemma {:induction false} SumaEnRango(tms: seq<Testimonio>)
    requires TestimonioController.CalificacionesEnRango(tms)
    ensures |tms| <= SumaCalificaciones(tms) <= 5 * |tms|
  {
    if tms != [] {
      assert TestimonioController.CalificacionesEnRango(tms[1..]) by {
        forall k | 0 <= k < |tms[1..]| ensures 1 <= tms[1..][k].calificacion <= 5 {
          assert tms[1..][k] == tms[k + 1];
        }
      }
      assert 1 <= tms[0].calificacion <= 5;
      SumaEnRango(tms[1..]);
    }
  }

  datatype Estadisticas = Estadisticas(
    totalUsuarios: nat,
    totalTorneos: nat,
    totalInscripciones: nat,
    torneosPorDeporte: seq<(Deporte, nat)>,
    inscripcionesPorGenero: seq<(Option<Genero>, nat)>,
    torneosProximos: nat,
    torneosPasados: nat,
    calificacionPromedio: real)

  /** `obtenerEstadisticas`, with the current time as `now`. The groups come
      out in the order of the enumerations; SQL leaves it unspecified. */
  function ObtenerEstadisticas(
    us: seq<Usuario>, ts: seq<Torneo>, ins: seq<Inscripcion>, tms: seq<Testimonio>, now: int)
    : (r: Response<Estadisticas>)
    ensures r.Ok? && r.status == 200
    ensures r.value.totalUsuarios == |us|
    ensures r.value.totalTorneos == |ts|
    ensures r.value.totalInscripciones == |ins|
    ensures forall g :: g in r.value.torneosPorDeporte <==> g.1 > 0 && g.1 == CountKey(ts, DeporteDe, g.0)
    ensures forall g :: g in r.value.inscripcionesPorGenero <==> g.1 > 0 && g.1 == CountKey(ins, GeneroDe(us), g.0)
    ensures r.value.torneosProximos == Count(ts, ProximoEn(now))
    ensures r.value.torneosPasados == Count(ts, PasadoEn(now))
    ensures tms == [] ==> r.value.calificacionPromedio == 0.0
    ensures tms != [] ==> r.value.calificacionPromedio * (|tms| as real) == SumaCalificaciones(tms) as real
    ensures r.value.calificacionPromedio == CalificacionPromedio(tms)
  {
    var porDeporte := Groups(Deportes, ts, DeporteDe);
    var porGenero := Groups(Generos, ins, GeneroDe(us));
    ClavesEnumeradas();
    Ok(200, Estadisticas(
      |us|, |ts|, |ins|, porDeporte, porGenero,
      Count(ts, ProximoEn(now)), Count(ts, PasadoEn(now)),
      CalificacionPromedio(tms)))
  }

  /** The per-sport totals add up to the number of tournaments, and the
      per-gender totals to the number of enrollments. */
  lemma GruposSumanTotales(us: seq<Usuario>, ts: seq<Torneo>, ins: seq<Inscripcion>, tms: seq<Testimonio>, now: int)
    ensures var e := ObtenerEstadisticas(us, ts, ins, tms, now).value;
      && SumTotals(e.torneosPorDeporte) == e.totalTorneos
      && SumTotals(e.inscripcionesPorGenero) == e.totalInscripciones
  {
    ClavesEnumeradas();
    GroupsCoverTable(Deportes, ts, DeporteDe);
    GroupsCoverTable(Generos, ins, GeneroDe(us));
  }

  /** No tournament is both upcoming and past; one dated exactly `now` is
      neither, so the two counts together never exceed the total. */
  lemma ProximosYPasados(us: seq<Usuario>, ts: seq<Torneo>, ins: seq<Inscripcion>, tms: seq<Testimonio>, now: int)
    ensures var e := ObtenerEstadisticas(us, ts, ins, tms, now).value;
      e.torneosProximos + e.torneosPasados <= e.totalTorneos
    ensures forall t: Torneo :: t.fecha == now ==> !Proximo(t, now) && !Pasado(t, now)
  {
    forall t | t in ts ensures !(ProximoEn(now)(t) && PasadoEn(now)(t)) {
    }
    CountDisjoint(ts, ProximoEn(now), PasadoEn(now));
  }

  /** The upcoming count leaves out the active tournaments dated exactly
      `now`, which the public listing of active tournaments shows. */
  lemma ProximosYListadoActivo(us: seq<Usuario>, ts: seq<Torneo>, ins: seq<Inscripcion>, tms: seq<Testimonio>, now: int)
    ensures var e := ObtenerEstadisticas(us, ts, ins, tms, now).value;
      |TorneoController.ObtenerTorneosActivos(ts, now).value| == e.torneosProximos + Count(ts, ActivoHoy(now))
  {
    var activo := TorneoController.ActivoProximoEn(now);
    assert |TorneoController.ObtenerTorneosActivos(ts, now).value| == |Filter(ts, activo)|;
    CountIsFilterLength(ts, activo);
    ActivosSeparados(ts, now);
  }

  /** Active tournaments dated now or later are the upcoming ones plus those
      dated exactly now. */
  lemma ActivosSeparados(ts: seq<Torneo>, now: int)
    ensures Count(ts, TorneoController.ActivoProximoEn(now)) == Count(ts, ProximoEn(now)) + Count(ts, ActivoHoy(now))
  {
    var activo := TorneoController.ActivoProximoEn(now);
    var despues := (t: Torneo) => t.fecha > now;
    CountSplit(ts, activo, despues);
    var antes := (x: Torneo) => activo(x) && despues(x);
    var hoy := (x: Torneo) => activo(x) && !despues(x);
    forall x: Torneo ensures antes(x) == ProximoEn(now)(x) && hoy(x) == ActivoHoy(now)(x) {
    }
    CountSame(ts, antes, ProximoEn(now));
    CountSame(ts, hoy, ActivoHoy(now));
  }

  // ----- Listings -----

  /** The admin's `obtenerTodosLosUsuarios`: every user, of either role,
      without the password, newest account first. */
  function ObtenerTodosLosUsuarios(us: seq<Usuario>): (r: Response<seq<UsuarioPublico>>)
    ensures r.Ok? && r.status == 200
    ensures |r.value| == |us|
    ensures forall i, j :: 0 <= i < j < |r.value| ==> r.value[i].createdAt >= r.value[j].createdAt
    ensures forall p :: p in r.value <==> exists u :: u in us && Publico(u) == p
  {
    var publicos := Map(us, Publico);
    MapMembers(us, Publico);
    var r := SortBy(publicos, UsuarioController.PublicoReciente);
    SortByMembers(publicos, UsuarioController.PublicoReciente);
    assert forall i, j :: 0 <= i < j < |r| ==> UsuarioController.PublicoReciente(r[i]) <= UsuarioController.PublicoReciente(r[j]);
    Ok(200, r)
  }

  /** The admin listing contains every entry of the participants' listing,
      and is strictly longer as soon as there is an administrator. */
  lemma ParticipantesEnListadoAdmin(us: seq<Usuario>)
    ensures forall p :: p in UsuarioController.ObtenerParticipantes(us).value ==> p in ObtenerTodosLosUsuarios(us).value
    ensures (exists u :: u in us && u.rol == Admin) ==>
      |UsuarioController.ObtenerParticipantes(us).value| < |ObtenerTodosLosUsuarios(us).value|
  {
    if exists u :: u in us && u.rol == Admin {
      var u :| u in us && u.rol == Admin;
      var esAdmin := (x: Usuario) => !UsuarioController.EsParticipante(x);
      assert esAdmin(u) && u in us;
      CountPositive(us, esAdmin, u);
      CountDisjoint(us, UsuarioController.EsParticipante, esAdmin);
    }
  }

  /** The author attributes the admin's testimonial listing includes. */
  datatype AutorConEmail = AutorConEmail(id: nat, nombre: string, email: string)

  const ConEmail: Usuario -> AutorConEmail := (u: Usuario) => AutorConEmail(u.id, u.nombre, u.email)

  /** `obtenerTodosLosTestimonios`: every testimonial with its author's id,
      name and email, newest first. */
  function ObtenerTodosLosTestimonios(tms: seq<Testimonio>, us: seq<Usuario>)
    : (r: Response<seq<TestimonioController.ConAutor<AutorConEmail>>>)
    ensures r.Ok? && r.status == 200
    ensures |r.value| == |tms|
    ensures forall i, j :: 0 <= i < j < |r.value| ==> r.value[i].testimonio.createdAt >= r.value[j].testimonio.createdAt
    ensures forall e :: e in r.value ==>
      e.testimonio in tms && e.autor == TestimonioController.Autor(us, e.testimonio.usuarioId, ConEmail)
    ensures forall t :: t in tms ==>
      TestimonioController.ConAutor(t, TestimonioController.Autor(us, t.usuarioId, ConEmail)) in r.value
  {
    Ok(200, TestimonioController.ListadoConAutor(tms, us, ConEmail))
  }
}
