/** The testimonial handlers (servidor/controllers/TestimonioController.js):
    the public listing and the creation of a testimonial. The join with the
    author and the newest-first order are shared with the administrator's
    listing, which includes one more author attribute. */
module TestimonioController {
  import opened Models
  import opened Responses
  import opened Database
  import opened Sequences

  /** A testimonial with its author's attributes, or `null` when no user has
      the testimonial's `usuarioId` (a LEFT OUTER JOIN). */
  datatype ConAutor<A> = ConAutor(testimonio: Testimonio, autor: Option<A>)

  /** The author attributes the public listing includes. */
  datatype AutorBreve = AutorBreve(id: nat, nombre: string)

  const Breve: Usuario -> AutorBreve := (u: Usuario) => AutorBreve(u.id, u.nombre)

  /** The author of a testimonial, projected by `proy`. */
  function Autor<A>(us: seq<Usuario>, usuarioId: nat, proy: Usuario -> A): (a: Option<A>)
    ensures a.Some? <==> ExisteUsuario(us, usuarioId)
    ensures a.Some? ==> exists u :: u in us && u.id == usuarioId && a.value == proy(u)
  {
    var k := BuscarUsuario(us, usuarioId);
    if k == |us| then None else Some(proy(us[k]))
  }

  function Unir<A>(us: seq<Usuario>, proy: Usuario -> A): Testimonio -> ConAutor<A>
  {
    (t: Testimonio) => ConAutor(t, Autor(us, t.usuarioId, proy))
  }

  function MasRecienteAntes<A>(): ConAutor<A> -> int
  {
    (e: ConAutor<A>) => -e.testimonio.createdAt
  }

  /** Every testimonial joined with its author, newest first. */
  function ListadoConAutor<A>(tms: seq<Testimonio>, us: seq<Usuario>, proy: Usuario -> A): (r: seq<ConAutor<A>>)
    ensures |r| == |tms|
    ensures forall i, j :: 0 <= i < j < |r| ==> r[i].testimonio.createdAt >= r[j].testimonio.createdAt
    ensures forall e :: e in r ==> e.testimonio in tms && e.autor == Autor(us, e.testimonio.usuarioId, proy)
    ensures forall t :: t in tms ==> ConAutor(t, Autor(us, t.usuarioId, proy)) in r
  {
    var unidos := Map(tms, Unir(us, proy));
    var r := SortBy(unidos, MasRecienteAntes());
    assert forall i, j :: 0 <= i < j < |r| ==> MasRecienteAntes<A>()(r[i]) <= MasRecienteAntes<A>()(r[j]);
    UnidosMiembros(tms, us, proy, r);
    r
  }

  /** Any reordering of the joined rows holds exactly the joined testimonials. */
  lemma UnidosMiembros<A>(tms: seq<Testimonio>, us: seq<Usuario>, proy: Usuario -> A, r: seq<ConAutor<A>>)
    requires multiset(r) == multiset(Map(tms, Unir(us, proy)))
    ensures forall e :: e in r ==> e.testimonio in tms && e.autor == Autor(us, e.testimonio.usuarioId, proy)
    ensures forall t :: t in tms ==> ConAutor(t, Autor(us, t.usuarioId, proy)) in r
  {
    var unidos := Map(tms, Unir(us, proy));
    MapMembers(tms, Unir(us, proy));
    forall e | e in r ensures e.testimonio in tms && e.autor == Autor(us, e.testimonio.usuarioId, proy) {
      assert e in multiset(r);
      assert e in multiset(unidos);
      var t :| t in tms && Unir(us, proy)(t) == e;
    }
    forall t | t in tms ensures ConAutor(t, Autor(us, t.usuarioId, proy)) in r {
      assert Unir(us, proy)(t) in unidos;
      assert Unir(us, proy)(t) in multiset(unidos);
      assert Unir(us, proy)(t) in multiset(r);
    }
  }

  /** `obtenerTestimonios`: every testimonial with its author's id and name,
      newest first. */
  function ObtenerTestimonios(tms: seq<Testimonio>, us: seq<Usuario>): (r: Response<seq<ConAutor<AutorBreve>>>)
    ensures r.Ok? && r.status == 200
    ensures |r.value| == |tms|
    ensures forall i, j :: 0 <= i < j < |r.value| ==> r.value[i].testimonio.createdAt >= r.value[j].testimonio.createdAt
    ensures forall e :: e in r.value ==> e.testimonio in tms && e.autor == Autor(us, e.testimonio.usuarioId, Breve)
    ensures forall t :: t in tms ==> ConAutor(t, Autor(us, t.usuarioId, Breve)) in r.value
  {
    Ok(200, ListadoConAutor(tms, us, Breve))
  }

  /** Every stored rating lies between 1 and 5. */
  predicate CalificacionesEnRango(tms: seq<Testimonio>)
  {
    forall k :: 0 <= k < |tms| ==> 1 <= tms[k].calificacion <= 5
  }

  /** Body of `crearTestimonio`: the author's id comes from the body. */
  datatype TestimonioBody = TestimonioBody(comentario: string, calificacion: int, usuarioId: nat)

  /** `crearTestimonio`: a rating outside 1..5 is refused with 400 and nothing
      is stored; otherwise the testimonial is stored with the next key and the
      current time, and sent back with its author's id and name. */
  method CrearTestimonio(db: Db, body: TestimonioBody, now: int) returns (r: Response<ConAutor<AutorBreve>>)
    requires db.Valid()
    modifies db`testimonios, db`siguienteTestimonioId
    ensures db.Valid()
    ensures r.Err? <==> body.calificacion < 1 || body.calificacion > 5
    ensures r.Err? ==>
      && r == Err(400, CalificacionFueraDeRango)
      && db.testimonios == old(db.testimonios)
      && db.siguienteTestimonioId == old(db.siguienteTestimonioId)
    ensures r.Ok? ==>
      var t := Testimonio(old(db.siguienteTestimonioId), body.comentario, body.calificacion, body.usuarioId, now);
      && r == Ok(201, ConAutor(t, Autor(db.usuarios, body.usuarioId, Breve)))
      && db.testimonios == old(db.testimonios) + [t]
      && db.siguienteTestimonioId == old(db.siguienteTestimonioId) + 1
    ensures CalificacionesEnRango(old(db.testimonios)) ==> CalificacionesEnRango(db.testimonios)
  {
    if body.calificacion < 1 || body.calificacion > 5 {
      return Err(400, CalificacionFueraDeRango);
    }
    var t := Testimonio(db.siguienteTestimonioId, body.comentario, body.calificacion, body.usuarioId, now);
    AppendFresh(db.testimonios, t, TestimonioId, db.siguienteTestimonioId);
    AgregarEnRango(db.testimonios, t);
    db.testimonios := db.testimonios + [t];
    db.siguienteTestimonioId := db.siguienteTestimonioId + 1;
    r := Ok(201, ConAutor(t, Autor(db.usuarios, body.usuarioId, Breve)));
  }

  lemma AgregarEnRango(tms: seq<Testimonio>, t: Testimonio)
    requires 1 <= t.calificacion <= 5
    ensures CalificacionesEnRango(tms) ==> CalificacionesEnRango(tms + [t])
  {
    if CalificacionesEnRango(tms) {
      forall k | 0 <= k < |tms| + 1 ensures 1 <= (tms + [t])[k].calificacion <= 5 {
        if k < |tms| {
          assert (tms + [t])[k] == tms[k];
        }
      }
    }
  }

  /** A testimonial just stored shows up in the public listing, joined with
      its author. */
  lemma CreadoEnListado(tms: seq<Testimonio>, us: seq<Usuario>, t: Testimonio)
    ensures ConAutor(t, Autor(us, t.usuarioId, Breve)) in ObtenerTestimonios(tms + [t], us).value
  {
    assert t in tms + [t];
  }
}
