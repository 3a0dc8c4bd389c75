/** The client's form schemas (cliente/src/utils/validations.js) as
    functions from a form to the list of rules it breaks, in the order the
    schema checks them: fields in declaration order, each field's checks in
    chain order, and an object-level refinement last. Every check of a
    well-typed field runs even after an earlier one failed, so a form gets
    every issue at once; an empty list means the form is accepted.
    The email format is a parameter `esEmail`, and reading a date string
    is a parameter `instante` that yields no instant for an invalid date. */
module Validaciones {
  import Models

  datatype Campo =
    | Nombre | Email | Password | ConfirmPassword | Genero | Edad
    | Deporte | Fecha | Ubicacion | Cupo | Precio | Descripcion

  datatype Regla =
    | Minimo(n: int)      // `.min(n)`: a string's length or a number's value
    | Maximo(n: int)      // `.max(n)`
    | FormatoEmail        // `.email()`
    | GeneroValido        // the refinement on `genero` in the registration form
    | GeneroEnumerado     // `z.enum(["masculino", "femenino"])`
    | FechaFutura         // the refinement `new Date(fecha) > new Date()`
    | Coinciden           // the refinement `password === confirmPassword`

  /** A failed check, attached to the path of the field it concerns. */
  datatype Issue = Issue(campo: Campo, regla: Regla)

  /** The issue `i` when `falla` holds, nothing otherwise. */
  function Si(falla: bool, i: Issue): (r: seq<Issue>)
    ensures forall j :: j in r ==> j == i
  {
    if falla then [i] else []
  }

  /** `z.string().min(lo).max(hi)` on the field `c`. */
  function Longitud(c: Campo, s: string, lo: int, hi: int): (r: seq<Issue>)
    ensures r == [] <==> lo <= |s| <= hi
    ensures forall i :: i in r ==> i.campo == c && (i.regla == Minimo(lo) || i.regla == Maximo(hi))
    ensures Issue(c, Minimo(lo)) in r <==> |s| < lo
    ensures Issue(c, Maximo(hi)) in r <==> |s| > hi
  {
    Si(|s| < lo, Issue(c, Minimo(lo))) + Si(|s| > hi, Issue(c, Maximo(hi)))
  }

  /** `z.string().min(lo)` on the field `c`. */
  function LongitudMinima(c: Campo, s: string, lo: int): (r: seq<Issue>)
    ensures r == [] <==> lo <= |s|
    ensures forall i :: i in r ==> i == Issue(c, Minimo(lo)) && |s| < lo
  {
    Si(|s| < lo, Issue(c, Minimo(lo)))
  }

  /** `z.number().min(lo)` on the field `c`. */
  function ValorMinimo(c: Campo, n: int, lo: int): (r: seq<Issue>)
    ensures r == [] <==> lo <= n
    ensures forall i :: i in r ==> i == Issue(c, Minimo(lo)) && n < lo
  {
    Si(n < lo, Issue(c, Minimo(lo)))
  }

  /** `z.number().min(lo).max(hi)` on the field `c`. */
  function Rango(c: Campo, n: int, lo: int, hi: int): (r: seq<Issue>)
    ensures r == [] <==> lo <= n <= hi
    ensures forall i :: i in r ==> i.campo == c
    ensures Issue(c, Minimo(lo)) in r <==> n < lo
    ensures Issue(c, Maximo(hi)) in r <==> n > hi
  {
    Si(n < lo, Issue(c, Minimo(lo))) + Si(n > hi, Issue(c, Maximo(hi)))
  }

  /** `z.string().min(1).email()` on the field `email`. */
  function CorreoValido(email: string, esEmail: string -> bool): (r: seq<Issue>)
    ensures r == [] <==> |email| >= 1 && esEmail(email)
    ensures forall i :: i in r ==> i.campo == Email
    ensures Issue(Email, Minimo(1)) in r <==> email == ""
    ensures Issue(Email, FormatoEmail) in r <==> !esEmail(email)
  {
    Si(|email| < 1, Issue(Email, Minimo(1))) + Si(!esEmail(email), Issue(Email, FormatoEmail))
  }

  predicate EsGenero(s: string)
  {
    s == "masculino" || s == "femenino"
  }

  /** The registration form's `genero`: `z.string().min(1)` refined to the
      two values. An empty gender breaks both checks. */
  function GeneroRegistro(g: string): (r: seq<Issue>)
    ensures r == [] <==> EsGenero(g)
    ensures forall i :: i in r ==> i.campo == Genero
    ensures Issue(Genero, GeneroValido) in r <==> !EsGenero(g)
    ensures Issue(Genero, Minimo(1)) in r <==> g == ""
  {
    Si(|g| < 1, Issue(Genero, Minimo(1))) + Si(!EsGenero(g), Issue(Genero, GeneroValido))
  }

  /** The profile form's `genero`: `z.enum(["masculino", "femenino"])`. */
  function GeneroPerfil(g: string): (r: seq<Issue>)
    ensures r == [] <==> EsGenero(g)
    ensures forall i :: i in r ==> i == Issue(Genero, GeneroEnumerado)
  {
    Si(!EsGenero(g), Issue(Genero, GeneroEnumerado))
  }

  /** The object-level refinement of the registration form. */
  function Coincidencia(password: string, confirmPassword: string): (r: seq<Issue>)
    ensures r == [] <==> password == confirmPassword
    ensures forall i :: i in r ==> i == Issue(ConfirmPassword, Coinciden)
  {
    Si(password != confirmPassword, Issue(ConfirmPassword, Coinciden))
  }

  // ----- Login -----

  datatype LoginForm = LoginForm(email: string, password: string)

  /** `loginSchema`. */
  function LoginSchema(f: LoginForm, esEmail: string -> bool): (issues: seq<Issue>)
    ensures issues == [] <==> |f.email| >= 1 && esEmail(f.email) && |f.password| >= 6
    ensures Issue(Email, Minimo(1)) in issues <==> f.email == ""
    ensures Issue(Password, Minimo(6)) in issues <==> |f.password| < 6
  {
    CorreoValido(f.email, esEmail) + LongitudMinima(Password, f.password, 6)
  }

  // ----- Registration -----

  datatype RegisterForm = RegisterForm(
    nombre: string,
    email: string,
    password: string,
    confirmPassword: string,
    genero: string,
    edad: int)

  /** `registerSchema`: the field checks, then the refinement that the two
      passwords match, reported on `confirmPassword`. */
  function RegisterSchema(f: RegisterForm, esEmail: string -> bool): (issues: seq<Issue>)
    ensures issues == [] <==>
      && 2 <= |f.nombre| <= 50
      && |f.email| >= 1 && esEmail(f.email)
      && 6 <= |f.password| <= 100
      && |f.confirmPassword| >= 1
      && EsGenero(f.genero)
      && f.edad >= 18
      && f.password == f.confirmPassword
    ensures Issue(ConfirmPassword, Coinciden) in issues <==> f.password != f.confirmPassword
  {
    Longitud(Nombre, f.nombre, 2, 50)
    + CorreoValido(f.email, esEmail)
    + Longitud(Password, f.password, 6, 100)
    + LongitudMinima(ConfirmPassword, f.confirmPassword, 1)
    + GeneroRegistro(f.genero)
    + ValorMinimo(Edad, f.edad, 18)
    + Coincidencia(f.password, f.confirmPassword)
  }

  /** Only "masculino" and "femenino" pass the gender refinement, and an
      empty gender breaks both of its checks: the minimum length and the
      refinement. */
  lemma RegistroGenero(f: RegisterForm, esEmail: string -> bool)
    ensures Issue(Genero, GeneroValido) in RegisterSchema(f, esEmail) <==> !EsGenero(f.genero)
    ensures f.genero == "" ==> Issue(Genero, Minimo(1)) in RegisterSchema(f, esEmail)
  {
  }

  /** The age has a lower bound of 18 and no upper bound at registration:
      an accepted form stays accepted with any age of 18 or more, and one
      under 18 is told so. */
  lemma RegistroEdad(f: RegisterForm, esEmail: string -> bool, edad: int)
    ensures RegisterSchema(f, esEmail) == [] && edad >= 18 ==> RegisterSchema(f.(edad := edad), esEmail) == []
    ensures f.edad < 18 ==> Issue(Edad, Minimo(18)) in RegisterSchema(f, esEmail)
  {
    assert f.edad < 18 ==> ValorMinimo(Edad, f.edad, 18) == [Issue(Edad, Minimo(18))];
  }

  // ----- Tournament -----

  datatype TorneoForm = TorneoForm(
    nombre: string,
    deporte: string,
    fecha: string,
    ubicacion: string,
    cupo: int,
    precio: Models.Option<real>,
    descripcion: string)

  /** The date refinement: the string reads as an instant later than `now`.
      An invalid date compares false with anything. */
  predicate Posterior(fecha: string, instante: string -> Models.Option<int>, now: int)
  {
    instante(fecha).Some? && instante(fecha).value > now
  }

  /** `z.string().min(1)` refined to a date after `now` on the field `fecha`. */
  function FechaValida(fecha: string, instante: string -> Models.Option<int>, now: int): (r: seq<Issue>)
    ensures r == [] <==> |fecha| >= 1 && Posterior(fecha, instante, now)
    ensures forall i :: i in r ==> i.campo == Fecha
    ensures Issue(Fecha, FechaFutura) in r <==> !Posterior(fecha, instante, now)
    ensures Issue(Fecha, Minimo(1)) in r <==> fecha == ""
  {
    Si(|fecha| < 1, Issue(Fecha, Minimo(1))) + Si(!Posterior(fecha, instante, now), Issue(Fecha, FechaFutura))
  }

  /** `z.number().min(0).optional()` on the field `precio`. */
  function PrecioValido(precio: Models.Option<real>): (r: seq<Issue>)
    ensures r == [] <==> (precio.Some? ==> precio.value >= 0.0)
    ensures forall i :: i in r ==> i == Issue(Precio, Minimo(0))
  {
    Si(precio.Some? && precio.value < 0.0, Issue(Precio, Minimo(0)))
  }

  /** `torneoSchema`, for the creation and edition forms. */
  function TorneoSchema(f: TorneoForm, instante: string -> Models.Option<int>, now: int): (issues: seq<Issue>)
    ensures issues == [] <==>
      && 5 <= |f.nombre| <= 100
      && |f.deporte| >= 1
      && |f.fecha| >= 1 && Posterior(f.fecha, instante, now)
      && 5 <= |f.ubicacion| <= 100
      && 1 <= f.cupo <= 10000
      && (f.precio.Some? ==> f.precio.value >= 0.0)
      && 20 <= |f.descripcion| <= 1000
  {
    Longitud(Nombre, f.nombre, 5, 100)
    + LongitudMinima(Deporte, f.deporte, 1)
    + FechaValida(f.fecha, instante, now)
    + Longitud(Ubicacion, f.ubicacion, 5, 100)
    + Rango(Cupo, f.cupo, 1, 10000)
    + PrecioValido(f.precio)
    + Longitud(Descripcion, f.descripcion, 20, 1000)
  }

  /** The date refinement fails exactly when the date does not read as an
      instant strictly after `now`: a form dated at `now` itself is refused. */
  lemma TorneoFecha(f: TorneoForm, instante: string -> Models.Option<int>, now: int)
    ensures Issue(Fecha, FechaFutura) in TorneoSchema(f, instante, now) <==> !Posterior(f.fecha, instante, now)
    ensures instante(f.fecha) == Models.Some(now) ==> Issue(Fecha, FechaFutura) in TorneoSchema(f, instante, now)
  {
  }

  /** The price may be left out, and then nothing is reported about it. */
  lemma TorneoPrecioOpcional(f: TorneoForm, instante: string -> Models.Option<int>, now: int)
    requires f.precio.None?
    ensures forall i :: i in TorneoSchema(f, instante, now) ==> i.campo != Precio
  {
  }

  // ----- Profile -----

  datatype ProfileForm = ProfileForm(nombre: string, email: string, genero: string, edad: int)

  /** `profileSchema`. */
  function ProfileSchema(f: ProfileForm, esEmail: string -> bool): (issues: seq<Issue>)
    ensures issues == [] <==>
      && 2 <= |f.nombre| <= 50
      && |f.email| >= 1 && esEmail(f.email)
      && EsGenero(f.genero)
      && 18 <= f.edad <= 50
    ensures Issue(Edad, Maximo(50)) in issues <==> f.edad > 50
    ensures Issue(Genero, GeneroEnumerado) in issues <==> !EsGenero(f.genero)
  {
    Longitud(Nombre, f.nombre, 2, 50)
    + CorreoValido(f.email, esEmail)
    + GeneroPerfil(f.genero)
    + Rango(Edad, f.edad, 18, 50)
  }

  /** The profile form of a registration: the same name, email, gender and age. */
  function PerfilDe(f: RegisterForm): ProfileForm
  {
    ProfileForm(f.nombre, f.email, f.genero, f.edad)
  }

  /** The profile schema accepts exactly the accepted registrations whose
      age is at most 50: someone who registered at 51 or older cannot save
      their profile unchanged. */
  lemma PerfilDeRegistro(f: RegisterForm, esEmail: string -> bool)
    requires RegisterSchema(f, esEmail) == []
    ensures ProfileSchema(PerfilDe(f), esEmail) == [] <==> f.edad <= 50
  {
  }
}
