# AquaSport server core in Dafny

This project models the business logic of the AquaSport tournament-registration server over its five tables: `Torneo`, `Inscripcion`, `Usuario`, `Testimonio` and `Ganador`. It also models the four client-side form schemas in `validations.js`.

The store is one object, `Database.Db`. It holds one sequence per table, and one auto-increment counter for each of the three tables a handler inserts into (`Torneo`, `Inscripcion`, `Testimonio`). Every handler that writes is a method over `Db`: it returns a `Response` (a status code and a payload, or a status code and a `Falla`) instead of writing to the HTTP response. Every handler that only reads is a function over the table sequences. The wall clock is the integer parameter `now`.

Modules, one per source file:

- `Models` — the records and enums of `servidor/models/*.js`.
- `Responses` — the failure kinds and their HTTP status codes.
- `Database` — the store and its key invariants: ids strictly increasing and below the counter in the three tables with a counter, user and winner ids unique, emails unique.
- `Sequences` — filter, map, count, insertion sort and group-by, with their properties.
- `Inscripciones` — the enrollment guard sequence shared by both enroll handlers. It also holds the two table invariants:
  - `ParesUnicos`: at most one row per (user, tournament) pair.
  - `DentroDelCupo`: a tournament's count never exceeds its `cupo`.
- `TorneoController`, `InscripcionController`, `UsuarioController`, `TestimonioController`, `AdminController` — one per controller file.
- `Validaciones` — the Zod schemas, each as a function from a form to the list of issues it raises.

The code behaves as follows, which a reader might not expect:

- There are no state-transition guards. `cambiarEstadoTorneo`, and `actualizarTorneo` when its body carries `estado`, set any state, including from `finalizado` back to `activo`. An `actualizarTorneo` body without a field keeps that field's value.
- No handler creates a `Ganador` row, even when finalising a tournament. `CambioEstadoBody` carries the client's `usuarioId`, and nothing reads it.
- `cupo` is not checked on the server. `crearTorneo` accepts a negative one, which breaks `DentroDelCupo` at once (`TorneoController.CrearConCupoNegativo`). `actualizarTorneo` can lower it below the current enrollment count, which breaks `DentroDelCupo` too (`TorneoController.ActualizarRompeCupo`).
- The listing `UsuarioController.obtenerTodosLosUsuarios` returns only participants. The admin listing returns every role.

## Model

| member | source | states |
|---|---|---|
| Responses.Status | servidor/controllers/TorneoController.js:284-328 | every failure maps to 400, 404 or 500 |
| Database.BuscarTorneo | servidor/controllers/TorneoController.js:173-179 | `findByPk` on tournaments: the index is in range exactly when a row with that id exists, and that row has the id |
| Database.BuscarTorneoUnico | servidor/models/Torneo.js:5 | with primary keys increasing, the lookup finds the one row carrying the id |
| Database.BuscarUsuario | servidor/controllers/UsuarioController.js:73-79 | `findByPk` on users: the index is in range exactly when the user exists, and that row has the id |
| Database.Db.constructor | servidor/models/Usuario.js:4-12 | a fresh store holds the given users (unique ids and emails) and winners, and no tournaments, enrollments or testimonials |
| Database.AppendFresh | servidor/models/Torneo.js:5 | inserting a row with the next auto-increment id keeps keys increasing and below the advanced counter |
| Database.RemoveKeepsIds | servidor/controllers/InscripcionController.js:102 | deleting a row keeps keys increasing and below the counter |
| Inscripciones.Inscritos | servidor/controllers/TorneoController.js:317-320 | the enrollment count of a tournament never exceeds the table size |
| Inscripciones.InscritosEsFiltro | servidor/controllers/TorneoController.js:317-320 | the count equals the number of rows a `where: { torneoId }` filter selects |
| Inscripciones.Posicion | servidor/controllers/InscripcionController.js:90-92 | `findOne({usuarioId, torneoId})`: the first matching row, in range exactly when the pair is enrolled |
| Inscripciones.Admitir | servidor/controllers/InscripcionController.js:14-58 | the guard sequence: 404 exactly when the tournament is missing, admission only when the pair is not yet enrolled, and only the four listed failures |
| Inscripciones.NoActivoRechaza | servidor/controllers/TorneoController.js:293-300 | a tournament that is not `activo` refuses with 400 whatever its free places |
| Inscripciones.DuplicadoAntesQueCupo | servidor/controllers/TorneoController.js:302-314 | an already enrolled user of an active tournament gets the duplicate error, even when the tournament is full |
| Inscripciones.LlenoRechaza | servidor/controllers/TorneoController.js:316-328 | an active tournament whose count is at least `cupo` refuses a new user with 400 |
| Inscripciones.InscritosAgregar | servidor/controllers/TorneoController.js:331-334 | inserting a row raises only that tournament's count, by one |
| Inscripciones.InscritosSinFila | servidor/controllers/InscripcionController.js:102 | deleting a row lowers only that row's tournament count, by one |
| Inscripciones.InscribirPreservaParesUnicos | servidor/controllers/TorneoController.js:302-334 | an admitted insert keeps one row per (user, tournament) pair |
| Inscripciones.InscribirPreservaCupo | servidor/controllers/TorneoController.js:316-334 | an admitted insert raises the count by one and keeps it at most `cupo`, so count ≤ `cupo` is preserved |
| Inscripciones.Quitar | servidor/controllers/InscripcionController.js:102 | `destroy` of the found row removes exactly one row when the pair is enrolled, and nothing otherwise |
| Inscripciones.QuitarCuenta | servidor/controllers/InscripcionController.js:102-107 | cancelling lowers that tournament's count by one and leaves every other count unchanged |
| Inscripciones.QuitarPreservaInvariantes | servidor/controllers/InscripcionController.js:102 | deleting keeps both table invariants |
| Inscripciones.QuitarEfecto | servidor/controllers/InscripcionController.js:90-102 | with one row per pair, after a cancellation the caller is no longer enrolled in that tournament, and every other pair is enrolled exactly as before |
| Inscripciones.InscribirYCancelar | servidor/controllers/InscripcionController.js:61-64 | cancelling the just-admitted pair restores the enrollment table exactly |
| Inscripciones.Inscribir | servidor/controllers/TorneoController.js:284-336 | the guarded step: a failing guard leaves the table and the counter unchanged; success appends exactly one row `(next id, usuarioId, torneoId)`, advances the counter, answers 201, and preserves both invariants |
| InscripcionController.InscribirUsuario | servidor/controllers/InscripcionController.js:10-66 | the same step with the enrolled user taken from the authenticated caller |
| InscripcionController.CancelarInscripcion | servidor/controllers/InscripcionController.js:89-107 | 404 exactly when the caller is not enrolled, with nothing changed; otherwise the caller's row is deleted and 200 is answered; both invariants are preserved, and with one row per pair the caller is no longer enrolled |
| InscripcionController.InscribirLuegoCancelar | servidor/controllers/InscripcionController.js:61-102 | after a successful enrollment the caller is enrolled, and a cancellation restores the previous table |
| TorneoController.ObtenerTorneosActivos | servidor/controllers/TorneoController.js:10-18 | exactly the `activo` tournaments with `fecha ≥ now`, each with its multiplicity, sorted by `fecha` ascending |
| TorneoController.ObtenerTorneosConFiltros | servidor/controllers/TorneoController.js:36-58 | exactly the tournaments matching sport equality, name substring and the state filter (default `activo`), sorted by `fecha` |
| TorneoController.FiltrosPorDefecto | servidor/controllers/TorneoController.js:43-47 | with no filters every active tournament is listed; the active listing keeps an active tournament iff its date is not past |
| TorneoController.ObtenerTorneosConInscritos | servidor/controllers/TorneoController.js:240-260 | 404 exactly on an empty table; otherwise every tournament in order with its enrollment count |
| TorneoController.Resumen | servidor/controllers/TorneoController.js:83-86 | an enrolled user's summary is present exactly when the user exists, and then carries that user's id, `nombre`, `genero` and `edad` |
| TorneoController.DetalleInscritos | servidor/controllers/TorneoController.js:78-90 | the included enrollments: every row of the tournament, as often as the table holds it and no other row, each joined with its user |
| TorneoController.ObtenerTorneoPorId | servidor/controllers/TorneoController.js:78-117 | 404 exactly when absent; otherwise `inscripciones` is the row count, `cuposDisponibles = cupo − inscripciones` unclamped, and the rows listed are exactly that tournament's, each once, joined with its user |
| TorneoController.DetalleYListadoCoinciden | servidor/controllers/TorneoController.js:100-102 | the detail view and the per-tournament listing report the same count |
| TorneoController.CuposTrasInscribir | servidor/controllers/TorneoController.js:104 | after an admitted enrollment `cuposDisponibles` drops by one and stays non-negative |
| TorneoController.CrearTorneo | servidor/controllers/TorneoController.js:128-148 | 201; one row appended with the next id, the body's fields and `estado = activo`, and the counter advanced by one; enrollments untouched |
| TorneoController.CrearPreservaCupo | servidor/controllers/TorneoController.js:133-142 | a new tournament with no enrollments keeps count ≤ `cupo` when its `cupo` is not negative, a condition the server does not check |
| TorneoController.CrearConCupoNegativo | servidor/controllers/TorneoController.js:130-142 | a tournament created with a negative `cupo` is over capacity at once |
| TorneoController.NingunoInscrito | servidor/controllers/TorneoController.js:100-102 | a tournament no row refers to has count 0 |
| TorneoController.ActualizarTorneo | servidor/controllers/TorneoController.js:161-197 | 404 with nothing changed when absent; otherwise each of the eight fields the body carries, `estado` included, overwrites that row's value, an absent field keeps its value, the id is kept, and no other row changes |
| TorneoController.MismosIds | servidor/controllers/TorneoController.js:182-191 | an in-place update that keeps the id keeps the key invariants |
| TorneoController.ActualizarRompeCupo | servidor/controllers/TorneoController.js:182-191 | an update whose body sets `cupo` below the current count breaks count ≤ `cupo` |
| TorneoController.ActualizarRompeCupoEjemplo | servidor/controllers/TorneoController.js:182-191 | a concrete store satisfying both invariants that the update leaves over capacity |
| TorneoController.CambiarEstadoTorneo | servidor/controllers/TorneoController.js:210-227 | 404 with nothing changed when absent; otherwise only `estado` changes, to the requested value whatever the current one, and a body without `estado` changes nothing yet answers 200; no winner row |
| TorneoController.ReactivarPermiteInscribir | servidor/controllers/TorneoController.js:221 | setting a finalised or cancelled tournament back to `activo` lets a new user with free places enroll again |
| TorneoController.InscribirUsuario | servidor/controllers/TorneoController.js:277-336 | the guarded step with the user taken from the request body |
| UsuarioController.ResumenTorneo | servidor/controllers/UsuarioController.js:14-26 | the joined tournament is present exactly when it exists, and then carries that tournament's id, `nombre`, `deporte`, `fecha`, `ubicacion` and `estado` |
| UsuarioController.ObtenerTorneosUsuario | servidor/controllers/UsuarioController.js:12-34 | one entry per enrollment row of that user, and each present tournament is one the user has a row for |
| UsuarioController.TorneosUsuarioAgregar | servidor/controllers/UsuarioController.js:12-29 | a new enrollment row of the user appends its tournament to the listing; another user's row leaves it unchanged |
| UsuarioController.TorneosUsuarioTrasInscribir | servidor/controllers/UsuarioController.js:12-29 | after a successful enrollment the user's listing gains exactly that tournament and other users' listings are unchanged |
| UsuarioController.ObtenerTestimoniosUsuario | servidor/controllers/UsuarioController.js:49-57 | exactly that user's testimonials, with their multiplicity, newest first |
| UsuarioController.Actualizado | servidor/controllers/UsuarioController.js:82-83 | the update sets `nombre`, `email`, `genero`, `edad` and keeps `id`, `password`, `rol` and `createdAt` |
| UsuarioController.ActualizarPerfilUsuario | servidor/controllers/UsuarioController.js:73-97 | 404 when absent and 500 when another user's email equals the new one as a string, both with nothing changed; otherwise that row is updated and the four values are echoed with 200 |
| UsuarioController.ActualizarConservaClaves | servidor/models/Usuario.js:7 | an update whose email no other user holds keeps ids and emails unique |
| UsuarioController.MismoEmailAceptado | servidor/models/Usuario.js:7 | keeping one's own email never trips the unique constraint |
| UsuarioController.PublicosParticipantes | servidor/controllers/UsuarioController.js:102-105 | exactly the participants, without password, one entry per participant |
| UsuarioController.ObtenerParticipantes | servidor/controllers/UsuarioController.js:102-111 | the participants only, without password, by `createdAt` descending |
| UsuarioController.TorneoDe | servidor/controllers/UsuarioController.js:140-147 | a winner row's tournament is joined exactly when it exists |
| UsuarioController.GanadosPor | servidor/controllers/UsuarioController.js:140-147 | every `Ganador` row naming the user, as often as the table holds it and no other row, each joined with its tournament |
| UsuarioController.ObtenerUserById | servidor/controllers/UsuarioController.js:126-154 | 404 exactly when absent; otherwise the user without password and every `Ganador` row of that user, each once, with its tournament |
| UsuarioController.GanadorRepetido | servidor/controllers/UsuarioController.js:140-147 | two winner rows for one user and tournament are both reported |
| TestimonioController.Autor | servidor/controllers/TestimonioController.js:8-11 | the joined author is present exactly when the user exists, and is that user's projection |
| TestimonioController.ListadoConAutor | servidor/controllers/TestimonioController.js:7-13 | every testimonial once, each with its author, newest first |
| TestimonioController.UnidosMiembros | servidor/controllers/TestimonioController.js:7-13 | any reordering of the joined rows holds exactly the joined testimonials |
| TestimonioController.ObtenerTestimonios | servidor/controllers/TestimonioController.js:5-18 | 200; all testimonials with author id and name, newest first |
| TestimonioController.CrearTestimonio | servidor/controllers/TestimonioController.js:29-58 | 400 with nothing stored exactly when the rating is outside 1..5; otherwise one row with the body's fields and the next id, returned with 201 and its author; ratings stay in range |
| TestimonioController.AgregarEnRango | servidor/models/Testimonio.js:8-13 | appending an in-range rating keeps every rating in 1..5 |
| TestimonioController.CreadoEnListado | servidor/controllers/TestimonioController.js:40-52 | a created testimonial appears in the public listing with its author |
| AdminController.SumaEnRango | servidor/models/Testimonio.js:8-13 | with ratings in 1..5 the sum lies between n and 5n |
| AdminController.CocienteEntre | servidor/controllers/AdminController.js:63-68 | a sum between n and 5n averages to between 1 and 5 |
| AdminController.CalificacionPromedio | servidor/controllers/AdminController.js:63-80 | 0 with no testimonials; otherwise the mean, whose product with the number of testimonials is the sum of their ratings, and with ratings in range between 1 and 5 |
| AdminController.ObtenerEstadisticas | servidor/controllers/AdminController.js:9-82 | the three totals are the table sizes; each group is a present key with its count; `torneosProximos` counts active tournaments after `now`; `torneosPasados` counts tournaments before `now`; the average is 0 with no testimonials and otherwise the mean rating, sum over count |
| AdminController.GruposSumanTotales | servidor/controllers/AdminController.js:21-41 | the sport groups sum to `totalTorneos` and the gender groups to `totalInscripciones` |
| AdminController.ProximosYPasados | servidor/controllers/AdminController.js:44-60 | upcoming and past are disjoint, so they sum to at most the total, and a tournament dated `now` is in neither |
| AdminController.ActivosSeparados | servidor/controllers/AdminController.js:44-51 | the active not-past tournaments split into those after `now` and those dated `now` |
| AdminController.ProximosYListadoActivo | servidor/controllers/AdminController.js:44-51 | the public active listing has `torneosProximos` entries plus the active tournaments dated exactly `now` |
| AdminController.ObtenerTodosLosUsuarios | servidor/controllers/AdminController.js:95-103 | every user of every role once, without password, by `createdAt` descending |
| AdminController.ParticipantesEnListadoAdmin | servidor/controllers/AdminController.js:95-98 | the participant listing is contained in the admin listing, and is strictly shorter when an admin exists |
| AdminController.ObtenerTodosLosTestimonios | servidor/controllers/AdminController.js:116-127 | every testimonial once with author id, name and email, newest first |
| Validaciones.Longitud | cliente/src/utils/validations.js:12-15 | no issue exactly when the length is within bounds; any issue is that field's minimum or maximum |
| Validaciones.LongitudMinima | cliente/src/utils/validations.js:21 | no issue exactly when the length reaches the minimum |
| Validaciones.ValorMinimo | cliente/src/utils/validations.js:28-30 | no issue exactly when the number reaches the minimum |
| Validaciones.Rango | cliente/src/utils/validations.js:55-61 | no issue exactly when the number is within bounds; the maximum issue exactly above it |
| Validaciones.CorreoValido | cliente/src/utils/validations.js:5 | no issue exactly when the email is non-empty and well formed; the required issue exactly when empty |
| Validaciones.GeneroRegistro | cliente/src/utils/validations.js:22-27 | no issue exactly for `masculino` or `femenino`; the refine issue exactly otherwise; an empty value also gets the minimum issue |
| Validaciones.GeneroPerfil | cliente/src/utils/validations.js:81-83 | no issue exactly for the two enum values; otherwise only the enum issue |
| Validaciones.Coincidencia | cliente/src/utils/validations.js:32-35 | no issue exactly when password and confirmation match; the issue sits on `confirmPassword` |
| Validaciones.FechaValida | cliente/src/utils/validations.js:45-50 | no issue exactly when the date is non-empty and strictly after `now`; the refine issue exactly when not after |
| Validaciones.PrecioValido | cliente/src/utils/validations.js:62-67 | an absent price is accepted; a present one exactly when ≥ 0 |
| Validaciones.LoginSchema | cliente/src/utils/validations.js:4-7 | accepted exactly with a non-empty valid email and a password of at least 6; each of those two issues exactly when its condition fails |
| Validaciones.RegisterSchema | cliente/src/utils/validations.js:10-35 | accepted exactly when every field rule and the match hold; the mismatch issue on `confirmPassword` exactly when the passwords differ |
| Validaciones.RegistroGenero | cliente/src/utils/validations.js:22-27 | the gender refine fails exactly off the two values; an empty gender also fails the minimum |
| Validaciones.RegistroEdad | cliente/src/utils/validations.js:28-30 | any age ≥ 18 keeps an accepted form accepted (no upper bound); an age below 18 raises the minimum issue |
| Validaciones.TorneoSchema | cliente/src/utils/validations.js:39-72 | accepted exactly with the length bounds, a non-empty sport, a future date, `cupo` in 1..10000, an absent or non-negative price |
| Validaciones.TorneoFecha | cliente/src/utils/validations.js:45-50 | the date issue is raised exactly when the date is not after `now`, so a date equal to `now` is refused |
| Validaciones.TorneoPrecioOpcional | cliente/src/utils/validations.js:62-67 | an absent price raises no price issue |
| Validaciones.ProfileSchema | cliente/src/utils/validations.js:75-91 | accepted exactly with name 2..50, a valid email, an enum gender and age in 18..50; the maximum and enum issues exactly when those fail |
| Validaciones.PerfilDeRegistro | cliente/src/utils/validations.js:28-30 | an accepted registration's data passes the profile form exactly when the age is at most 50 |

## Left out

- Concurrency and transactions: each handler is one atomic step, and a rollback is "store unchanged". The check-then-insert race is not modelled.
- Storage failures (foreign-key violations, a required field missing from a `crearTorneo` or `crearTestimonio` body, type coercion by the ORM) and their 500 answers are not modelled, with one exception: the unique `email` constraint on a profile update is modelled as 500 with nothing changed.
- UsuarioController.ActualizarPerfilUsuario: emails compare as exact strings here, in the 500 guard and in the `EmailsUnique` invariant. The database's unique index uses the server's default collation, which ignores case and accents, so a new email differing from another user's only in case is a 500 there and a 200 here.
- UsuarioController.ActualizarPerfilUsuario: a body missing one of the four fields is not modelled. The update would skip that field, but the response would still echo it as absent.
- HTTP routing, authentication, JWT and bcrypt are not modelled. The caller of the authenticated handlers is the parameter `UsuarioAutenticado`.
- Response messages are not modelled; a failure is its kind and its status code.
- TorneoController.ObtenerTorneoPorId: `porcentajeOcupacion` (a float division rounded by `toFixed(2)`) is not modelled, because floating-point rounding is outside the model.
- `precio` is a `real`, not a 32-bit float.
- AdminController.CalificacionPromedio: the database's decimal rounding of `AVG` is not modelled. The result is the exact quotient.
- The clock: `new Date()` is the integer parameter `now`. Dates are integers.
- TorneoController.ObtenerTorneosConFiltros: SQL `LIKE` with collation is modelled as a plain, case-sensitive substring test.
- Validaciones.CorreoValido: Zod's email format is the parameter `esEmail`.
- Validaciones.FechaValida: parsing a date string is the parameter `instante`. An unparsable date yields no instant, which the refine refuses.
- Validaciones: string lengths count characters, not UTF-16 code units.
- Validaciones: Zod's type errors (`invalid_type`, `required_error`) are not modelled, because forms are typed values here. `cupo` and `edad` are integers and `precio` is a real, so a fractional `cupo` or `edad`, which `z.number()` accepts, is not modelled.
- Validaciones: the issue lists record field and rule, not message text.
- The order of rows with equal sort keys, and the order of groups in a group-by, are not specified by the queries. The model fixes one order and proves nothing about it.
- UsuarioController.TorneosUsuarioAgregar and UsuarioController.TorneosUsuarioTrasInscribir: queries without `ORDER BY` (the enrollments of `obtenerTorneosUsuario`, the `Torneo.findAll()` of `obtenerTorneosConInscritos`) return rows in table (insertion) order here. SQL promises no order, so the "appended last" of these two lemmas is a property of the model, not of the server.
- Tournament winners: no shown handler creates `Ganador` rows, and the `/torneo/finalizados` listing has no server handler. Winners are given to the store's constructor.
- All React pages and components, and the screenshot script, are not modelled.
