/** Rows of the five tables of the tournament application (the schemas under
    servidor/models). Dates are integer timestamps, strings are sequences of characters, and
    `precio` is a real number (no float rounding is modelled). */
module Models {

  datatype Option<T> = None | Some(value: T)

  /** The `deporte` enumeration of a tournament. */
  datatype Deporte = Natacion | AguasAbiertas | Triatlon | Acuatlon | Atletismo

  /** The `estado` enumeration of a tournament. */
  datatype Estado = Activo | Cancelado | Finalizado

  datatype Genero = Masculino | Femenino

  datatype Rol = Admin | Participante

  datatype Torneo = Torneo(
    id: nat,
    nombre: string,
    deporte: Deporte,
    fecha: int,
    ubicacion: string,
    descripcion: string,
    cupo: int,        // an INTEGER column with no range check: it may be 0 or negative
    precio: real,
    estado: Estado)

  /** An enrollment row. The schema has no unique constraint on the
      (usuarioId, torneoId) pair: only the handlers keep it unique. */
  datatype Inscripcion = Inscripcion(id: nat, usuarioId: nat, torneoId: nat)

  datatype Usuario = Usuario(
    id: nat,
    nombre: string,
    email: string,
    password: string,
    genero: Genero,
    edad: int,
    rol: Rol,
    createdAt: int)

  datatype Testimonio = Testimonio(
    id: nat,
    comentario: string,
    calificacion: int,
    usuarioId: nat,
    createdAt: int)

  /** A winner row. Nothing makes `torneoId` unique, and no handler creates one. */
  datatype Ganador = Ganador(id: nat, usuarioId: nat, torneoId: nat)

  /** A user as the queries that exclude the `password` attribute return it. */
  datatype UsuarioPublico = UsuarioPublico(
    id: nat,
    nombre: string,
    email: string,
    genero: Genero,
    edad: int,
    rol: Rol,
    createdAt: int)

  function Publico(u: Usuario): (p: UsuarioPublico)
  {
    UsuarioPublico(u.id, u.nombre, u.email, u.genero, u.edad, u.rol, u.createdAt)
  }

  /** The identity the authentication middleware attaches to a request. */
  datatype UsuarioAutenticado = UsuarioAutenticado(id: nat, email: string, rol: Rol)
}
