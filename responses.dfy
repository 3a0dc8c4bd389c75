/** What a handler sends back: a status code with either a payload or one of
    the handlers' failure messages. */
module Responses {

  datatype Falla =
    | TorneoNoEncontrado
    | TorneoNoActivo
    | YaInscrito
    | SinCupos
    | NoInscrito
    | NoHayTorneos
    | UsuarioNoEncontrado
    | CalificacionFueraDeRango
    | EmailEnUso

  datatype Response<T> = Ok(status: int, value: T) | Err(status: int, falla: Falla)

  /** The status code each failure is sent with. */
  function Status(f: Falla): (code: int)
    ensures code in {400, 404, 500}
  {
    match f
    case TorneoNoEncontrado | NoInscrito | NoHayTorneos | UsuarioNoEncontrado => 404
    case TorneoNoActivo | YaInscrito | SinCupos | CalificacionFueraDeRango => 400
    case EmailEnUso => 500
  }
}
