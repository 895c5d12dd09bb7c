/** Option and the outcome of a request handled by the analytics controllers. */
module Wrappers {

  datatype Option<+T> = None | Some(value: T)

  /** What a controller answers: a result, or one of the two error payloads it sends. */
  datatype Outcome<+T> =
    | Ok(value: T)
    | NotFound(error: string)
    | BadRequest(error: string)
}
