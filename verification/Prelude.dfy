/** Result shapes shared by every model in the project. */
module Prelude {

  datatype Option<+T> = None | Some(value: T) {
    function GetOr(default: T): T {
      match this
      case Some(v) => v
      case None => default
    }
  }

  /** What a service call answers: a value, or the exception it raises. */
  datatype Reply<+T> = Ok(value: T) | NotFound | Conflict
}
