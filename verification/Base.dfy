/** Types shared by every component. */
module Base {

  datatype Option<+T> = None | Some(value: T) {
    function GetOr(default: T): T {
      match this
      case Some(v) => v
      case None => default
    }
  }

  /** A SQLite row id. Every id the store hands out is positive. */
  type Id = nat

  type Path = string
}
