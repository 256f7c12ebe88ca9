/** The optional value used wherever the library returns `std::optional`, a nullable pointer or a
    missing map entry. */
module Wrappers {
  datatype Option<+T> = None | Some(value: T) {
    function GetOr(default: T): T {
      match this
      case None => default
      case Some(v) => v
    }
  }
}
