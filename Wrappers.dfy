/** The optional value used for collaborator results that may be missing
    (a PMCID that was not found, an exception raised by a fetch). */
module Wrappers {

  datatype Option<+T> = None | Some(value: T) {

    /** The wrapped value, or `default` when there is none. */
    function GetOr(default: T): T {
      match this
      case Some(v) => v
      case None => default
    }
  }
}
