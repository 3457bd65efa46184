/** Option for the source's `undefined`/`null` values, and Outcome for the
    result of a call into the remote backend, which either resolves with a
    value or rejects with an error whose content the model does not need. */
module Wrappers {

  datatype Option<+T> = None | Some(value: T) {
    /** The value, or `default` when there is none (JavaScript's `??`). */
    function GetOr(default: T): T {
      match this
      case Some(v) => v
      case None => default
    }
  }

  /** A remote call that resolved (`Success`) or rejected (`Failure`).
      A store action that rethrows also ends in `Failure`. */
  datatype Outcome<+T> = Success(value: T) | Failure
}
