/** Optional values and the outcome of one remote call.

    Every remote call the stores make (the catalogue API, the hosted auth
    service) either resolves with a value or throws; the stores catch the
    exception and keep only its `message`. An `Outcome` is that resolution,
    handed to the model as a parameter instead of being performed.
 */
module Outcomes {

  /** `T | null` in the source. */
  datatype Option<+T> = None | Some(value: T) {

    /** The value, or `default` when there is none (the source's `x || default`
        on a string field). */
    function GetOr(default: T): (r: T)
      ensures Some? ==> r == value
      ensures None? ==> r == default
    {
      match this
      case Some(v) => v
      case None => default
    }
  }

  /** How one awaited remote call ended: with a value, or with an error whose
      message the store records. */
  datatype Outcome<+T> = Ok(value: T) | Err(message: string)
}
