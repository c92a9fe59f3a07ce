/** What every module shares: optional values and milliseconds. */
module Wrappers {

  /** A point in time, or a duration, in milliseconds. */
  type Millis = int

  const DAY_MS := 24 * 60 * 60 * 1000

  /** A nullable column, or a field that may be absent. */
  datatype Option<+T> = None | Some(value: T) {

    /** The value, or `default` when there is none (the `??` of the source). */
    function GetOr(default: T): T {
      match this
      case Some(v) => v
      case None => default
    }
  }
}
