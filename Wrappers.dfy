/** Optional values and settled promises, used wherever the source has
    `null`/`undefined` or an awaited call that may reject. */
module Wrappers {

  /** A value that may be absent (`null` or `undefined` in the source). */
  datatype Option<+T> = None | Some(value: T) {

    /** The value, or `default` when absent (the source's `??`). */
    function GetOr(default: T): T {
      match this
      case Some(v) => v
      case None => default
    }
  }

  /** How an awaited promise settles: with a value, or by rejecting
      (a thrown exception that nobody catches on the way). */
  datatype Settled<+T> = Resolved(value: T) | Rejected
}
