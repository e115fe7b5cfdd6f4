/** Optional values: JavaScript's `undefined` / `null` and absent results. */
module Wrappers {

  datatype Option<+T> = None | Some(value: T) {

    /** True if there is no value (for the `:-` operator). */
    predicate IsFailure() {
      None?
    }

    /** A None of another value type. */
    function PropagateFailure<U>(): Option<U>
      requires None?
    {
      None
    }

    /** The wrapped value. */
    function Extract(): T
      requires Some?
    {
      value
    }

    /** The wrapped value, or `default` when there is none. */
    function GetOr(default: T): T {
      match this
      case Some(v) => v
      case None => default
    }
  }
}
