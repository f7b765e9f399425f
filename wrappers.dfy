/** Optional values (JavaScript's `undefined`/`null`, or a conversion that throws or gives
    `NaN`, is `None`) and HTTP replies. */
module Wrappers {

  datatype Option<+T> = None | Some(value: T) {

    /** The value, or `default` when absent (JavaScript's `x ?? default`). */
    function GetOr(default: T): T {
      match this
      case Some(v) => v
      case None => default
    }
  }

  /** An HTTP reply: the status code and the JSON body the route sends with it. */
  datatype Reply<T> = Reply(status: int, body: T)
}
