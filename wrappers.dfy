/** Optional values: the model of Swift's `T?`. */
module Wrappers {

  datatype Option<+T> = None | Some(value: T) {

    /** Lets `var x :- e;` stand for Swift's `guard let x = e else { return nil }`. */
    predicate IsFailure() { None? }

    function PropagateFailure<U>(): Option<U>
      requires None?
    {
      None
    }

    function Extract(): T
      requires Some?
    {
      value
    }

    /** The value, or `default` when there is none (Swift's `??`). */
    function GetOr(default: T): T {
      match this
      case Some(v) => v
      case None => default
    }
  }
}
