/**
  Runtime traps of the Swift code that reads persisted values back.

  A Swift subscript outside `0 ..< count` and a force unwrap (`!`) of `nil`
  stop the program. The model makes such a stop an explicit value,
  `Trapped(trap)`, so that contracts can say exactly when a decoder stops.
 */
module Traps {

  datatype Option<+T> = None | Some(value: T)

  /** Why evaluation stopped. */
  datatype Trap =
    | IndexOutOfRange(index: int)  // a subscript outside 0 ..< count
    | UnexpectedlyFoundNil         // `!` applied to nil

  /** The value of an expression, or the trap that stopped its evaluation. */
  datatype Result<+T> = Ok(value: T) | Trapped(trap: Trap) {
    predicate IsFailure() {
      Trapped?
    }

    function PropagateFailure<U>(): (r: Result<U>)
      requires Trapped?
    {
      Trapped(trap)
    }

    function Extract(): (v: T)
      requires Ok?
    {
      value
    }
  }

  /** `a[index]` on a Swift array or a Realm list. */
  function Subscript<T>(a: seq<T>, index: int): (r: Result<T>) {
    if 0 <= index < |a| then Ok(a[index]) else Trapped(IndexOutOfRange(index))
  }

  /** `o!` in Swift. */
  function ForceUnwrap<T>(o: Option<T>): (r: Result<T>) {
    match o
    case Some(v) => Ok(v)
    case None => Trapped(UnexpectedlyFoundNil)
  }
}
