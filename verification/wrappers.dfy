/** Failure-compatible wrappers shared by every module of the model. */
module Wrappers {

  /** A value that may be absent: JavaScript's `null`/`undefined` for one field. */
  datatype Option<+T> = None | Some(value: T) {
    function GetOr(default: T): T {
      match this
      case Some(v) => v
      case None => default
    }
  }

  /** The outcome of an operation that either returns a value or throws. */
  datatype Result<+T, +E> = Ok(value: T) | Err(error: E)

  /**
    An awaited call throws once `fault` writes are done, at most the `n`
    writes a run makes. A fault of exactly `n` is a query after the last
    write that throws.
  */
  predicate ThrowsWithin(fault: Option<nat>, n: nat) {
    fault.Some? && fault.value <= n
  }

  /** The writes that stay: those done before the throw, or all of them. */
  function WritesKept<T>(ws: seq<T>, fault: Option<nat>): (r: seq<T>)
    ensures r <= ws
    ensures ThrowsWithin(fault, |ws|) ==> |r| == fault.value
    ensures !ThrowsWithin(fault, |ws|) ==> r == ws
  {
    if ThrowsWithin(fault, |ws|) then ws[..fault.value] else ws
  }
}
