/** Failure-carrying values, and one sequence step, shared by the modules of the viewer model. */
module Wrappers {

  datatype Option<+T> = None | Some(value: T)

  /** The `(value, error)` pair of a Go function: exactly one side is meaningful. */
  datatype Result<+T, +E> = Ok(value: T) | Err(error: E)

  /**
   * Regrouping a concatenation. Stated once and called where a loop's or a lemma's context
   * is large enough that the solver does not find this step on its own.
   */
  lemma ConcatAssoc<T>(a: seq<T>, b: seq<T>, c: seq<T>)
    ensures (a + b) + c == a + (b + c)
  {
  }
}
