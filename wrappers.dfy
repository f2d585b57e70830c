/** Failure-carrying values, and a small sequence lemma, shared by the pricing modules. */
module Wrappers {

  /** A value that may be absent (Python's `None`). */
  datatype Option<+T> = None | Some(value: T)

  /** The outcome of an operation that can raise: a value or the error raised. */
  datatype Result<+T, +E> = Ok(value: T) | Err(error: E)

  /** Some element of `s` satisfies `P` iff one before the last does, or the last does. */
  lemma ExistsSplit<T>(s: seq<T>, P: T -> bool)
    requires s != []
    ensures (exists i :: 0 <= i < |s| && P(s[i])) <==> (exists i :: 0 <= i < |s| - 1 && P(s[i])) || P(s[|s| - 1])
  {
  }
}
