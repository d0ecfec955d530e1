/** The Option datatype used for Python's `None` throughout the model, and list helpers. */
module Wrappers {

  datatype Option<+T> = None | Some(value: T)
  {
    /** The wrapped value, or `default` when there is none. */
    function GetOr(default: T): T
    {
      match this
      case Some(v) => v
      case None => default
    }
  }

  /** No element of `xs` occurs twice. */
  predicate NoDup<T(==)>(xs: seq<T>)
  {
    forall i, j :: 0 <= i < j < |xs| ==> xs[i] != xs[j]
  }
}
