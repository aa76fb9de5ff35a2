/** An optional value, a result or a refusal, and the sizes of sets. */
module Wrappers {
  datatype Option<+T> = None | Some(value: T)

  datatype Result<+T> = Ok(value: T) | Refusal {
    predicate IsFailure() { Refusal? }
    function PropagateFailure<U>(): Result<U> requires Refusal? { Refusal }
    function Extract(): T requires Ok? { value }
  }

  lemma {:induction false} SubsetSize<T>(a: set<T>, b: set<T>)
    requires a <= b
    ensures |a| <= |b|
  {
    if x :| x in a { SubsetSize(a - {x}, b - {x}); }
  }
}
