/** Value types shared by every module. */
module Basics {

  datatype Option<+T> = None | Some(value: T)

  /** The outcome of an operation that the SDK aborts with a panic: an illegal state
      transition, a failed lookup, a duplicate command or a nil dereference. */
  datatype Result<+T> = Ok(value: T) | Panic {
    predicate IsFailure() {
      Panic?
    }

    function PropagateFailure<U>(): Result<U>
      requires Panic?
    {
      Result.Panic
    }

    function Extract(): T
      requires Ok?
    {
      value
    }
  }

  lemma AnyElement<T>(s: set<T>) returns (x: T)
    requires s != {}
    ensures x in s
  {
    x :| x in s;
  }
}
