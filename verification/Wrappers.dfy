/** Optional values and decoding outcomes shared by every module. */
module Wrappers {

  datatype Option<+T> = None | Some(value: T)

  /** A decoding outcome. Which of several errors is raised first is not modelled. */
  datatype Result<+T> = Ok(value: T) | Fail {
    predicate IsFailure() {
      Fail?
    }

    function PropagateFailure<U>(): Result<U>
      requires Fail?
    {
      Fail
    }

    function Extract(): T
      requires Ok?
    {
      value
    }
  }
}
