/** Option and the Python-exception wrapper shared by every module. */
module Wrappers {

  datatype Option<+T> = None | Some(value: T)

  /** The outcome of a Python expression that may raise: a value, or an exception
      carrying its message (`str(e)`). `:-` propagates the exception. */
  datatype Res<+T> = Ok(value: T) | Raise(msg: string) {
    predicate IsFailure() {
      Raise?
    }

    function PropagateFailure<U>(): Res<U>
      requires Raise?
    {
      Raise(msg)
    }

    function Extract(): T
      requires Ok?
    {
      value
    }
  }
}
