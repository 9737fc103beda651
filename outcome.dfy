/** Failure-compatible result types for the Python exceptions that the modelled
    computations can raise, so that error paths are values rather than
    preconditions. */
module Outcome {

  /** The Python exceptions raised by the modelled code. */
  datatype Error =
    | ValueError          // explicit `raise ValueError` on a bad input size
    | ZeroDivisionError   // Python `int / int` with a zero row count
    | IndexError          // `.index[0]` of an empty index
    | KeyError            // `[0]` on an empty Series

  /** Either the value computed or the exception raised. Usable with `:-`. */
  datatype Result<+T> = Ok(value: T) | Err(error: Error) {

    predicate IsFailure() {
      Err?
    }

    function PropagateFailure<U>(): Result<U>
      requires Err?
    {
      Err(error)
    }

    function Extract(): T
      requires Ok?
    {
      value
    }
  }

  /** A floating-point result that may be NaN: `None` stands for NaN. */
  datatype Option<+T> = None | Some(value: T)
}
