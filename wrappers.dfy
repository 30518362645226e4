/** Option, Result and Outcome: the shapes of Rust's `Option`, `Result` and of a
    call that may end the process instead of returning. */
module Wrappers {

  datatype Option<+T> = None | Some(value: T) {
    function GetOr(default: T): T {
      match this
      case Some(v) => v
      case None => default
    }
  }

  datatype Result<+T, +E> = Ok(value: T) | Err(error: E) {
    predicate IsFailure() {
      Err?
    }

    function PropagateFailure<U>(): Result<U, E>
      requires Err?
    {
      Err(error)
    }

    function Extract(): T
      requires Ok?
    {
      value
    }

    /** `Result::ok()`: forget the error. */
    function ToOption(): Option<T> {
      match this
      case Ok(v) => Some(v)
      case Err(_) => None
    }
  }

  /** What a call does to its caller: it returns a `Result`, or it ends the
      process, by a panic (`Aborted`, an `unwrap` or `expect` that fails) or
      by printing an error and calling `exit(1)` (`Exits`). */
  datatype Outcome<+T, +E> = Returned(result: Result<T, E>) | Aborted(reason: string) | Exits(message: string)

  /** Appending to a log in two steps is appending the two parts at once; a
      proof step for the flows' logs, with no counterpart in the program. */
  lemma AppendTwice<T>(log: seq<T>, first: seq<T>, second: seq<T>)
    ensures log + first + second == log + (first + second)
  {
  }
}
