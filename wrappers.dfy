/** Optional values and the exceptions the .NET runtime raises in the engine. */
module Wrappers {

  datatype Option<+T> = None | Some(value: T) {
    function GetOr(default: T): T {
      match this
      case Some(v) => v
      case None => default
    }
  }

  /** The kinds of exception the engine can raise; list and array index errors share one kind. */
  datatype Exception =
    | IndexOutOfRange   // array or list index outside its bounds
    | NullReference     // a member used on a null reference
    | ArgumentNull      // a LINQ operator (ToList) applied to null
    | Format            // Convert.ToInt32 / Convert.ToDateTime on text of the wrong shape
    | Overflow          // a checked Int32 operation out of range
    | InvalidCast       // a cast to IOrderedEnumerable of a sequence that is not ordered
    | DuplicateKey      // Dictionary.Add with a key already present
    | FileNotFound      // a StreamReader opened on a file that does not exist

  /** The outcome of a computation that either returns a value or throws. */
  datatype Result<+T> = Ok(value: T) | Throw(error: Exception) {
    predicate IsFailure() {
      Throw?
    }

    function PropagateFailure<U>(): Result<U>
      requires Throw?
    {
      Throw(error)
    }

    function Extract(): T
      requires Ok?
    {
      value
    }
  }
}
