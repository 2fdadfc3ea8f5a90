/** Values shared by every part of the import pipeline: optional values,
    the Python exceptions the command raises or catches, and the outcome of
    a Python call that either returns a value or raises. */
module Outcomes {

  /** `None` or a value, as Python's `None` stands beside a result. */
  datatype Option<+T> = None | Some(value: T)

  /** The exception classes that reach the pipeline's `except` clauses. */
  datatype Exception =
    | ValueError                 // float() of a non-number; json.JSONDecodeError is a subclass
    | TypeError                  // sum() over a non-number, float(None), iterating a number
    | AttributeError             // .get on a JSON value that is not an object
    | KeyError                   // named in the importers' except clauses; nothing here raises it
    | CommandError(message: string)

  /** A Python call either returns a value or raises an exception. */
  datatype Outcome<+T> = Returned(value: T) | Raised(error: Exception)
}
