/** Values shared by every part of the model: optional values, results of
    calls that may fail, and the values a JavaScript `throw` can carry. */
module Base {

  datatype Option<T> = None | Some(value: T) {
    /** `x || fallback` / `x ?? fallback` on an optional value. */
    function GetOr(fallback: T): T {
      if Some? then value else fallback
    }
  }

  /** The outcome of a call that may fail (a rejected promise, a Go `error`). */
  datatype Result<T, E> = Ok(value: T) | Err(error: E)

  /** What a JavaScript `throw` can carry in this code base:
      - `Error`: an `Error` object (or a `DOMException`) with its `name` and `message`;
      - `ApiError`: the client's `APIError` subclass of `Error`, whose name is 'APIError'
        and which may carry an HTTP status;
      - `NonError`: any thrown value that is not an `Error` instance. */
  datatype Thrown =
    | Error(name: string, message: string)
    | ApiError(message: string, status: Option<int>)
    | NonError
  {
    /** `e instanceof Error` */
    predicate IsError() { !NonError? }

    /** `e instanceof Error ? e.message : fallback` */
    function MessageOr(fallback: string): (m: string)
      ensures IsError() ==> m == message
      ensures !IsError() ==> m == fallback
    {
      match this
      case Error(_, msg) => msg
      case ApiError(msg, _) => msg
      case NonError => fallback
    }
  }

  /** `new Error(message)`: an `Error` whose name is 'Error'. */
  function NewError(message: string): Thrown {
    Error("Error", message)
  }
}
