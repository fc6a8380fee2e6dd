/** Option and Result values shared by every module, and the errors a call can raise. */
module Wrappers {

  datatype Option<+T> = None | Some(value: T)

  /** What a JavaScript call raises instead of returning. */
  datatype Error =
    | JQueryError(message: string)       // `$.error(message)` throws an Error with that message
    | TypeError(message: string)         // reading a property of undefined, calling a missing method
    | ReferenceError(name: string)       // reading an undeclared variable
    | InvalidCharacterError              // `atob` given text that is not base64
    | ParserError(reason: string)        // an exception raised inside an external parser

  /** Either the value a call returns or the error it raises. */
  datatype Result<+T> = Ok(value: T) | Err(error: Error) {
    predicate IsFailure() { Err? }
    function PropagateFailure<U>(): Result<U>
      requires Err?
    {
      Err(error)
    }
    function Extract(): T
      requires Ok?
    {
      value
    }
  }
}
