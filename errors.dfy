/** The exceptions the pipeline raises, catches or wraps, as values. */
module Errors {
  import opened Wrappers

  datatype Error =
    /** `InvalidOperationException(message, inner)`. */
    | InvalidOperation(message: string, inner: Option<Error>)
    /** `ArgumentNullException(paramName, message)`. */
    | ArgumentNull(paramName: string, message: string)
    /** `ArgumentException(message)`. */
    | Argument(message: string)
    /** `NotSupportedException(message)`. */
    | NotSupported(message: string)
    /** `KeyNotFoundException` from a dictionary or JSON property lookup. */
    | KeyNotFound(key: string)
    /** `JsonException`: the text is not JSON of the expected shape. */
    | JsonSyntax
    /** `InvalidOperationException` raised by a JSON element of the wrong kind. */
    | WrongJsonKind
    /** `HttpRequestException` or another transport failure. */
    | Transport(reason: string)
    /** A failure of the document store's insert. */
    | StoreFailure(reason: string)
    /** A failure of the broker publish (timeout, back-pressure). */
    | PublishFailure(reason: string)
    /** `OperationCanceledException`. */
    | Cancelled
    /** An error carrying an HTTP status code, as the TypeScript services throw. */
    | HttpStatus(status: int, message: string)
}
