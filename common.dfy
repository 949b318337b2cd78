/** Shared wrappers and HTTP status codes used by the backend and front-end models. */
module Common {

  datatype Option<T> = None | Some(value: T)

  /** An `HTTPException` raised by a route: a status code and its `detail` text. */
  datatype HttpError = HttpError(status: int, detail: string)

  /** The outcome of a backend operation: a value, or the error the route raises. */
  datatype Result<T> = Ok(value: T) | Err(error: HttpError)

  // Client error status codes, section 15.5 of RFC 9110; 500 is section 15.6.1.
  const BadRequest := 400
  const Unauthorized := 401
  const Forbidden := 403
  const NotFound := 404
  const Conflict := 409
  const UnprocessableContent := 422
  const InternalServerError := 500

  /**
   * A request whose parameters or body fail validation; FastAPI's `detail` is
   * a list of per-field errors, which the model does not spell out.
   */
  const ValidationFailed := HttpError(UnprocessableContent, "Request validation failed")

  /** An exception no handler catches, answered with Starlette's plain 500 response. */
  const ServerError := HttpError(InternalServerError, "Internal Server Error")
}
