/** Identifiers, optional values, results and HTTP error outcomes shared by the model. */
module Common {

  /** Item and user ids are the string form of a document's `_id`. */
  type ItemId = string
  type UserId = string

  datatype Option<T> = None | Some(value: T)

  datatype Result<T, E> = Ok(value: T) | Err(error: E)

  /** The error response a route handler sends: an HTTP status code and its message. */
  datatype HttpError = HttpError(status: nat, message: string)

  const BadRequest: nat := 400
  const Unauthorized: nat := 401
  const NotFound: nat := 404
  const InternalError: nat := 500
}
