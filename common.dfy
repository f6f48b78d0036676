/** Identifiers, timestamps, optional values and the outcome of a
    back-office route handler. */
module Common {

  /** A document id (a MongoDB ObjectId). */
  type Id = nat

  /** A point in time, in milliseconds since the epoch. */
  type Timestamp = int

  datatype Option<+T> = None | Some(value: T)

  /** What an Express handler sends back: the JSON body on success, or one
      of the three error statuses the routes use (400, 404, 500) with the
      handler's message. */
  datatype Reply<+T> =
    | Ok(value: T)
    | BadRequest(message: string)
    | NotFound(message: string)
    | ServerError(message: string)

  /** A handler's reply together with the collection it leaves behind. */
  datatype Outcome<+S, +T> = Outcome(reply: Reply<T>, state: S)
}
