/** The HTTP outcome of an endpoint. */
module Http {

  /**
   * `Success(body)` is a 200 response carrying `json(body)`; `Failure(status)` is either a
   * thrown `error(status, ...)` or a returned `json({ error }, { status })`.
   */
  datatype Response<+B> = Success(body: B) | Failure(status: int)
}
