/** HTTP status codes the controllers send, and the shape of a controller's reply. */
module Http {

  const OK: int := 200
  const CREATED: int := 201
  const BAD_REQUEST: int := 400
  const FORBIDDEN: int := 403
  const NOT_FOUND: int := 404

  /** A reply: a status with a JSON body the model keeps (Ok), or an error status whose
      body is only a message (Refused). */
  datatype Reply<+T> = Ok(status: int, value: T) | Refused(status: int)
}
