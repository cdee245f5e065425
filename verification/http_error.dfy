/** The error a server handler throws with `createError`: a status code and
    a status message, which the HTTP layer turns into the response. */
module HttpError {

  datatype HttpError = HttpError(statusCode: nat, statusMessage: string)

  /** The status codes the modelled handlers throw. */
  const BadRequest: nat := 400
  const InternalServerError: nat := 500
}
