/** The `HTTPException` the request validators raise: a status code and why. */
module Http {

  const NotFound: int := 404
  const InternalError: int := 500

  datatype HttpException<R> = HttpException(status: int, reason: R)
}
