/** FastAPI's `HTTPException(status_code, detail)` as the services raise it. */
module Http {
  datatype HttpError = HttpError(status: int, detail: string)

  const BadRequest := 400
  const Unauthorized := 401
  const NotFound := 404
}
