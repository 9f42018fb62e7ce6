/** Values shared by the order and chat handlers: optional values, handler
    results, HTTP errors and the decoded bearer-token claims. */
module Common {

  datatype Option<+T> = None | Some(value: T)

  /** What a request handler produces: a response body, or the HTTP error it raises. */
  datatype Result<+T> = Ok(value: T) | Err(error: HttpError)

  /** An `HTTPException`: status code and detail text. */
  datatype HttpError = HttpError(status: int, detail: string)

  /** The 403 both feature areas raise when the caller may not see or change a resource. */
  const Forbidden := HttpError(403, "Forbidden")

  /** The decoded token payload as the handlers read it: the subject claim
      and the role claim (absent when the token carries none). */
  datatype Claims = Claims(sub: string, role: Option<string>)
}
