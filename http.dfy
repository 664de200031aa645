/**
 * What a handler produces: a JSON reply written with c.JSON, or an echo.HTTPError
 * returned to the framework, which hands it to the application's error handler.
 */
module Http {
  import Jwt

  const StatusOK := 200
  const StatusCreated := 201
  const StatusBadRequest := 400
  const StatusUnauthorized := 401
  const StatusForbidden := 403
  const StatusUnprocessableEntity := 422
  const StatusInternalServerError := 500

  /** echo.HTTPError with a string message. */
  datatype HTTPError = HTTPError(code: int, message: string)

  /** The JSON bodies handlers write. */
  datatype Body =
    | TokenPair(accessToken: string, refreshToken: string)  // {"access_token", "refresh_token"}, nothing else
    | Text(text: string)                                    // a JSON string
    | DecodeFailure(cause: Jwt.TokenError)                  // the text of a decoding error
    | StoreFailure(reason: string)                          // a store error value

  datatype Outcome = Sent(code: int, body: Body) | Raised(error: HTTPError)
  {
    function Code(): int
    {
      match this
      case Sent(code, _) => code
      case Raised(e) => e.code
    }
  }
}
