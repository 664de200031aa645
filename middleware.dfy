/**
 * The request gate in front of protected routes and the application's HTTP
 * error handler (middleware/middleware.go), with the session-lifecycle facts
 * that tie the gate to Login, Logout and Refresh.
 */
module Middleware {
  import opened Wrappers
  import opened Jwt
  import opened Tokens
  import opened Store
  import opened Http
  import opened Auth
  import Utils

  const UnauthorizedMessage := "Error: Access Token is not valid or has expired"

  /** Either the request goes on to the protected handler, or it is answered here. */
  datatype GateResult = Next | Block(out: Outcome)

  /**
   * TokenAuthMiddleware for one request: the token must verify, its metadata must
   * extract, and its access id must be present in the store. The gate only reads
   * the store, and never compares the stored user id with the token's.
   */
  function TokenAuthMiddleware(m: Entries, now: int, c: Codec, secrets: Secrets, header: string,
                               fetchFault: Option<string>): (r: GateResult)
    requires AccessClaimsTyped(VerifyToken(c, secrets, now, header))
    ensures r.Next? <==>
      && DecodesWith(c, secrets.access, now, ExtractToken(header))
      && fetchFault.None?
      && Live(m, now, ExtractTokenMetadata(c, secrets, now, header).value.accessUuid)
    ensures r.Block? ==>
      r.out == Raised(HTTPError(401, UnauthorizedMessage)) || r.out == Sent(401, Text(UnauthorizedMessage))
  {
    if TokenValid(c, secrets, now, header).Some? then
      Block(Raised(HTTPError(StatusUnauthorized, UnauthorizedMessage)))
    else
      match ExtractTokenMetadata(c, secrets, now, header)
      case Err(_) => Block(Sent(StatusUnauthorized, Text(UnauthorizedMessage)))
      case Ok(tokenAuth) =>
        match FetchAuth(m, now, tokenAuth, fetchFault)
        case Err(_) => Block(Sent(StatusUnauthorized, Text(UnauthorizedMessage)))
        case Ok(_) => Next
  }

  /**
   * The two ways the gate refuses a request differ in form: a token that does not
   * verify is refused with an echo.HTTPError, which the error handler wraps in its
   * envelope, while a verified token whose id is no longer stored is refused with
   * the message written as a bare JSON string.
   */
  lemma GateRejectionShapes(m: Entries, now: int, c: Codec, secrets: Secrets, header: string,
                            fetchFault: Option<string>)
    requires AccessClaimsTyped(VerifyToken(c, secrets, now, header))
    ensures !DecodesWith(c, secrets.access, now, ExtractToken(header)) ==>
      TokenAuthMiddleware(m, now, c, secrets, header, fetchFault)
        == Block(Raised(HTTPError(401, UnauthorizedMessage)))
    ensures (DecodesWith(c, secrets.access, now, ExtractToken(header)) &&
             (fetchFault.Some? || !Live(m, now, ExtractTokenMetadata(c, secrets, now, header).value.accessUuid))) ==>
      TokenAuthMiddleware(m, now, c, secrets, header, fetchFault)
        == Block(Sent(401, Text(UnauthorizedMessage)))
  {
  }

  /**
   * A header that does not hold exactly one space yields the empty token string,
   * which does not parse, so the gate refuses it at the first stage.
   */
  lemma GateRefusesMalformedHeader(m: Entries, now: int, c: Codec, secrets: Secrets, header: string,
                                   fetchFault: Option<string>)
    requires Lawful(c)
    requires multiset(header)[' '] != 1
    ensures AccessClaimsTyped(VerifyToken(c, secrets, now, header))
    ensures TokenAuthMiddleware(m, now, c, secrets, header, fetchFault)
         == Block(Raised(HTTPError(401, UnauthorizedMessage)))
  {
    assert ExtractToken(header) == "";
    GateRejectionShapes(m, now, c, secrets, header, fetchFault);
  }

  /** Rewriting the user id stored under any key changes no gate decision. */
  lemma GateIgnoresStoredUser(m: Entries, now: int, c: Codec, secrets: Secrets, header: string,
                              fetchFault: Option<string>, key: string, otherUser: string)
    requires AccessClaimsTyped(VerifyToken(c, secrets, now, header))
    requires key in m
    ensures TokenAuthMiddleware(m[key := Entry(otherUser, m[key].deadline)], now, c, secrets, header, fetchFault)
         == TokenAuthMiddleware(m, now, c, secrets, header, fetchFault)
  {
  }

  /**
   * After a successful login, the access token it returned passes the gate at any
   * time before its expiry, as long as the store entry is not removed.
   */
  lemma LoginThenGateAdmits(m: Entries, now: int, c: Codec, secrets: Secrets, dbUser: Option<string>,
                            passwordOk: bool, uuid: string, af: Option<string>, rf: Option<string>, t: int)
    requires Lawful(c)
    requires LoginStep(m, now, c, secrets, dbUser, passwordOk, uuid, af, rf).out.Code() == 200
    requires t < now + 1800
    ensures dbUser.Some? && Issue(c, secrets, dbUser.value, now, uuid).Ok?
    ensures var header := Bearer(Issue(c, secrets, dbUser.value, now, uuid).value.accessToken);
      && AccessClaimsTyped(VerifyToken(c, secrets, t, header))
      && TokenAuthMiddleware(LoginStep(m, now, c, secrets, dbUser, passwordOk, uuid, af, rf).entries,
                             t, c, secrets, header, None) == Next
  {
    var td := Issue(c, secrets, dbUser.value, now, uuid).value;
    RefreshIdExtends(uuid, dbUser.value);
    CreateAuthWritesTwoKeys(m, now, dbUser.value, td);
    IssuedAccessTokenVerifies(c, secrets, dbUser.value, now, uuid, t);
  }

  /** After a successful logout the same bearer token is refused by the gate, now and at any later time. */
  lemma LogoutThenGateBlocks(m: Entries, now: int, c: Codec, secrets: Secrets, header: string,
                             t: int, fetchFault: Option<string>)
    requires AccessClaimsTyped(VerifyToken(c, secrets, now, header))
    requires AccessClaimsTyped(VerifyToken(c, secrets, t, header))
    requires LogoutStep(m, now, c, secrets, header, None).out.Code() == 200
    ensures TokenAuthMiddleware(LogoutStep(m, now, c, secrets, header, None).entries, t, c, secrets, header, fetchFault).Block?
  {
    LogoutDeletesOnlyAccessEntry(m, now, c, secrets, header, None);
  }

  /**
   * A successful refresh does not revoke any access token other than one whose id
   * equals the rotated refresh id: every token the gate admitted before, it still admits.
   */
  lemma RefreshKeepsAdmittedTokens(m: Entries, now: int, c: Codec, secrets: Secrets, fields: map<string, string>,
                                   uuid: string, header: string)
    requires RefreshRequestTyped(c, secrets, now, Bound(fields))
    requires Fresh(m, uuid)
    requires RefreshStep(m, now, c, secrets, Bound(fields), uuid, None, None, None).out.Code() == 201
    requires AccessClaimsTyped(VerifyToken(c, secrets, now, header))
    requires TokenAuthMiddleware(m, now, c, secrets, header, None) == Next
    requires DecodesWith(c, secrets.refresh, now, RefreshTokenOf(fields))
    requires ExtractTokenMetadata(c, secrets, now, header).value.accessUuid != PresentedRefreshUuid(c, secrets, now, fields)
    ensures TokenAuthMiddleware(RefreshStep(m, now, c, secrets, Bound(fields), uuid, None, None, None).entries,
                                now, c, secrets, header, None) == Next
  {
    RefreshRotates(m, now, c, secrets, fields, uuid);
  }

  /**
   * The lifecycle of one session: log in at `now` (giving `td0` and entries `m1`),
   * then refresh with the returned refresh token at `t`, before the access token
   * expires (giving entries `m2`). The refresh answers 201 and removes the old
   * refresh id, yet the old access token still passes the gate (the overlap
   * window), and the same refresh token is accepted a second time, because
   * Refresh never looks its id up in the store.
   */
  lemma SessionRotation(m: Entries, now: int, c: Codec, secrets: Secrets, userId: string,
                        uuid0: string, td0: TokenDetails, m1: Entries,
                        t: int, uuid1: string, m2: Entries, uuid2: string)
    requires Lawful(c)
    requires Fresh(m, uuid0)
    requires Issue(c, secrets, userId, now, uuid0) == Ok(td0)
    requires LoginStep(m, now, c, secrets, Some(userId), true, uuid0, None, None)
          == Transition(Sent(200, TokenPair(td0.accessToken, td0.refreshToken)), m1)
    requires now <= t < td0.atExpires
    requires Fresh(m1, uuid1)
    requires Issue(c, secrets, userId, t, uuid1).Ok? && Issue(c, secrets, userId, t, uuid2).Ok?
    requires RefreshRequestTyped(c, secrets, t, Bound(map["refresh_token" := td0.refreshToken]))
    requires RefreshStep(m1, t, c, secrets, Bound(map["refresh_token" := td0.refreshToken]), uuid1, None, None, None).entries == m2
    ensures RefreshStep(m1, t, c, secrets, Bound(map["refresh_token" := td0.refreshToken]), uuid1, None, None, None).out.Code() == 201
    ensures td0.refreshUuid in m1 && td0.refreshUuid !in m2
    ensures AccessClaimsTyped(VerifyToken(c, secrets, t, Bearer(td0.accessToken)))
    ensures TokenAuthMiddleware(m2, t, c, secrets, Bearer(td0.accessToken), None) == Next
    ensures RefreshStep(m2, t, c, secrets, Bound(map["refresh_token" := td0.refreshToken]), uuid2, None, None, None).out.Code() == 201
  {
    var fields := map["refresh_token" := td0.refreshToken];
    LoginSuccess(m, now, c, secrets, Some(userId), true, uuid0, None, None);
    LoginThenGateAdmits(m, now, c, secrets, Some(userId), true, uuid0, None, None, t);
    IssuedRefreshTokenPresented(c, secrets, userId, now, uuid0, t);
    RefreshSuccessIff(m1, t, c, secrets, fields, uuid1, None, None, None);
    RefreshRotates(m1, t, c, secrets, fields, uuid1);
    IssuedAccessTokenVerifies(c, secrets, userId, now, uuid0, t);
    RefreshIdExtends(uuid0, userId);
    assert ExtractTokenMetadata(c, secrets, t, Bearer(td0.accessToken)).value.accessUuid == uuid0;
    RefreshKeepsAdmittedTokens(m1, t, c, secrets, fields, uuid1, Bearer(td0.accessToken));
    RefreshSuccessIff(m1, t, c, secrets, fields, uuid2, None, None, None);
    RefreshAnswerIgnoresStore(m1, m2, t, c, secrets, Bound(fields), uuid2, None, None, None);
  }

  // ---------------------------------------------------------------------------
  // Error handler

  /** One failed validation rule of a bound request: its tag, field name and parameter. */
  datatype FieldError = FieldError(tag: string, field: string, param: string)

  /** The errors the handler receives: an echo.HTTPError, the validator's errors (with their joined text), or any other error. */
  datatype HandlerError =
    | EchoError(httpError: HTTPError)
    | ValidationErrors(fieldErrors: seq<FieldError>, text: string)
    | OtherError(text: string)

  /** The message the four known tags produce; any other tag keeps the message it is given. */
  function FieldMessage(fe: FieldError, current: string): string
  {
    if fe.tag == "required" then fe.field + " is required"
    else if fe.tag == "email" then fe.field + " is not valid email"
    else if fe.tag == "gte" then fe.field + " value must be greater than " + fe.param
    else if fe.tag == "lte" then fe.field + " value must be lower than " + fe.param
    else current
  }

  /**
   * ErrorHandler: an echo.HTTPError keeps its code and message and anything else
   * becomes 500 with its own text; for validation errors only the first field
   * error is looked at. The reply is always NewError(code, message).
   */
  method ErrorHandler(err: HandlerError) returns (code: int, body: Utils.HttpError)
    ensures code == (if err.EchoError? then err.httpError.code else 500)
    ensures err.EchoError? ==> body == Utils.NewError(code, err.httpError.message)
    ensures err.OtherError? ==> body == Utils.NewError(500, err.text)
    ensures err.ValidationErrors? && |err.fieldErrors| == 0 ==> body == Utils.NewError(500, err.text)
    ensures err.ValidationErrors? && |err.fieldErrors| > 0 ==>
      body == Utils.NewError(500, FieldMessage(err.fieldErrors[0], err.text))
  {
    var report: HTTPError;
    match err {
      case EchoError(e) => report := e;
      case ValidationErrors(_, text) => report := HTTPError(StatusInternalServerError, text);
      case OtherError(text) => report := HTTPError(StatusInternalServerError, text);
    }

    if err.ValidationErrors? {
      var fieldErrors := err.fieldErrors;
      // The body always ends in `break`, so it runs at most once: only the first field error counts.
      for i := 0 to |fieldErrors|
      {
        var fe := fieldErrors[i];
        if fe.tag == "required" {
          report := report.(message := fe.field + " is required");
        } else if fe.tag == "email" {
          report := report.(message := fe.field + " is not valid email");
        } else if fe.tag == "gte" {
          report := report.(message := fe.field + " value must be greater than " + fe.param);
        } else if fe.tag == "lte" {
          report := report.(message := fe.field + " value must be lower than " + fe.param);
        }
        break;
      }
    }

    var message := report.message;
    code, body := report.code, Utils.NewError(report.code, message);
  }
}
