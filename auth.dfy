/**
 * The session protocol over the store (auth/auth.go, and Refresh of
 * auth/token.go): the two TTL writes of CreateAuth, the lookup FetchAuth, the
 * single delete DeleteAuth, and the Login, Logout and Refresh handlers built from
 * them. Each handler is a method on the store, proved equal to a step function on
 * the store's entries; the lemmas are about the step functions.
 */
module Auth {
  import opened Wrappers
  import opened Jwt
  import opened Tokens
  import opened Store
  import opened Http

  /** What a handler answers and the entries it leaves behind. */
  datatype Transition = Transition(out: Outcome, entries: Entries)

  /**
   * A fresh token id, as xid.New() provides it: no '+', and no stored key starts
   * with it (so neither it nor its refresh id is a key yet).
   */
  predicate Fresh(m: Entries, uuid: string)
  {
    '+' !in uuid && forall k :: k in m ==> !(uuid <= k)
  }

  // ---------------------------------------------------------------------------
  // Store protocol

  /** Access entry first, with TTL AtExpires - now; the refresh entry only when that write succeeded. */
  function CreateAuthStep(m: Entries, now: int, userId: string, td: TokenDetails,
                          accessFault: Option<string>, refreshFault: Option<string>): (Option<string>, Entries)
  {
    if accessFault.Some? then (accessFault, m)
    else
      var m1 := m[td.tokenUuid := Entry(userId, now + (td.atExpires - now))];
      if refreshFault.Some? then (refreshFault, m1)
      else (None, m1[td.refreshUuid := Entry(userId, now + (td.rtExpires - now))])
  }

  method CreateAuth(store: TtlStore, userId: string, td: TokenDetails,
                    accessFault: Option<string>, refreshFault: Option<string>) returns (err: Option<string>)
    modifies store
    ensures store.now == old(store.now)
    ensures (err, store.entries) == CreateAuthStep(old(store.entries), old(store.now), userId, td, accessFault, refreshFault)
  {
    var at := td.atExpires;
    var rt := td.rtExpires;
    var now := store.now;

    var errAccess := store.Set(td.tokenUuid, userId, at - now, accessFault);
    if errAccess.Some? {
      return errAccess;
    }

    var errRefresh := store.Set(td.refreshUuid, userId, rt - now, refreshFault);
    if errRefresh.Some? {
      return errRefresh;
    }
    return None;
  }

  /** The user id stored under the access id, or the store's error when the key is absent, expired or unreachable. */
  function FetchAuth(m: Entries, now: int, authD: AccessDetails, fault: Option<string>): (r: Result<string, string>)
    ensures r.Ok? <==> fault.None? && Live(m, now, authD.accessUuid)
    ensures r.Ok? ==> r.value == m[authD.accessUuid].value
    ensures fault.None? && !Live(m, now, authD.accessUuid) ==> r == Err(NilReply)
  {
    Get(m, now, authD.accessUuid, fault)
  }

  function DeleteAuthStep(m: Entries, key: string, fault: Option<string>): (Option<string>, Entries)
  {
    (fault, if fault.None? then m - {key} else m)
  }

  method DeleteAuth(store: TtlStore, accessUuid: string, fault: Option<string>) returns (err: Option<string>)
    modifies store
    ensures store.now == old(store.now)
    ensures (err, store.entries) == DeleteAuthStep(old(store.entries), accessUuid, fault)
  {
    err := store.Del(accessUuid, fault);
  }

  lemma CreateAuthWritesTwoKeys(m: Entries, now: int, userId: string, td: TokenDetails)
    requires td.tokenUuid != td.refreshUuid
    ensures var (err, m') := CreateAuthStep(m, now, userId, td, None, None);
      && err.None?
      && m'.Keys == m.Keys + {td.tokenUuid, td.refreshUuid}
      && m'[td.tokenUuid] == Entry(userId, td.atExpires)
      && m'[td.refreshUuid] == Entry(userId, td.rtExpires)
      && (forall k :: k in m && k != td.tokenUuid && k != td.refreshUuid ==> m'[k] == m[k])
  {
  }

  /** A failed access write leaves the store as it was and the refresh write is never tried; a failed refresh write leaves the access entry in place. */
  lemma CreateAuthPartialFailure(m: Entries, now: int, userId: string, td: TokenDetails,
                                 accessFault: Option<string>, refreshFault: Option<string>)
    ensures accessFault.Some? ==>
      CreateAuthStep(m, now, userId, td, accessFault, refreshFault) == (accessFault, m)
    ensures accessFault.None? && refreshFault.Some? ==>
      CreateAuthStep(m, now, userId, td, accessFault, refreshFault)
        == (refreshFault, m[td.tokenUuid := Entry(userId, td.atExpires)])
  {
  }

  /** DEL removes exactly its key; an absent key is not an error. */
  lemma DeleteAuthRemovesOneKey(m: Entries, key: string)
    ensures var (err, m') := DeleteAuthStep(m, key, None);
      && err.None?
      && m'.Keys == m.Keys - {key}
      && (forall k :: k in m' ==> m'[k] == m[k])
  {
  }

  // ---------------------------------------------------------------------------
  // Login

  /**
   * Login after the user lookup: `dbUser` is the found user's id (dbUser.ID.Hex())
   * or None when no user has the email, `passwordOk` the bcrypt comparison.
   */
  function LoginStep(m: Entries, now: int, c: Codec, secrets: Secrets, dbUser: Option<string>, passwordOk: bool,
                     uuid: string, accessFault: Option<string>, refreshFault: Option<string>): Transition
  {
    if dbUser.None? then Transition(Raised(HTTPError(StatusBadRequest, "Users not found")), m)
    else if !passwordOk then Transition(Raised(HTTPError(StatusBadRequest, "Invalid password")), m)
    else
      match Issue(c, secrets, dbUser.value, now, uuid)
      case Err(e) => Transition(Raised(HTTPError(StatusUnprocessableEntity, e)), m)
      case Ok(ts) =>
        var (saveErr, m') := CreateAuthStep(m, now, dbUser.value, ts, accessFault, refreshFault);
        if saveErr.Some? then Transition(Raised(HTTPError(StatusUnprocessableEntity, saveErr.value)), m')
        else Transition(Sent(StatusOK, TokenPair(ts.accessToken, ts.refreshToken)), m')
  }

  method Login(store: TtlStore, c: Codec, secrets: Secrets, dbUser: Option<string>, passwordOk: bool,
               uuid: string, accessFault: Option<string>, refreshFault: Option<string>) returns (out: Outcome)
    requires Fresh(store.entries, uuid)
    modifies store
    ensures store.now == old(store.now)
    ensures Transition(out, store.entries)
      == LoginStep(old(store.entries), old(store.now), c, secrets, dbUser, passwordOk, uuid, accessFault, refreshFault)
  {
    if dbUser.None? {
      return Raised(HTTPError(StatusBadRequest, "Users not found"));
    }
    if !passwordOk {
      return Raised(HTTPError(StatusBadRequest, "Invalid password"));
    }
    var id := dbUser.value;

    var ts := CreateToken(c, secrets, id, store.now, uuid);
    if ts.Err? {
      return Raised(HTTPError(StatusUnprocessableEntity, ts.error));
    }

    var saveErr := CreateAuth(store, id, ts.value, accessFault, refreshFault);
    if saveErr.Some? {
      return Raised(HTTPError(StatusUnprocessableEntity, saveErr.value));
    }

    out := Sent(StatusOK, TokenPair(ts.value.accessToken, ts.value.refreshToken));
  }

  /** An unknown email and a wrong password are both 400, with different messages, and write nothing. */
  lemma LoginCredentialFailures(m: Entries, now: int, c: Codec, secrets: Secrets, dbUser: Option<string>,
                                passwordOk: bool, uuid: string, af: Option<string>, rf: Option<string>)
    ensures dbUser.None? ==>
      LoginStep(m, now, c, secrets, dbUser, passwordOk, uuid, af, rf)
        == Transition(Raised(HTTPError(400, "Users not found")), m)
    ensures dbUser.Some? && !passwordOk ==>
      LoginStep(m, now, c, secrets, dbUser, passwordOk, uuid, af, rf)
        == Transition(Raised(HTTPError(400, "Invalid password")), m)
  {
  }

  /**
   * Login answers 200 exactly when the credentials are right, both tokens sign and
   * both writes succeed; it then returns exactly the two tokens minted for the
   * user's id, and the store holds both ids for that user until their expiries.
   */
  lemma LoginSuccess(m: Entries, now: int, c: Codec, secrets: Secrets, dbUser: Option<string>,
                     passwordOk: bool, uuid: string, af: Option<string>, rf: Option<string>)
    requires Fresh(m, uuid)
    ensures var tr := LoginStep(m, now, c, secrets, dbUser, passwordOk, uuid, af, rf);
      tr.out.Code() == 200 <==>
        dbUser.Some? && passwordOk && Issue(c, secrets, dbUser.value, now, uuid).Ok? && af.None? && rf.None?
    ensures var tr := LoginStep(m, now, c, secrets, dbUser, passwordOk, uuid, af, rf);
      tr.out.Code() == 200 ==>
        var td := Issue(c, secrets, dbUser.value, now, uuid).value;
        && tr.out == Sent(200, TokenPair(td.accessToken, td.refreshToken))
        && tr.entries == m[uuid := Entry(dbUser.value, now + 1800)][RefreshId(uuid, dbUser.value) := Entry(dbUser.value, now + 604800)]
        && Live(tr.entries, now, uuid) && Live(tr.entries, now, RefreshId(uuid, dbUser.value))
  {
    if dbUser.Some? && passwordOk && Issue(c, secrets, dbUser.value, now, uuid).Ok? {
      var td := Issue(c, secrets, dbUser.value, now, uuid).value;
      RefreshIdExtends(uuid, dbUser.value);
      CreateAuthWritesTwoKeys(m, now, dbUser.value, td);
    }
  }

  /**
   * A failed login returns no tokens, and it writes to the store only when the
   * refresh write failed after the access write, leaving that access entry behind.
   * Whatever happens, no entry that existed before is changed.
   */
  lemma LoginFailureLeavesSessions(m: Entries, now: int, c: Codec, secrets: Secrets, dbUser: Option<string>,
                                   passwordOk: bool, uuid: string, af: Option<string>, rf: Option<string>)
    requires Fresh(m, uuid)
    ensures var tr := LoginStep(m, now, c, secrets, dbUser, passwordOk, uuid, af, rf);
      && (forall k :: k in m ==> k in tr.entries && tr.entries[k] == m[k])
      && (tr.out.Code() != 200 ==> tr.out.Raised?)
      && (tr.out.Code() != 200 && tr.entries != m ==>
            dbUser.Some? && af.None? && rf.Some? && tr.entries == m[uuid := Entry(dbUser.value, now + 1800)])
  {
    assert uuid <= uuid;
    if dbUser.Some? && passwordOk && Issue(c, secrets, dbUser.value, now, uuid).Ok? {
      var rid := RefreshId(uuid, dbUser.value);
      assert uuid <= rid;
      assert rid !in m;
    }
  }

  // ---------------------------------------------------------------------------
  // Logout

  function LogoutStep(m: Entries, now: int, c: Codec, secrets: Secrets, header: string, fault: Option<string>): Transition
    requires AccessClaimsTyped(VerifyToken(c, secrets, now, header))
  {
    match ExtractTokenMetadata(c, secrets, now, header)
    case Err(e) => Transition(Sent(StatusUnauthorized, DecodeFailure(e)), m)
    case Ok(au) =>
      var (delErr, m') := DeleteAuthStep(m, au.accessUuid, fault);
      if delErr.Some? then Transition(Sent(StatusUnauthorized, StoreFailure(delErr.value)), m')
      else Transition(Sent(StatusOK, Text("Successfully logged out")), m')
  }

  method Logout(store: TtlStore, c: Codec, secrets: Secrets, header: string, fault: Option<string>) returns (out: Outcome)
    requires AccessClaimsTyped(VerifyToken(c, secrets, store.now, header))
    modifies store
    ensures store.now == old(store.now)
    ensures Transition(out, store.entries) == LogoutStep(old(store.entries), old(store.now), c, secrets, header, fault)
  {
    var au := ExtractTokenMetadata(c, secrets, store.now, header);
    if au.Err? {
      return Sent(StatusUnauthorized, DecodeFailure(au.error));
    }

    var delErr := DeleteAuth(store, au.value.accessUuid, fault);
    if delErr.Some? {
      return Sent(StatusUnauthorized, StoreFailure(delErr.value));
    }

    out := Sent(StatusOK, Text("Successfully logged out"));
  }

  /**
   * Logout fails with 401 and changes nothing when the token does not decode;
   * otherwise it deletes the access id and only it, so the session's refresh
   * entry stays live.
   */
  lemma LogoutDeletesOnlyAccessEntry(m: Entries, now: int, c: Codec, secrets: Secrets, header: string, fault: Option<string>)
    requires AccessClaimsTyped(VerifyToken(c, secrets, now, header))
    ensures var tr := LogoutStep(m, now, c, secrets, header, fault);
      !DecodesWith(c, secrets.access, now, ExtractToken(header)) ==> tr.out.Code() == 401 && tr.entries == m
    ensures var tr := LogoutStep(m, now, c, secrets, header, fault);
      tr.out == Sent(200, Text("Successfully logged out")) <==>
        DecodesWith(c, secrets.access, now, ExtractToken(header)) && fault.None?
    ensures var tr := LogoutStep(m, now, c, secrets, header, fault);
      DecodesWith(c, secrets.access, now, ExtractToken(header)) && fault.None? ==>
        var au := ExtractTokenMetadata(c, secrets, now, header).value;
        && tr.entries.Keys == m.Keys - {au.accessUuid}
        && (forall k :: k in tr.entries ==> tr.entries[k] == m[k])
        && (Live(m, now, RefreshId(au.accessUuid, au.userId)) ==>
              Live(tr.entries, now, RefreshId(au.accessUuid, au.userId)))
  {
    var md := ExtractTokenMetadata(c, secrets, now, header);
    if md.Ok? && fault.None? {
      RefreshIdExtends(md.value.accessUuid, md.value.userId);
    }
  }

  /** Logging out twice with the same token is safe: the second call also answers 200 and changes nothing more. */
  lemma LogoutIdempotent(m: Entries, now: int, c: Codec, secrets: Secrets, header: string)
    requires AccessClaimsTyped(VerifyToken(c, secrets, now, header))
    requires LogoutStep(m, now, c, secrets, header, None).out.Code() == 200
    ensures var once := LogoutStep(m, now, c, secrets, header, None);
      LogoutStep(once.entries, now, c, secrets, header, None) == once
  {
    var au := ExtractTokenMetadata(c, secrets, now, header).value;
    var once := LogoutStep(m, now, c, secrets, header, None);
    assert once.entries == m - {au.accessUuid};
    assert once.entries - {au.accessUuid} == once.entries;
  }

  // ---------------------------------------------------------------------------
  // Refresh

  /** The outcome of c.Bind into a map of strings. */
  datatype Bound = BindFailed(reason: string) | Bound(fields: map<string, string>)

  /** mapToken["refresh_token"], the empty string when the field is missing. */
  function RefreshTokenOf(fields: map<string, string>): string
  {
    if "refresh_token" in fields then fields["refresh_token"] else ""
  }

  /** A decoded refresh token carries string `refresh_uuid` and `user_id` claims. */
  predicate RefreshClaimsTyped(r: Result<Token, TokenError>)
  {
    r.Ok? ==> HasString(r.value.claims, "refresh_uuid") && HasString(r.value.claims, "user_id")
  }

  predicate RefreshRequestTyped(c: Codec, secrets: Secrets, now: int, body: Bound)
  {
    body.Bound? ==> RefreshClaimsTyped(DecodeRefresh(c, secrets, now, RefreshTokenOf(body.fields)))
  }

  function RefreshStep(m: Entries, now: int, c: Codec, secrets: Secrets, body: Bound, uuid: string,
                       delFault: Option<string>, accessFault: Option<string>, refreshFault: Option<string>): Transition
    requires RefreshRequestTyped(c, secrets, now, body)
  {
    match body
    case BindFailed(reason) => Transition(Raised(HTTPError(StatusBadRequest, reason)), m)
    case Bound(fields) =>
      match DecodeRefresh(c, secrets, now, RefreshTokenOf(fields))
      case Err(_) => Transition(Raised(HTTPError(StatusUnauthorized, "Refresh token expired")), m)
      case Ok(token) =>
        var refreshUuid := token.claims["refresh_uuid"].s;
        var userId := token.claims["user_id"].s;
        var (delErr, m1) := DeleteAuthStep(m, refreshUuid, delFault);
        if delErr.Some? then Transition(Raised(HTTPError(StatusUnprocessableEntity, "Failed refresh token")), m1)
        else
          match Issue(c, secrets, userId, now, uuid)
          case Err(e) => Transition(Raised(HTTPError(StatusForbidden, e)), m1)
          case Ok(ts) =>
            var (saveErr, m2) := CreateAuthStep(m1, now, userId, ts, accessFault, refreshFault);
            if saveErr.Some? then Transition(Raised(HTTPError(StatusForbidden, saveErr.value)), m2)
            else Transition(Sent(StatusCreated, TokenPair(ts.accessToken, ts.refreshToken)), m2)
  }

  method Refresh(store: TtlStore, c: Codec, secrets: Secrets, body: Bound, uuid: string,
                 delFault: Option<string>, accessFault: Option<string>, refreshFault: Option<string>) returns (out: Outcome)
    requires RefreshRequestTyped(c, secrets, store.now, body)
    requires Fresh(store.entries, uuid)
    modifies store
    ensures store.now == old(store.now)
    ensures Transition(out, store.entries)
      == RefreshStep(old(store.entries), old(store.now), c, secrets, body, uuid, delFault, accessFault, refreshFault)
  {
    if body.BindFailed? {
      return Raised(HTTPError(StatusBadRequest, body.reason));
    }
    var refreshToken := RefreshTokenOf(body.fields);
    var token := DecodeRefresh(c, secrets, store.now, refreshToken);
    if token.Err? {
      return Raised(HTTPError(StatusUnauthorized, "Refresh token expired"));
    }

    var refreshUuid := token.value.claims["refresh_uuid"].s;
    var userId := token.value.claims["user_id"].s;

    var delErr := DeleteAuth(store, refreshUuid, delFault);
    if delErr.Some? {
      return Raised(HTTPError(StatusUnprocessableEntity, "Failed refresh token"));
    }

    var ts := CreateToken(c, secrets, userId, store.now, uuid);
    if ts.Err? {
      return Raised(HTTPError(StatusForbidden, ts.error));
    }

    var saveErr := CreateAuth(store, userId, ts.value, accessFault, refreshFault);
    if saveErr.Some? {
      return Raised(HTTPError(StatusForbidden, saveErr.value));
    }

    out := Sent(StatusCreated, TokenPair(ts.value.accessToken, ts.value.refreshToken));
  }

  /** The refresh id and user id a successful decode at the refresh endpoint yields. */
  function PresentedRefreshUuid(c: Codec, secrets: Secrets, now: int, fields: map<string, string>): string
    requires RefreshClaimsTyped(DecodeRefresh(c, secrets, now, RefreshTokenOf(fields)))
    requires DecodeRefresh(c, secrets, now, RefreshTokenOf(fields)).Ok?
  {
    DecodeRefresh(c, secrets, now, RefreshTokenOf(fields)).value.claims["refresh_uuid"].s
  }

  function PresentedUserId(c: Codec, secrets: Secrets, now: int, fields: map<string, string>): string
    requires RefreshClaimsTyped(DecodeRefresh(c, secrets, now, RefreshTokenOf(fields)))
    requires DecodeRefresh(c, secrets, now, RefreshTokenOf(fields)).Ok?
  {
    DecodeRefresh(c, secrets, now, RefreshTokenOf(fields)).value.claims["user_id"].s
  }

  /** A refresh token that does not decode gets 401 and the store is untouched; a failed delete gets 422, with no new tokens and nothing changed. */
  lemma RefreshRejections(m: Entries, now: int, c: Codec, secrets: Secrets, fields: map<string, string>, uuid: string,
                          delFault: Option<string>, af: Option<string>, rf: Option<string>)
    requires RefreshRequestTyped(c, secrets, now, Bound(fields))
    ensures !DecodesWith(c, secrets.refresh, now, RefreshTokenOf(fields)) ==>
      RefreshStep(m, now, c, secrets, Bound(fields), uuid, delFault, af, rf)
        == Transition(Raised(HTTPError(401, "Refresh token expired")), m)
    ensures DecodesWith(c, secrets.refresh, now, RefreshTokenOf(fields)) && delFault.Some? ==>
      RefreshStep(m, now, c, secrets, Bound(fields), uuid, delFault, af, rf)
        == Transition(Raised(HTTPError(422, "Failed refresh token")), m)
  {
  }

  /**
   * A successful refresh answers 201 with exactly the new pair minted for the
   * token's user. The presented refresh id is gone (deleted before minting, and a
   * fresh id never recreates it), the new pair's two ids are stored for that user,
   * and every other entry, the session's old access entry included, is unchanged.
   */
  lemma RefreshRotates(m: Entries, now: int, c: Codec, secrets: Secrets, fields: map<string, string>, uuid: string)
    requires RefreshRequestTyped(c, secrets, now, Bound(fields))
    requires Fresh(m, uuid)
    requires RefreshStep(m, now, c, secrets, Bound(fields), uuid, None, None, None).out.Code() == 201
    ensures DecodesWith(c, secrets.refresh, now, RefreshTokenOf(fields))
    ensures var presented := PresentedRefreshUuid(c, secrets, now, fields);
      var userId := PresentedUserId(c, secrets, now, fields);
      var td := Issue(c, secrets, userId, now, uuid).value;
      var tr := RefreshStep(m, now, c, secrets, Bound(fields), uuid, None, None, None);
      && tr.out == Sent(201, TokenPair(td.accessToken, td.refreshToken))
      && tr.entries == (m - {presented})[uuid := Entry(userId, now + 1800)][RefreshId(uuid, userId) := Entry(userId, now + 604800)]
      && (!(uuid <= presented) ==> presented !in tr.entries)
      && (forall k :: k in m && k != presented ==> k in tr.entries && tr.entries[k] == m[k])
  {
    var presented := PresentedRefreshUuid(c, secrets, now, fields);
    var userId := PresentedUserId(c, secrets, now, fields);
    var td := Issue(c, secrets, userId, now, uuid).value;
    RefreshIdExtends(uuid, userId);
    var m1 := m - {presented};
    CreateAuthWritesTwoKeys(m1, now, userId, td);
    forall k | k in m && k != presented
      ensures k != uuid && k != RefreshId(uuid, userId)
    {
      assert uuid <= uuid;
      assert uuid <= RefreshId(uuid, userId);
    }
    if !(uuid <= presented) {
      assert presented != uuid && presented != RefreshId(uuid, userId);
    }
  }

  /** Refresh answers 201 exactly when the token decodes, a new pair signs for its user and the delete and both writes succeed. */
  lemma RefreshSuccessIff(m: Entries, now: int, c: Codec, secrets: Secrets, fields: map<string, string>, uuid: string,
                          delFault: Option<string>, af: Option<string>, rf: Option<string>)
    requires RefreshRequestTyped(c, secrets, now, Bound(fields))
    ensures RefreshStep(m, now, c, secrets, Bound(fields), uuid, delFault, af, rf).out.Code() == 201 <==>
      && DecodesWith(c, secrets.refresh, now, RefreshTokenOf(fields))
      && Issue(c, secrets, PresentedUserId(c, secrets, now, fields), now, uuid).Ok?
      && delFault.None? && af.None? && rf.None?
  {
  }

  /**
   * Refresh never reads the store: its answer is the same whatever the store
   * holds, so a refresh id that was already rotated away or never stored is
   * accepted as long as the token itself decodes.
   */
  lemma RefreshAnswerIgnoresStore(m1: Entries, m2: Entries, now: int, c: Codec, secrets: Secrets, body: Bound, uuid: string,
                                  delFault: Option<string>, af: Option<string>, rf: Option<string>)
    requires RefreshRequestTyped(c, secrets, now, body)
    ensures RefreshStep(m1, now, c, secrets, body, uuid, delFault, af, rf).out
         == RefreshStep(m2, now, c, secrets, body, uuid, delFault, af, rf).out
  {
  }

  /** A refresh token from Issue, sent in the request body before its expiry, decodes to its session's ids. */
  lemma IssuedRefreshTokenPresented(c: Codec, secrets: Secrets, userId: string, issuedAt: int, uuid: string, t: int)
    requires Lawful(c)
    requires Issue(c, secrets, userId, issuedAt, uuid).Ok?
    requires t < Issue(c, secrets, userId, issuedAt, uuid).value.rtExpires
    ensures var fields := map["refresh_token" := Issue(c, secrets, userId, issuedAt, uuid).value.refreshToken];
      && RefreshRequestTyped(c, secrets, t, Bound(fields))
      && DecodesWith(c, secrets.refresh, t, RefreshTokenOf(fields))
      && PresentedRefreshUuid(c, secrets, t, fields) == RefreshId(uuid, userId)
      && PresentedUserId(c, secrets, t, fields) == userId
  {
    var fields := map["refresh_token" := Issue(c, secrets, userId, issuedAt, uuid).value.refreshToken];
    assert RefreshTokenOf(fields) == Issue(c, secrets, userId, issuedAt, uuid).value.refreshToken;
    IssuedRefreshTokenDecodes(c, secrets, userId, issuedAt, uuid, t);
  }

  /** Minting or saving after the delete fails with 403; the presented refresh entry is already gone by then. */
  lemma RefreshLateFailures(m: Entries, now: int, c: Codec, secrets: Secrets, fields: map<string, string>, uuid: string,
                            af: Option<string>, rf: Option<string>)
    requires RefreshRequestTyped(c, secrets, now, Bound(fields))
    requires DecodesWith(c, secrets.refresh, now, RefreshTokenOf(fields))
    ensures var presented := PresentedRefreshUuid(c, secrets, now, fields);
      var userId := PresentedUserId(c, secrets, now, fields);
      var tr := RefreshStep(m, now, c, secrets, Bound(fields), uuid, None, af, rf);
      && (Issue(c, secrets, userId, now, uuid).Err? ==>
            tr == Transition(Raised(HTTPError(403, Issue(c, secrets, userId, now, uuid).error)), m - {presented}))
      && (Issue(c, secrets, userId, now, uuid).Ok? && (af.Some? || rf.Some?) ==>
            tr.out.Raised? && tr.out.Code() == 403 && presented !in tr.entries - {uuid})
  {
  }

  /** With distinct secrets, a freshly issued access token presented as a refresh token is refused and the store is untouched. */
  lemma RefreshRefusesAccessToken(m: Entries, now: int, c: Codec, secrets: Secrets, userId: string, issuedAt: int,
                                  issuedId: string, uuid: string, delFault: Option<string>, af: Option<string>, rf: Option<string>)
    requires Lawful(c)
    requires secrets.access != secrets.refresh
    requires Issue(c, secrets, userId, issuedAt, issuedId).Ok?
    ensures var fields := map["refresh_token" := Issue(c, secrets, userId, issuedAt, issuedId).value.accessToken];
      && RefreshRequestTyped(c, secrets, now, Bound(fields))
      && RefreshStep(m, now, c, secrets, Bound(fields), uuid, delFault, af, rf)
           == Transition(Raised(HTTPError(401, "Refresh token expired")), m)
  {
    IssuedTokensAreNotInterchangeable(c, secrets, userId, issuedAt, issuedId, now);
  }
}
