/**
 * Token issuance and decoding (auth/token.go): minting an access/refresh pair,
 * taking the bearer token out of the Authorization header, and decoding it with
 * the HMAC-only key function.
 */
module Tokens {
  import opened Wrappers
  import opened Jwt

  datatype TokenDetails = TokenDetails(
    accessToken: string,
    refreshToken: string,
    tokenUuid: string,
    refreshUuid: string,
    atExpires: int,
    rtExpires: int)

  datatype AccessDetails = AccessDetails(accessUuid: string, userId: string)

  /** The two signing secrets, ACCESS_SECRET and REFRESH_SECRET. */
  datatype Secrets = Secrets(access: string, refresh: string)

  /** Thirty minutes and seven days, in seconds. */
  const AccessLifetime: int := 30 * 60
  const RefreshLifetime: int := 24 * 7 * 60 * 60

  /** The refresh id of a session: its access id and its user id joined by "++". */
  function RefreshId(tokenUuid: string, userId: string): string
  {
    tokenUuid + "++" + userId
  }

  function AccessClaims(accessUuid: string, userId: string, exp: int): Claims
  {
    map["access_uuid" := Str(accessUuid), "user_id" := Str(userId), "exp" := Num(exp)]
  }

  function RefreshClaims(refreshUuid: string, userId: string, exp: int): Claims
  {
    map["refresh_uuid" := Str(refreshUuid), "user_id" := Str(userId), "exp" := Num(exp)]
  }

  /** The pair CreateToken mints for `userId` at time `now` with fresh id `uuid`. */
  function Issue(c: Codec, secrets: Secrets, userId: string, now: int, uuid: string): Result<TokenDetails, string>
  {
    var atExpires := now + AccessLifetime;
    match c.sign(Token(HS256, secrets.access, AccessClaims(uuid, userId, atExpires)))
    case Err(e) => Err(e)
    case Ok(accessToken) =>
      var rtExpires := now + RefreshLifetime;
      var refreshUuid := RefreshId(uuid, userId);
      match c.sign(Token(HS256, secrets.refresh, RefreshClaims(refreshUuid, userId, rtExpires)))
      case Err(e) => Err(e)
      case Ok(refreshToken) => Ok(TokenDetails(accessToken, refreshToken, uuid, refreshUuid, atExpires, rtExpires))
  }

  /**
   * Mints the pair field by field. The access token carries exactly
   * {access_uuid, user_id, exp} and is signed with the access secret; the refresh
   * token carries exactly {refresh_uuid, user_id, exp} and is signed with the
   * refresh secret; either signing failure yields no details at all.
   */
  method CreateToken(c: Codec, secrets: Secrets, userId: string, now: int, uuid: string)
    returns (r: Result<TokenDetails, string>)
    ensures r == Issue(c, secrets, userId, now, uuid)
    ensures r.Ok? ==>
      && r.value.tokenUuid == uuid
      && r.value.refreshUuid == uuid + "++" + userId
      && r.value.atExpires == now + 1800
      && r.value.rtExpires == now + 604800
    ensures r.Ok? ==>
      c.sign(Token(HS256, secrets.access,
             map["access_uuid" := Str(uuid), "user_id" := Str(userId), "exp" := Num(now + 1800)]))
        == Ok(r.value.accessToken)
    ensures r.Ok? ==>
      c.sign(Token(HS256, secrets.refresh,
             map["refresh_uuid" := Str(uuid + "++" + userId), "user_id" := Str(userId), "exp" := Num(now + 604800)]))
        == Ok(r.value.refreshToken)
    ensures r.Err? <==>
      || c.sign(Token(HS256, secrets.access, AccessClaims(uuid, userId, now + 1800))).Err?
      || c.sign(Token(HS256, secrets.refresh, RefreshClaims(uuid + "++" + userId, userId, now + 604800))).Err?
  {
    var atExpires := now + AccessLifetime;
    var tokenUuid := uuid;

    var atClaims: Claims := map[];
    atClaims := atClaims["access_uuid" := Str(tokenUuid)];
    atClaims := atClaims["user_id" := Str(userId)];
    atClaims := atClaims["exp" := Num(atExpires)];
    var at := c.sign(Token(HS256, secrets.access, atClaims));
    if at.Err? {
      return Err(at.error);
    }

    var rtExpires := now + RefreshLifetime;
    var refreshUuid := tokenUuid + "++" + userId;

    var rtClaims: Claims := map[];
    rtClaims := rtClaims["refresh_uuid" := Str(refreshUuid)];
    rtClaims := rtClaims["user_id" := Str(userId)];
    rtClaims := rtClaims["exp" := Num(rtExpires)];
    var rt := c.sign(Token(HS256, secrets.refresh, rtClaims));
    if rt.Err? {
      return Err(rt.error);
    }
    r := Ok(TokenDetails(at.value, rt.value, tokenUuid, refreshUuid, atExpires, rtExpires));
  }

  // ---------------------------------------------------------------------------
  // The Authorization header

  /** strings.Split on one separator character: the fields between separators, at least one. */
  function Split(s: string, sep: char): (r: seq<string>)
    ensures |r| == multiset(s)[sep] + 1
    ensures forall i :: 0 <= i < |r| ==> sep !in r[i]
  {
    if s == [] then [[]]
    else
      assert s == [s[0]] + s[1..];
      var rest := Split(s[1..], sep);
      if s[0] == sep then [[]] + rest
      else [[s[0]] + rest[0]] + rest[1..]
  }

  /** strings.Join, the inverse of Split. */
  function Join(parts: seq<string>, sep: char): string
    requires |parts| > 0
  {
    if |parts| == 1 then parts[0] else parts[0] + [sep] + Join(parts[1..], sep)
  }

  /** Prepending a character to the first field prepends it to the joined string. */
  lemma JoinConsHead(ch: char, parts: seq<string>, sep: char)
    requires |parts| > 0
    ensures Join([[ch] + parts[0]] + parts[1..], sep) == [ch] + Join(parts, sep)
  {
    var r := [[ch] + parts[0]] + parts[1..];
    assert r[0] == [ch] + parts[0];
    if |parts| > 1 {
      assert r[1..] == parts[1..];
    }
  }

  lemma {:induction false} SplitJoin(s: string, sep: char)
    ensures Join(Split(s, sep), sep) == s
  {
    if s != [] {
      var rest := Split(s[1..], sep);
      SplitJoin(s[1..], sep);
      assert [s[0]] + s[1..] == s;
      if s[0] == sep {
        assert Split(s, sep) == [[]] + rest;
        assert ([[]] + rest)[1..] == rest;
      } else {
        assert Split(s, sep) == [[s[0]] + rest[0]] + rest[1..];
        JoinConsHead(s[0], rest, sep);
      }
    }
  }

  lemma {:induction false} SplitWithoutSeparator(s: string, sep: char)
    requires sep !in s
    ensures Split(s, sep) == [s]
  {
    if s != [] {
      SplitWithoutSeparator(s[1..], sep);
      assert [s[0]] + s[1..] == s;
    }
  }

  lemma {:induction false} SplitTwoFields(a: string, b: string, sep: char)
    requires sep !in a && sep !in b
    ensures Split(a + [sep] + b, sep) == [a, b]
  {
    var s := a + [sep] + b;
    if a == [] {
      assert s[1..] == b;
      SplitWithoutSeparator(b, sep);
    } else {
      assert s[1..] == a[1..] + [sep] + b;
      SplitTwoFields(a[1..], b, sep);
      assert [a[0]] + a[1..] == a;
    }
  }

  /** The header value with a single space between the scheme word and the token. */
  function Bearer(token: string): string
  {
    "Bearer " + token
  }

  /**
   * The second field when the header splits on " " into exactly two fields, and ""
   * otherwise. The scheme word itself is not looked at.
   */
  function ExtractToken(header: string): (r: string)
    ensures multiset(header)[' '] != 1 ==> r == ""
    ensures multiset(header)[' '] == 1 ==>
      exists scheme :: header == scheme + " " + r && ' ' !in scheme && ' ' !in r
  {
    var parts := Split(header, ' ');
    if |parts| == 2 then
      SplitJoin(header, ' ');
      assert header == parts[0] + " " + parts[1];
      parts[1]
    else ""
  }

  /** Any scheme word without a space is accepted, not only "Bearer". */
  lemma ExtractTokenTwoFields(scheme: string, token: string)
    requires ' ' !in scheme && ' ' !in token
    ensures ExtractToken(scheme + " " + token) == token
  {
    SplitTwoFields(scheme, token, ' ');
  }

  lemma ExtractBearer(token: string)
    requires ' ' !in token
    ensures ExtractToken(Bearer(token)) == token
  {
    ExtractTokenTwoFields("Bearer", token);
    assert Bearer(token) == "Bearer" + " " + token;
  }

  // ---------------------------------------------------------------------------
  // Decoding

  /** The key function of VerifyToken and Refresh: an HMAC header gets the secret, anything else is refused. */
  function HmacKey(secret: string, t: Token): (r: Result<string, string>)
    ensures r.Ok? <==> IsHmac(t.alg)
    ensures r.Ok? ==> r.value == secret
  {
    if IsHmac(t.alg) then Ok(secret)
    else Err("unexpected signing method: " + AlgName(t.alg))
  }

  /** A token decodes under `secret` iff it parses, its header is HMAC, it was signed with `secret` and has not expired. */
  predicate DecodesWith(c: Codec, secret: string, now: int, s: string)
  {
    && c.parse(s).Some?
    && IsHmac(c.parse(s).value.alg)
    && c.parse(s).value.key == secret
    && !ExpiredAt(c, c.parse(s).value.claims, now)
  }

  function VerifyToken(c: Codec, secrets: Secrets, now: int, header: string): (r: Result<Token, TokenError>)
    ensures r.Ok? <==> DecodesWith(c, secrets.access, now, ExtractToken(header))
    ensures r.Ok? ==> r.value == c.parse(ExtractToken(header)).value
    ensures c.parse(ExtractToken(header)).Some? && !IsHmac(c.parse(ExtractToken(header)).value.alg) ==>
      r.Err? && r.error.Unverifiable?
  {
    Parse(c, ExtractToken(header), now, t => HmacKey(secrets.access, t))
  }

  /** The refresh endpoint's decoding: the same guard, the refresh secret. */
  function DecodeRefresh(c: Codec, secrets: Secrets, now: int, s: string): (r: Result<Token, TokenError>)
    ensures r.Ok? <==> DecodesWith(c, secrets.refresh, now, s)
    ensures r.Ok? ==> r.value == c.parse(s).value
  {
    Parse(c, s, now, t => HmacKey(secrets.refresh, t))
  }

  /** nil exactly when VerifyToken succeeds, and otherwise VerifyToken's error. */
  function TokenValid(c: Codec, secrets: Secrets, now: int, header: string): (r: Option<TokenError>)
    ensures r.None? <==> DecodesWith(c, secrets.access, now, ExtractToken(header))
    ensures r.Some? ==> VerifyToken(c, secrets, now, header) == Err(r.value)
  {
    match VerifyToken(c, secrets, now, header)
    case Err(e) => Some(e)
    case Ok(_) => None
  }

  predicate HasString(claims: Claims, name: string)
  {
    name in claims && claims[name].Str?
  }

  /** A decoded access token carries string `access_uuid` and `user_id` claims (the source's unchecked type assertions). */
  predicate AccessClaimsTyped(r: Result<Token, TokenError>)
  {
    r.Ok? ==> HasString(r.value.claims, "access_uuid") && HasString(r.value.claims, "user_id")
  }

  function ExtractTokenMetadata(c: Codec, secrets: Secrets, now: int, header: string): (r: Result<AccessDetails, TokenError>)
    requires AccessClaimsTyped(VerifyToken(c, secrets, now, header))
    ensures r.Ok? <==> DecodesWith(c, secrets.access, now, ExtractToken(header))
    ensures r.Ok? ==>
      var claims := c.parse(ExtractToken(header)).value.claims;
      r.value == AccessDetails(claims["access_uuid"].s, claims["user_id"].s)
    ensures r.Err? ==> VerifyToken(c, secrets, now, header) == Err(r.error)
  {
    match VerifyToken(c, secrets, now, header)
    case Err(e) => Err(e)
    case Ok(token) => Ok(AccessDetails(token.claims["access_uuid"].s, token.claims["user_id"].s))
  }

  // ---------------------------------------------------------------------------
  // Properties of issued pairs

  /** The prefix of a refresh id before its first '+'. */
  function AccessIdOf(refreshUuid: string): string
  {
    if refreshUuid == [] || refreshUuid[0] == '+' then []
    else [refreshUuid[0]] + AccessIdOf(refreshUuid[1..])
  }

  /** What comes after the first "++" of a refresh id. */
  function UserIdOf(refreshUuid: string): string
  {
    var n := |AccessIdOf(refreshUuid)|;
    if n + 2 <= |refreshUuid| then refreshUuid[n + 2..] else []
  }

  lemma {:induction false} AccessIdOfPrefix(id: string, rest: string)
    requires '+' !in id && |rest| > 0 && rest[0] == '+'
    ensures AccessIdOf(id + rest) == id
  {
    if id != [] {
      assert (id + rest)[1..] == id[1..] + rest;
      AccessIdOfPrefix(id[1..], rest);
      assert [id[0]] + id[1..] == id;
    } else {
      assert id + rest == rest;
    }
  }

  /** The refresh id has the access id as a strict prefix, so the two are never equal. */
  lemma RefreshIdExtends(id: string, userId: string)
    ensures id < RefreshId(id, userId) && RefreshId(id, userId) != id
  {
    assert RefreshId(id, userId) == id + ("++" + userId);
  }

  /**
   * The refresh id has the access id as a strict prefix, differs from every
   * '+'-free id, and both parts can be recovered from it, even when the user id
   * itself contains "++".
   */
  lemma RefreshIdDerived(id: string, userId: string)
    requires '+' !in id
    ensures id < RefreshId(id, userId) && RefreshId(id, userId) != id
    ensures forall other: string :: '+' !in other ==> RefreshId(id, userId) != other
    ensures AccessIdOf(RefreshId(id, userId)) == id
    ensures UserIdOf(RefreshId(id, userId)) == userId
  {
    var rid := RefreshId(id, userId);
    assert rid == id + ("++" + userId);
    AccessIdOfPrefix(id, "++" + userId);
    assert rid[|id|] == '+';
    assert rid[|id| + 2..] == userId;
  }

  /** Two sessions share a refresh id only if they share the access id and the user. */
  lemma RefreshIdInjective(id1: string, u1: string, id2: string, u2: string)
    requires '+' !in id1 && '+' !in id2
    requires RefreshId(id1, u1) == RefreshId(id2, u2)
    ensures id1 == id2 && u1 == u2
  {
    RefreshIdDerived(id1, u1);
    RefreshIdDerived(id2, u2);
  }

  /** The refresh token's `exp` is 604800 - 1800 seconds after the access token's. */
  lemma IssuedExpiries(c: Codec, secrets: Secrets, userId: string, now: int, uuid: string)
    requires Issue(c, secrets, userId, now, uuid).Ok?
    ensures var td := Issue(c, secrets, userId, now, uuid).value;
      td.atExpires == now + 1800 && td.rtExpires == now + 604800 && td.atExpires < td.rtExpires
  {
  }

  /**
   * Round trip: the access token just minted, sent as a bearer token before its
   * expiry, verifies and yields the session's access id and user id.
   */
  lemma IssuedAccessTokenVerifies(c: Codec, secrets: Secrets, userId: string, now: int, uuid: string, t: int)
    requires Lawful(c)
    requires Issue(c, secrets, userId, now, uuid).Ok?
    requires t < Issue(c, secrets, userId, now, uuid).value.atExpires
    ensures var header := Bearer(Issue(c, secrets, userId, now, uuid).value.accessToken);
      && VerifyToken(c, secrets, t, header).Ok?
      && AccessClaimsTyped(VerifyToken(c, secrets, t, header))
      && ExtractTokenMetadata(c, secrets, t, header) == Ok(AccessDetails(uuid, userId))
  {
    var td := Issue(c, secrets, userId, now, uuid).value;
    var tok := Token(HS256, secrets.access, AccessClaims(uuid, userId, td.atExpires));
    assert c.sign(tok) == Ok(td.accessToken);
    ExtractBearer(td.accessToken);
    assert c.parse(td.accessToken) == Some(tok);
  }

  /** Past its expiry the access token no longer verifies. */
  lemma IssuedAccessTokenExpires(c: Codec, secrets: Secrets, userId: string, now: int, uuid: string, t: int)
    requires Lawful(c)
    requires Issue(c, secrets, userId, now, uuid).Ok?
    requires Issue(c, secrets, userId, now, uuid).value.atExpires != 0
    requires Issue(c, secrets, userId, now, uuid).value.atExpires < t
    ensures VerifyToken(c, secrets, t, Bearer(Issue(c, secrets, userId, now, uuid).value.accessToken))
      == Err(Invalid(true, false))
  {
    var td := Issue(c, secrets, userId, now, uuid).value;
    var tok := Token(HS256, secrets.access, AccessClaims(uuid, userId, td.atExpires));
    assert c.sign(tok) == Ok(td.accessToken);
    ExtractBearer(td.accessToken);
    assert c.parse(td.accessToken) == Some(tok);
    assert ExpiredAt(c, tok.claims, t);
    assert Parse(c, td.accessToken, t, k => HmacKey(secrets.access, k)) == Err(Invalid(true, false));
  }

  /** The refresh token just minted decodes at the refresh endpoint before its own expiry. */
  lemma IssuedRefreshTokenDecodes(c: Codec, secrets: Secrets, userId: string, now: int, uuid: string, t: int)
    requires Lawful(c)
    requires Issue(c, secrets, userId, now, uuid).Ok?
    requires t < Issue(c, secrets, userId, now, uuid).value.rtExpires
    ensures var r := DecodeRefresh(c, secrets, t, Issue(c, secrets, userId, now, uuid).value.refreshToken);
      && r.Ok?
      && r.value.claims == RefreshClaims(RefreshId(uuid, userId), userId, now + RefreshLifetime)
  {
    var td := Issue(c, secrets, userId, now, uuid).value;
    var tok := Token(HS256, secrets.refresh, RefreshClaims(td.refreshUuid, userId, td.rtExpires));
    assert c.sign(tok) == Ok(td.refreshToken);
  }

  /** Whenever the access token still verifies, so does its refresh token: the refresh token outlives it. */
  lemma RefreshOutlivesAccess(c: Codec, secrets: Secrets, userId: string, now: int, uuid: string, t: int)
    requires Lawful(c)
    requires Issue(c, secrets, userId, now, uuid).Ok?
    requires Issue(c, secrets, userId, now, uuid).value.atExpires != 0
    requires VerifyToken(c, secrets, t, Bearer(Issue(c, secrets, userId, now, uuid).value.accessToken)).Ok?
    ensures DecodeRefresh(c, secrets, t, Issue(c, secrets, userId, now, uuid).value.refreshToken).Ok?
  {
    var td := Issue(c, secrets, userId, now, uuid).value;
    var tok := Token(HS256, secrets.access, AccessClaims(uuid, userId, td.atExpires));
    assert c.sign(tok) == Ok(td.accessToken);
    ExtractBearer(td.accessToken);
    assert !c.expired(td.atExpires, t);
    assert t <= td.atExpires;
    IssuedRefreshTokenDecodes(c, secrets, userId, now, uuid, t);
  }

  /**
   * With distinct secrets neither token of a pair is accepted in the other's place:
   * the refresh token is not an access token and the access token does not refresh.
   */
  lemma IssuedTokensAreNotInterchangeable(c: Codec, secrets: Secrets, userId: string, now: int, uuid: string, t: int)
    requires Lawful(c)
    requires secrets.access != secrets.refresh
    requires Issue(c, secrets, userId, now, uuid).Ok?
    ensures VerifyToken(c, secrets, t, Bearer(Issue(c, secrets, userId, now, uuid).value.refreshToken)).Err?
    ensures DecodeRefresh(c, secrets, t, Issue(c, secrets, userId, now, uuid).value.accessToken).Err?
  {
    var td := Issue(c, secrets, userId, now, uuid).value;
    var at := Token(HS256, secrets.access, AccessClaims(uuid, userId, td.atExpires));
    var rt := Token(HS256, secrets.refresh, RefreshClaims(td.refreshUuid, userId, td.rtExpires));
    assert c.sign(at) == Ok(td.accessToken);
    assert c.sign(rt) == Ok(td.refreshToken);
    ExtractBearer(td.refreshToken);
  }
}
