/**
 * An abstract model of the JWT library (RFC 7519) the token code calls.
 * HMAC signing and the byte-level serialisation are opaque: a codec signs a
 * decoded token into a compact string and parses strings back. A decoded token
 * records its header's `alg`, the key its signature was made with, and its claims.
 */
module Jwt {
  import opened Wrappers

  /** The signing methods the library registers; `Unsecured` is alg "none". */
  datatype Alg =
    | HS256 | HS384 | HS512
    | RS256 | RS384 | RS512
    | ES256 | ES384 | ES512
    | PS256 | PS384 | PS512
    | Unsecured

  /** The HMAC family (section 3.2 of RFC 7518). */
  predicate IsHmac(a: Alg)
  {
    a == HS256 || a == HS384 || a == HS512
  }

  /** The name the header carries for each method. */
  function AlgName(a: Alg): string
  {
    match a
    case HS256 => "HS256" case HS384 => "HS384" case HS512 => "HS512"
    case RS256 => "RS256" case RS384 => "RS384" case RS512 => "RS512"
    case ES256 => "ES256" case ES384 => "ES384" case ES512 => "ES512"
    case PS256 => "PS256" case PS384 => "PS384" case PS512 => "PS512"
    case Unsecured => "none"
  }

  /** A claim value of a map-shaped claim set. */
  datatype Claim = Str(s: string) | Num(n: int)

  type Claims = map<string, Claim>

  datatype Token = Token(alg: Alg, key: string, claims: Claims)

  /**
   * The opaque parts of the library: `sign` produces the compact form of a token
   * or the signing error's text, `parse` recovers a token from a string (None when
   * the string is malformed), and `expired(exp, now)` is the library's `exp`
   * comparison (section 4.1.4 of RFC 7519).
   */
  datatype Codec = Codec(
    sign: Token -> Result<string, string>,
    parse: string -> Option<Token>,
    expired: (int, int) -> bool)

  /**
   * What the model assumes of a real codec: parsing undoes signing, a compact
   * token never contains a space, the empty string is malformed, an `exp` in the
   * future has not expired and a nonzero one in the past has. Whether `exp == now`
   * has expired is left open, and so is an `exp` of zero, which the library reads
   * as unset.
   */
  ghost predicate Lawful(c: Codec)
  {
    && (forall t :: c.sign(t).Ok? ==> c.parse(c.sign(t).value) == Some(t) && ' ' !in c.sign(t).value)
    && c.parse("").None?
    && (forall e, now :: now < e ==> !c.expired(e, now))
    && (forall e, now :: e != 0 && e < now ==> c.expired(e, now))
  }

  /** Why a string was not accepted as a token. */
  datatype TokenError =
    | Malformed
    | Unverifiable(reason: string)
    | Invalid(expired: bool, badSignature: bool)

  /** The `exp` check of a map claim set: a missing or non-numeric `exp` never expires. */
  predicate ExpiredAt(c: Codec, claims: Claims, now: int)
  {
    "exp" in claims && claims["exp"].Num? && c.expired(claims["exp"].n, now)
  }

  /** An HMAC signature verifies under `key` exactly when it was made with `key`; nothing else verifies under a shared secret. */
  predicate SignatureMatches(t: Token, key: string)
  {
    IsHmac(t.alg) && t.key == key
  }

  /**
   * Parsing with a key function: the string must parse, the key function must
   * yield a key for the parsed header, and then both the claims and the signature
   * are checked and their failures reported together.
   */
  function Parse(c: Codec, s: string, now: int, keyFunc: Token -> Result<string, string>): (r: Result<Token, TokenError>)
    ensures r.Ok? <==>
      && c.parse(s).Some?
      && keyFunc(c.parse(s).value).Ok?
      && !ExpiredAt(c, c.parse(s).value.claims, now)
      && SignatureMatches(c.parse(s).value, keyFunc(c.parse(s).value).value)
    ensures r.Ok? ==> r.value == c.parse(s).value
    ensures c.parse(s).None? ==> r == Err(Malformed)
  {
    match c.parse(s)
    case None => Err(Malformed)
    case Some(t) =>
      match keyFunc(t)
      case Err(reason) => Err(Unverifiable(reason))
      case Ok(key) =>
        var expired := ExpiredAt(c, t.claims, now);
        var badSignature := !SignatureMatches(t, key);
        if expired || badSignature then Err(Invalid(expired, badSignature)) else Ok(t)
  }
}
