/**
 * The parts of the golang-jwt library that the token packages depend on,
 * kept abstract: signing methods, the registered claims record, and the
 * signer and parser as function values. Time is counted in whole seconds.
 */
module JwtLib {
  import opened Wrappers

  /** One hour, in seconds. */
  const Hour: int := 3600

  /** The concrete type behind a `jwt.SigningMethod`: the HMAC family or anything else. */
  datatype SigningMethod = Hmac(alg: string) | NonHmac(alg: string)

  /** `jwt.SigningMethodHS256`. */
  const HS256: SigningMethod := Hmac("HS256")

  /**
   * `jwt.RegisteredClaims` (section 4.1 of RFC 7519). A nil `*NumericDate`
   * is None; an absent audience is the empty list.
   */
  datatype RegisteredClaims = RegisteredClaims(
    issuer: string,
    subject: string,
    audience: seq<string>,
    expiresAt: Option<int>,
    notBefore: Option<int>,
    issuedAt: Option<int>,
    id: string)

  /** `&jwt.RegisteredClaims{}`: every field at its zero value. */
  const EmptyRegistered: RegisteredClaims :=
    RegisteredClaims("", "", [], None, None, None, "")

  /** The errors the token packages return, with the library's own errors kept opaque. */
  datatype Error =
    | InvalidAuthorizationHeader
    | UnsupportedToken(scheme: string)
    | EmptyToken
    | ValidateKeyNotSet
    | UnsupportedSigningMethod(signingMethod: SigningMethod)
    | SignKeyNotSet
    | Library(message: string)

  /** `jwt.NewWithClaims(method, claims).SignedString(key)`: a token, or the library's error. */
  type Signer<-P> = (SigningMethod, P, string) -> Result<string, Error>

  /** The `jwt.Keyfunc` callback: the verification key for a token's signing method. */
  type KeyFunc = SigningMethod -> Result<string, Error>

  /** `jwt.Parse` / `jwt.ParseWithClaims`: parse and verify a token string with a key callback. */
  type Parser<T> = (string, KeyFunc) -> Result<T, Error>

  /** Set IssuedAt and ExpiresAt, as the assignments `c.IssuedAt = …; c.ExpiresAt = …` do. */
  function Stamp(r: RegisteredClaims, issuedAt: int, expiresAt: int): RegisteredClaims
  {
    r.(issuedAt := Some(issuedAt), expiresAt := Some(expiresAt))
  }
}
