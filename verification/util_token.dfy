/**
 * Package `util`, util/token.go: the same header guard as package `token`,
 * a key callback that uses the key captured when the package was
 * initialised, and `GenerateTokens`, which signs two expiry-only claim sets.
 */
module UtilToken {
  import opened Wrappers
  import opened OsEnv
  import opened JwtLib
  import opened BearerHeader

  const ValidateKeyVar: string := "JWT_VALIDATE_KEY"
  const SignKeyVar: string := "JWT_SIGN_KEY"

  /**
   * The key callback: HMAC tokens are verified with the captured key, even
   * an empty one; any other signing method is refused.
   */
  function CapturedKey(signingMethod: SigningMethod, jwtValidateKey: string): (key: Result<string, Error>)
    ensures key.Ok? <==> signingMethod.Hmac?
    ensures key.Ok? ==> key.value == jwtValidateKey
    ensures key.Err? ==> key.error == UnsupportedSigningMethod(signingMethod)
  {
    match signingMethod
    case Hmac(_) => Ok(jwtValidateKey)
    case _ => Err(UnsupportedSigningMethod(signingMethod))
  }

  /** The callback handed to the parser, closed over the captured key. */
  function KeyCallback(jwtValidateKey: string): (keyFunc: KeyFunc)
    ensures forall m :: keyFunc(m) == CapturedKey(m, jwtValidateKey)
  {
    m => CapturedKey(m, jwtValidateKey)
  }

  /** Claims that carry only an expiry time, as `GenerateTokens` signs them. */
  function ExpiryOnly(expiresAt: int): (c: RegisteredClaims)
    ensures c.expiresAt == Some(expiresAt)
    ensures c == EmptyRegistered.(expiresAt := c.expiresAt)
  {
    EmptyRegistered.(expiresAt := Some(expiresAt))
  }

  /** The package's globals `jwtValidateKey` and `jwtSignKey`, written once by `init`. */
  class Package {
    var jwtValidateKey: string
    var jwtSignKey: string

    /** `init`: capture both keys from the environment as it is at start-up. */
    constructor (env: Env)
      ensures jwtValidateKey == Getenv(env, ValidateKeyVar)
      ensures jwtSignKey == Getenv(env, SignKeyVar)
    {
      jwtValidateKey := Getenv(env, ValidateKeyVar);
      jwtSignKey := Getenv(env, SignKeyVar);
    }

    /**
     * `ParseBearerJwtFromAuthHeader`: the guards, then the parser with the
     * captured-key callback. No environment is consulted.
     */
    function ParseBearerJwtFromAuthHeader<T>(header: string, parse: Parser<T>): (r: Result<T, Error>)
      reads this
      ensures BearerToken(header).Err? ==> r == Err(BearerToken(header).error)
      ensures BearerToken(header).Ok? ==> r == parse(BearerToken(header).value, KeyCallback(jwtValidateKey))
    {
      match BearerToken(header)
      case Err(e) => Err(e)
      case Ok(token) => parse(token, KeyCallback(jwtValidateKey))
    }

    /**
     * `GenerateTokens`: sign `{ExpiresAt: now + tokenTTL}` and then
     * `{ExpiresAt: now + refreshTokenTTL}` with HS256 and the captured sign
     * key. `clock` holds the two readings of the clock, in whole seconds.
     * A failure of the first signing skips the second; a failed signing
     * yields "".
     */
    method GenerateTokens(tokenTTL: int, refreshTokenTTL: int, clock: seq<int>, sign: Signer<RegisteredClaims>)
      returns (signedToken: string, signedRefreshToken: string, err: Option<Error>)
      requires |clock| >= 2
      ensures var access := sign(HS256, ExpiryOnly(clock[0] + tokenTTL), jwtSignKey);
              var refresh := sign(HS256, ExpiryOnly(clock[1] + refreshTokenTTL), jwtSignKey);
        && (access.Err? ==> signedToken == [] && signedRefreshToken == [] && err == Some(access.error))
        && (access.Ok? ==> signedToken == access.value)
        && (access.Ok? && refresh.Err? ==> signedRefreshToken == [] && err == Some(refresh.error))
        && (access.Ok? && refresh.Ok? ==> signedRefreshToken == refresh.value && err == None)
      ensures err != None ==> signedRefreshToken == []
    {
      signedRefreshToken := [];
      var claims := ExpiryOnly(clock[0] + tokenTTL);
      var access := sign(HS256, claims, jwtSignKey);
      if access.Err? {
        signedToken, err := [], Some(access.error);
        return;
      }
      signedToken := access.value;

      var refreshClaims := ExpiryOnly(clock[1] + refreshTokenTTL);
      var refresh := sign(HS256, refreshClaims, jwtSignKey);
      if refresh.Err? {
        signedRefreshToken, err := [], Some(refresh.error);
      } else {
        signedRefreshToken, err := refresh.value, None;
      }
    }
  }
}
