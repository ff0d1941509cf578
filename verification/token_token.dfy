/**
 * Package `token`, token/token.go: reading a bearer token from an
 * `Authorization` header and validating it. The JWT parser is a parameter;
 * what this package adds is the header guard and the key callback, which
 * reads `JWT_VALIDATE_KEY` each time it is called.
 */
module Token {
  import opened Wrappers
  import opened OsEnv
  import opened JwtLib
  import opened BearerHeader

  const ValidateKeyVar: string := "JWT_VALIDATE_KEY"

  /**
   * The key callback passed to the parser: HMAC tokens are verified with
   * `JWT_VALIDATE_KEY` as read at call time, which must not be empty; any
   * other signing method is refused.
   */
  function ValidationKey(signingMethod: SigningMethod, env: Env): (key: Result<string, Error>)
    ensures key.Ok? <==> signingMethod.Hmac? && Getenv(env, ValidateKeyVar) != []
    ensures key.Ok? ==> key.value == Getenv(env, ValidateKeyVar)
    ensures signingMethod.Hmac? && Getenv(env, ValidateKeyVar) == [] ==> key == Err(ValidateKeyNotSet)
    ensures !signingMethod.Hmac? ==> key == Err(UnsupportedSigningMethod(signingMethod))
  {
    match signingMethod
    case Hmac(_) =>
      var jwtValidateKey := Getenv(env, ValidateKeyVar);
      if jwtValidateKey == [] then Err(ValidateKeyNotSet) else Ok(jwtValidateKey)
    case _ => Err(UnsupportedSigningMethod(signingMethod))
  }

  /**
   * The callback `ValidateToken` hands to the parser: for whatever signing
   * method the parser reports, it answers as `ValidationKey` does.
   */
  function ValidationCallback(env: Env): (keyFunc: KeyFunc)
    ensures forall m :: keyFunc(m) == ValidationKey(m, env)
  {
    m => ValidationKey(m, env)
  }

  /** `ValidateToken`: the parser's verdict on the token, with the key callback above. */
  function ValidateToken<T>(token: string, env: Env, parse: Parser<T>): (r: Result<T, Error>)
    ensures r == parse(token, ValidationCallback(env))
  {
    parse(token, ValidationCallback(env))
  }

  /** `ParseBearerJwtFromAuthHeader`: the guards, then validation of the text after the space. */
  function ParseBearerJwtFromAuthHeader<T>(header: string, env: Env, parse: Parser<T>): (r: Result<T, Error>)
    ensures BearerToken(header).Err? ==> r == Err(BearerToken(header).error)
    ensures BearerToken(header).Ok? ==> r == ValidateToken(BearerToken(header).value, env, parse)
  {
    match BearerToken(header)
    case Err(e) => Err(e)
    case Ok(token) => ValidateToken(token, env, parse)
  }

  /**
   * A header of the bearer form reaches the parser with exactly the text
   * after the space, and the parser's verdict is the result.
   */
  lemma ParserSeesTextAfterSpace<T>(scheme: string, token: string, env: Env, parse: Parser<T>)
    requires BearerForm(scheme + " " + token, scheme, token)
    ensures ParseBearerJwtFromAuthHeader(scheme + " " + token, env, parse) == parse(token, ValidationCallback(env))
  {
    AcceptsBearerForm(scheme, token);
  }

  /** A header the guards reject never reaches the parser, whatever the parser would say. */
  lemma RejectedHeaderIgnoresParser<T>(header: string, env: Env, p1: Parser<T>, p2: Parser<T>)
    requires BearerToken(header).Err?
    ensures ParseBearerJwtFromAuthHeader(header, env, p1) == ParseBearerJwtFromAuthHeader(header, env, p2)
    ensures ParseBearerJwtFromAuthHeader(header, env, p1).Err?
  {
  }
}
