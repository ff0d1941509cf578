/**
 * Package `util`, util/jwt.go: a claims record without roles, and the
 * token pair constructor, which unlike package `token`'s never sets the
 * issuer. The signer is a parameter; `clock` holds the successive readings
 * of `time.Now()`, in whole seconds.
 */
module UtilJwt {
  import opened Wrappers
  import opened OsEnv
  import opened JwtLib

  const DefaultTokenTTL: int := 24 * Hour
  const DefaultRefreshTokenTTL: int := 168 * Hour

  const SignKeyVar: string := "JWT_SIGN_KEY"

  datatype TokenPair = TokenPair(token: string, refresh: string)

  /** `Claims`: identity provider, alias and the embedded `*jwt.RegisteredClaims` (nil is None). */
  datatype Claims = Claims(idp: string, alias: string, registered: Option<RegisteredClaims>)

  /** `NewClaims`: no identity and an all-empty registered part. */
  function NewClaims(): (r: Claims)
    ensures r.registered == Some(EmptyRegistered)
    ensures r.idp == [] && r.alias == []
  {
    Claims([], [], Some(EmptyRegistered))
  }

  /** The claims with IssuedAt and ExpiresAt set; every other field, the issuer included, unchanged. */
  function Stamped(c: Claims, issuedAt: int, expiresAt: int): (r: Claims)
    requires c.registered.Some?
    ensures r.idp == c.idp && r.alias == c.alias
    ensures r.registered.Some? && r.registered.value.issuer == c.registered.value.issuer
    ensures r.registered.value.(issuedAt := None, expiresAt := None) == c.registered.value.(issuedAt := None, expiresAt := None)
  {
    c.(registered := Some(Stamp(c.registered.value, issuedAt, expiresAt)))
  }

  /** The access-token claims: the first clock reading, and 24 hours after the second. */
  function AccessClaims(c: Claims, clock: seq<int>): (r: Claims)
    requires c.registered.Some? && |clock| >= 2
    ensures r.registered.Some? && r.registered.value.issuedAt == Some(clock[0])
    ensures r.registered.value.expiresAt.Some?
    ensures r.registered.value.expiresAt.value - clock[0] == DefaultTokenTTL + (clock[1] - clock[0])
  {
    Stamped(c, clock[0], clock[1] + DefaultTokenTTL)
  }

  /** The refresh-token claims: the third clock reading, and 168 hours after the fourth. */
  function RefreshClaims(c: Claims, clock: seq<int>): (r: Claims)
    requires c.registered.Some? && |clock| >= 4
    ensures r.registered.Some? && r.registered.value.issuedAt == Some(clock[2])
    ensures r.registered.value.expiresAt.Some?
    ensures r.registered.value.expiresAt.value - clock[2] == DefaultRefreshTokenTTL + (clock[3] - clock[2])
  {
    Stamped(c, clock[2], clock[3] + DefaultRefreshTokenTTL)
  }

  /** Stamping twice keeps only the last stamp. */
  lemma RestampOverwrites(c: Claims, a1: int, e1: int, a2: int, e2: int)
    requires c.registered.Some?
    ensures Stamped(Stamped(c, a1, e1), a2, e2) == Stamped(c, a2, e2)
  {
  }

  /** A `*Claims`: the pair constructor updates the caller's record in place. */
  class ClaimsRef {
    var claims: Claims

    constructor (c: Claims)
      ensures claims == c
    {
      claims := c;
    }

    /** `c.IssuedAt = jwt.NewNumericDate(t)`, through the embedded pointer. */
    method SetIssuedAt(t: int)
      requires claims.registered.Some?
      modifies this
      ensures claims == old(claims).(registered := Some(old(claims).registered.value.(issuedAt := Some(t))))
    {
      claims := claims.(registered := Some(claims.registered.value.(issuedAt := Some(t))));
    }

    /** `c.ExpiresAt = jwt.NewNumericDate(t)`. */
    method SetExpiresAt(t: int)
      requires claims.registered.Some?
      modifies this
      ensures claims == old(claims).(registered := Some(old(claims).registered.value.(expiresAt := Some(t))))
    {
      claims := claims.(registered := Some(claims.registered.value.(expiresAt := Some(t))));
    }
  }

  /**
   * `NewTokenPairWithClaims`. Without `JWT_SIGN_KEY` it fails and leaves the
   * claims alone. Otherwise it stamps and signs the access token, then
   * restamps and signs the refresh token; the caller's claims keep whatever
   * was stamped last, also when a signing fails. The sign key is checked
   * first, so claims without a registered part are refused with "sign key
   * not set" when the key is missing; with a key, writing a timestamp
   * through a nil embedded pointer panics, so then the registered part
   * must be present.
   */
  method NewTokenPairWithClaims(c: ClaimsRef, signMethod: SigningMethod, env: Env, clock: seq<int>, sign: Signer<Claims>)
    returns (pair: Result<TokenPair, Error>)
    requires Getenv(env, SignKeyVar) != [] ==> c.claims.registered.Some?
    requires |clock| >= 4
    modifies c
    ensures Getenv(env, SignKeyVar) == [] ==> pair == Err(SignKeyNotSet) && c.claims == old(c.claims)
    ensures Getenv(env, SignKeyVar) != [] ==>
      var key := Getenv(env, SignKeyVar);
      var access := AccessClaims(old(c.claims), clock);
      var refresh := RefreshClaims(old(c.claims), clock);
      var token := sign(signMethod, access, key);
      var refreshToken := sign(signMethod, refresh, key);
      && (token.Err? ==> pair == Err(token.error) && c.claims == access)
      && (token.Ok? && refreshToken.Err? ==> pair == Err(refreshToken.error) && c.claims == refresh)
      && (token.Ok? && refreshToken.Ok? ==>
            pair == Ok(TokenPair(token.value, refreshToken.value)) && c.claims == refresh)
    ensures c.claims.idp == old(c.claims).idp && c.claims.alias == old(c.claims).alias
    ensures c.claims.registered.Some? <==> old(c.claims).registered.Some?
    ensures c.claims.registered.Some? ==> c.claims.registered.value.issuer == old(c.claims).registered.value.issuer
  {
    var jwtSignKey := Getenv(env, SignKeyVar);
    if jwtSignKey == [] {
      return Err(SignKeyNotSet);
    }

    c.SetIssuedAt(clock[0]);
    c.SetExpiresAt(clock[1] + DefaultTokenTTL);
    var token := sign(signMethod, c.claims, jwtSignKey);
    if token.Err? {
      return Err(token.error);
    }

    c.SetIssuedAt(clock[2]);
    c.SetExpiresAt(clock[3] + DefaultRefreshTokenTTL);
    var refresh := sign(signMethod, c.claims, jwtSignKey);
    if refresh.Err? {
      return Err(refresh.error);
    }

    return Ok(TokenPair(token.value, refresh.value));
  }
}
