/**
 * Package `token`, token/jwt.go: the claims record (registered claims plus
 * identity provider, alias and roles), copying it, and issuing an access
 * and refresh token pair for it. The signer is a parameter; `clock` holds
 * the successive readings of `time.Now()`, in whole seconds.
 */
module TokenJwt {
  import opened Wrappers
  import opened OsEnv
  import opened JwtLib

  const DefaultTokenTTL: int := 24 * Hour
  const DefaultRefreshTokenTTL: int := 168 * Hour

  const SignKeyVar: string := "JWT_SIGN_KEY"
  const IssuerVar: string := "JWT_ISSUER"

  datatype TokenPair = TokenPair(token: string, refresh: string)

  /**
   * `Claims`: identity provider, alias, roles (a nil slice is None) and the
   * embedded `*jwt.RegisteredClaims` (a nil pointer is None).
   */
  datatype Claims = Claims(
    idp: string,
    alias: string,
    roles: Option<seq<string>>,
    registered: Option<RegisteredClaims>)

  /** None of IssuedAt, ExpiresAt and NotBefore is set. */
  predicate NoTimes(r: RegisteredClaims) {
    r.issuedAt == None && r.expiresAt == None && r.notBefore == None
  }

  /**
   * `Clone`, as written. It reads the registered ID before testing the
   * embedded pointer, so a nil registered part is a panic: the caller must
   * supply one. IDP is taken from the registered ID, and the roles test
   * looks at the new record's own (nil) roles, so roles are never copied.
   */
  function Clone(c: Claims): (r: Claims)
    requires c.registered.Some?
    ensures r.idp == c.registered.value.id && r.alias == c.alias
    ensures r.roles == None
    ensures r.registered == Some(WithoutTimes(c.registered.value))
    ensures r.registered.Some? && NoTimes(r.registered.value)
  {
    var reg := c.registered.value;
    Claims(reg.id, c.alias, None,
      Some(RegisteredClaims(reg.issuer, reg.subject, reg.audience, None, None, None, reg.id)))
  }

  /** The registered claims without their date-time fields. */
  function WithoutTimes(r: RegisteredClaims): (s: RegisteredClaims)
    ensures NoTimes(s)
  {
    r.(issuedAt := None, expiresAt := None, notBefore := None)
  }

  /**
   * `Clone` as its comment describes it: a copy of the claims that leaves
   * out only the date-time fields.
   */
  function CloneAsDocumented(c: Claims): (r: Claims)
    requires c.registered.Some?
    ensures r.registered.Some? && NoTimes(r.registered.value)
  {
    Claims(c.idp, c.alias, c.roles, Some(WithoutTimes(c.registered.value)))
  }

  /** The documented copy differs from its source in the date-time fields alone. */
  lemma CloneAsDocumentedKeepsAllButTimes(c: Claims)
    requires c.registered.Some?
    ensures var r := CloneAsDocumented(c);
      r.idp == c.idp && r.alias == c.alias && r.roles == c.roles &&
      WithoutTimes(r.registered.value) == WithoutTimes(c.registered.value)
    ensures CloneAsDocumented(c) == c <==> NoTimes(c.registered.value)
  {
  }

  /**
   * Both directions: `Clone` as written gives the documented copy exactly
   * when the identity provider already equals the registered ID and there
   * are no roles.
   */
  lemma CloneMatchesDocumentedIff(c: Claims)
    requires c.registered.Some?
    ensures Clone(c) == CloneAsDocumented(c) <==> c.idp == c.registered.value.id && c.roles == None
  {
    if Clone(c) == CloneAsDocumented(c) {
      assert Clone(c).idp == CloneAsDocumented(c).idp;
      assert Clone(c).roles == CloneAsDocumented(c).roles;
    }
  }

  /** A claim set whose identity provider is "github" and whose ID is "42" clones with IDP "42". */
  lemma CloneTakesIdpFromId()
    ensures var c := Claims("github", "octocat", None, Some(EmptyRegistered.(id := "42")));
      Clone(c).idp == "42" && Clone(c).idp != c.idp
  {
  }

  /** A claim set with the role "admin" clones with no roles at all. */
  lemma CloneDropsRoles()
    ensures var c := Claims("github", "octocat", Some(["admin"]), Some(EmptyRegistered));
      Clone(c).roles == None && c.roles != None
  {
  }

  /** Cloning a clone changes nothing more: the IDP already equals the ID and there are no roles. */
  lemma CloneIdempotent(c: Claims)
    requires c.registered.Some?
    ensures Clone(Clone(c)) == Clone(c)
  {
  }

  /** `NewClaims`: no identity, no roles, and an all-empty registered part. */
  function NewClaims(): (r: Claims)
    ensures r.registered == Some(EmptyRegistered)
    ensures r.idp == [] && r.alias == [] && r.roles == None
  {
    Claims([], [], None, Some(EmptyRegistered))
  }

  /** Fresh claims are their own clone, under either reading of `Clone`. */
  lemma CloneOfNewClaims()
    ensures Clone(NewClaims()) == NewClaims()
    ensures CloneAsDocumented(NewClaims()) == NewClaims()
  {
  }

  /**
   * The claims as the pair constructor leaves them after setting the
   * issuer and the two timestamps; nothing else changes.
   */
  function Issued(c: Claims, issuer: string, issuedAt: int, expiresAt: int): (r: Claims)
    requires c.registered.Some?
    ensures r.idp == c.idp && r.alias == c.alias && r.roles == c.roles
    ensures r.registered.Some?
    ensures r.registered.value.(issuer := "", issuedAt := None, expiresAt := None) ==
            c.registered.value.(issuer := "", issuedAt := None, expiresAt := None)
  {
    c.(registered := Some(Stamp(c.registered.value.(issuer := issuer), issuedAt, expiresAt)))
  }

  /** Issuing again overwrites everything an earlier issue set: only the last issuer and times remain. */
  lemma ReissueOverwrites(c: Claims, i1: string, a1: int, e1: int, i2: string, a2: int, e2: int)
    requires c.registered.Some?
    ensures Issued(Issued(c, i1, a1, e1), i2, a2, e2) == Issued(c, i2, a2, e2)
  {
  }

  /**
   * The claims signed into the access token: IssuedAt is the first clock
   * reading and ExpiresAt is 24 hours after the second, so the lifetime is
   * 24 hours plus the time between the two readings.
   */
  function AccessClaims(c: Claims, issuer: string, clock: seq<int>): (r: Claims)
    requires c.registered.Some? && |clock| >= 2
    ensures r.registered.Some? && r.registered.value.issuer == issuer
    ensures r.registered.value.issuedAt == Some(clock[0])
    ensures r.registered.value.expiresAt.Some?
    ensures r.registered.value.expiresAt.value - clock[0] == DefaultTokenTTL + (clock[1] - clock[0])
  {
    Issued(c, issuer, clock[0], clock[1] + DefaultTokenTTL)
  }

  /** The claims signed into the refresh token: the third reading, and 168 hours after the fourth. */
  function RefreshClaims(c: Claims, issuer: string, clock: seq<int>): (r: Claims)
    requires c.registered.Some? && |clock| >= 4
    ensures r.registered.Some? && r.registered.value.issuer == issuer
    ensures r.registered.value.issuedAt == Some(clock[2])
    ensures r.registered.value.expiresAt.Some?
    ensures r.registered.value.expiresAt.value - clock[2] == DefaultRefreshTokenTTL + (clock[3] - clock[2])
  {
    Issued(c, issuer, clock[2], clock[3] + DefaultRefreshTokenTTL)
  }

  /** The refresh claims do not depend on the access claims that were set before them. */
  lemma RefreshAfterAccess(c: Claims, issuer: string, clock: seq<int>)
    requires c.registered.Some? && |clock| >= 4
    ensures RefreshClaims(AccessClaims(c, issuer, clock), issuer, clock) == RefreshClaims(c, issuer, clock)
  {
  }

  /** A `*Claims`: the pair constructor updates the caller's record in place. */
  class ClaimsRef {
    var claims: Claims

    constructor (c: Claims)
      ensures claims == c
    {
      claims := c;
    }

    /** `c.Issuer = issuer`, through the embedded pointer. */
    method SetIssuer(issuer: string)
      requires claims.registered.Some?
      modifies this
      ensures claims == old(claims).(registered := Some(old(claims).registered.value.(issuer := issuer)))
    {
      claims := claims.(registered := Some(claims.registered.value.(issuer := issuer)));
    }

    /** `c.IssuedAt = jwt.NewNumericDate(t)`. */
    method SetIssuedAt(t: int)
      requires claims.registered.Some?
      modifies this
      ensures claims == old(claims).(registered := Some(old(claims).registered.value.(issuedAt := Some(t))))
    {
      claims := claims.(registered := Some(claims.registered.value.(issuedAt := Some(t))));
    }

    /** `c.ExpiresAt = jwt.NewNumericDate(t)`. */
    method SetExpiresAt(t: int)
      requires claims.registered.Some?
      modifies this
      ensures claims == old(claims).(registered := Some(old(claims).registered.value.(expiresAt := Some(t))))
    {
      claims := claims.(registered := Some(claims.registered.value.(expiresAt := Some(t))));
    }
  }

  /**
   * `NewTokenPairWithClaims`. Without `JWT_SIGN_KEY` it fails and leaves the
   * claims alone. Otherwise it sets the issuer from `JWT_ISSUER`, stamps and
   * signs the access token, then restamps and signs the refresh token; the
   * caller's claims keep whatever was stamped last, also when a signing
   * fails. The sign key is checked first, so claims without a registered
   * part are refused with "sign key not set" when the key is missing;
   * with a key, writing the issuer through a nil embedded pointer panics,
   * so then the registered part must be present.
   */
  method NewTokenPairWithClaims(c: ClaimsRef, signMethod: SigningMethod, env: Env, clock: seq<int>, sign: Signer<Claims>)
    returns (pair: Result<TokenPair, Error>)
    requires Getenv(env, SignKeyVar) != [] ==> c.claims.registered.Some?
    requires |clock| >= 4
    modifies c
    ensures Getenv(env, SignKeyVar) == [] ==> pair == Err(SignKeyNotSet) && c.claims == old(c.claims)
    ensures Getenv(env, SignKeyVar) != [] ==>
      var key := Getenv(env, SignKeyVar);
      var access := AccessClaims(old(c.claims), Getenv(env, IssuerVar), clock);
      var refresh := RefreshClaims(old(c.claims), Getenv(env, IssuerVar), clock);
      var token := sign(signMethod, access, key);
      var refreshToken := sign(signMethod, refresh, key);
      && (token.Err? ==> pair == Err(token.error) && c.claims == access)
      && (token.Ok? && refreshToken.Err? ==> pair == Err(refreshToken.error) && c.claims == refresh)
      && (token.Ok? && refreshToken.Ok? ==>
            pair == Ok(TokenPair(token.value, refreshToken.value)) && c.claims == refresh)
  {
    var jwtSignKey := Getenv(env, SignKeyVar);
    if jwtSignKey == [] {
      return Err(SignKeyNotSet);
    }

    c.SetIssuer(Getenv(env, IssuerVar));

    c.SetIssuedAt(clock[0]);
    c.SetExpiresAt(clock[1] + DefaultTokenTTL);
    var token := sign(signMethod, c.claims, jwtSignKey);
    if token.Err? {
      return Err(token.error);
    }

    c.SetIssuedAt(clock[2]);
    c.SetExpiresAt(clock[3] + DefaultRefreshTokenTTL);
    var refresh := sign(signMethod, c.claims, jwtSignKey);
    if refresh.Err? {
      return Err(refresh.error);
    }

    return Ok(TokenPair(token.value, refresh.value));
  }
}
