/**
 * How the duplicated pieces of the repository compare: the two datastore
 * packages' server lists, the two key callbacks, and the claims the two
 * token pair constructors sign.
 */
module CrossPackage {
  import opened Wrappers
  import opened GoStrings
  import opened OsEnv
  import opened JwtLib
  import opened OpensearchConfig
  import Osearch
  import Datastore
  import Token
  import UtilToken
  import TokenJwt
  import UtilJwt

  /**
   * For every `OPENSEARCH_URLS` value, the addresses `init` hands to the
   * client (cleaning, then the empty-list default) are those `getUrls`
   * yields.
   */
  lemma DatastoreAgreesWithOsearch(urlstr: string)
    ensures Datastore.Addresses(CleanUrls(Split(urlstr, ','))) == Osearch.ServerUrls(urlstr)
  {
    Osearch.ServerUrlsIsCleanedOrDefault(urlstr);
  }

  /**
   * The two key callbacks, with util's key captured from the same
   * environment, agree except on an HMAC token with an empty key: there
   * package `token` refuses and package `util` hands over the empty key.
   */
  lemma KeyCallbacksAgree(signingMethod: SigningMethod, env: Env)
    ensures var captured := Getenv(env, Token.ValidateKeyVar);
      Token.ValidationKey(signingMethod, env) == UtilToken.CapturedKey(signingMethod, captured) <==>
      !(signingMethod.Hmac? && captured == [])
  {
  }

  /**
   * The registered claims both pair constructors sign, given the same
   * registered part and clock, differ only in the issuer, which package
   * `token` sets from `JWT_ISSUER` and package `util` leaves alone.
   */
  lemma SignedClaimsDifferOnlyInIssuer(tc: TokenJwt.Claims, uc: UtilJwt.Claims, issuer: string, clock: seq<int>)
    requires tc.registered.Some? && tc.registered == uc.registered
    requires |clock| >= 4
    ensures TokenJwt.AccessClaims(tc, issuer, clock).registered ==
      Some(UtilJwt.AccessClaims(uc, clock).registered.value.(issuer := issuer))
    ensures TokenJwt.RefreshClaims(tc, issuer, clock).registered ==
      Some(UtilJwt.RefreshClaims(uc, clock).registered.value.(issuer := issuer))
  {
  }
}
