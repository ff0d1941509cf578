# go-skit: server lists, bearer headers, token claims and the health-check registry

This project models the self-contained rules of go-skit, a small Go toolkit that wraps
an OpenSearch client and issues and checks JSON Web Tokens:

- **Server lists** (`datastore/osearch`, `datastore`). `OPENSEARCH_URLS` is split on `,`.
  Each entry is trimmed and blank entries are dropped. `getUrls` falls back to
  `https://127.0.0.1:9200` when nothing is left; in package `datastore` the fallback sits in
  `NewOpenSearchClient`. `DefaultClient` defaults an empty `OPENSEARCH_USERNAME` or
  `OPENSEARCH_SECRET` to `admin`. Package `datastore` always uses `admin`/`admin`.
- **Bearer headers** (`token`, `util`). The `Authorization` header is split on single spaces
  and must have exactly two parts. This is stricter than the `Bearer 1*SP b64token` form of
  section 2.1 of RFC 6750 in one way and looser in another: a doubled space is refused, and
  any space-free token is accepted without a check of its characters. The scheme must be
  `bearer` in any letter case, as section 2.1 of RFC 7235 allows, and the token must be
  non-empty. The key callback picks the HMAC verification key. Package `token` reads
  `JWT_VALIDATE_KEY` on every call and refuses an empty key. Package `util` uses the key
  captured at start-up, even an empty one.
- **Claims** (`token/jwt.go`, `util/jwt.go`, `util/token.go`). `Clone` and `NewClaims` build
  claim records. The token pair constructors update the caller's claims in place: the
  issuer (package `token` only), then IssuedAt/ExpiresAt with a 24-hour lifetime, a signing,
  then a 168-hour restamp and a second signing. `GenerateTokens` signs two expiry-only claim
  sets with HS256.
- **Health check** (`handler`). The registry of variable names starts as `["GIT_COMMIT"]` and
  only grows. The report maps each registered name whose value is non-empty to that value.

Modelling choices:

- The environment is a `map<string, string>` parameter. `Getenv` gives `""` for an absent
  name, as `os.Getenv` does.
- The clock is a sequence of readings in whole seconds, one per `time.Now()` call. No
  monotonicity is assumed, so a lifetime is stated as the TTL plus the time between the two
  readings.
- The JWT signer and parser are function parameters (`JwtLib.Signer`, `JwtLib.Parser`). A
  failed signing yields `""` and the library's error, as `SignedString` does.
- A `*Claims` is the class `ClaimsRef`, which holds a `Claims` value. The setters mirror the
  field assignments made through the embedded `*RegisteredClaims`.
- The package globals are class fields. These are `Datastore.Package.openSearchClient`,
  `UtilToken.Package.jwtValidateKey`/`jwtSignKey` and `Healthcheck.Registry.healthCheckEnv`.
  Go's `init` is a method or a constructor of that class.
- The header guard is identical in `token/token.go` and `util/token.go`. It is defined once,
  as `BearerHeader.BearerToken`, and both packages use it.

Package `datastore` never reads `OPENSEARCH_USERNAME` or `OPENSEARCH_SECRET`: those reads
are commented out at datastore/opensearch.go:169-171, and the client always uses
`admin`/`admin`.

## Model

| member | source | states |
|---|---|---|
| GoStrings.Split | token/token.go:13 | `strings.Split` on one separator yields one more piece than there are separators, and no piece contains the separator |
| GoStrings.JoinSplit | datastore/osearch/opensearch.go:205 | joining the pieces of a split with the separator gives back the original string |
| GoStrings.SplitJoin | token/token.go:13 | splitting a join of separator-free pieces gives the pieces back, so together with JoinSplit the split is unique |
| GoStrings.TrimSpace | datastore/osearch/opensearch.go:208 | the result neither starts nor ends with white space |
| GoStrings.TrimSpaceIsCore | datastore/osearch/opensearch.go:208 | the result is a contiguous part of the input with only white space before and after it |
| GoStrings.TrimSpaceOf | datastore/osearch/opensearch.go:208 | a trimmed core surrounded by white space trims to exactly that core, the converse of TrimSpaceIsCore |
| GoStrings.BlankIffAllSpace | datastore/opensearch.go:178-179 | an entry trims to "" exactly when it is all white space, in both directions |
| GoStrings.TrimSpaceIdempotent | datastore/osearch/opensearch.go:208 | trimming twice is the same as trimming once |
| GoStrings.ToLower | token/token.go:18 | lower-casing keeps the length and maps each character to its lower-case form |
| GoStrings.BearerSpellings | token/token.go:18 | `ToLower(p) == "bearer"` holds exactly for the six-letter spellings of bearer in any mix of upper and lower case |
| OpensearchConfig.CleanUrls | datastore/osearch/opensearch.go:205-212 | the cleaned list is no longer than the entry list, and every element is non-empty with no white space at either end |
| OpensearchConfig.CleanEntry | datastore/osearch/opensearch.go:208-211 | one entry contributes at most one URL, which is non-empty and trimmed |
| OpensearchConfig.CleanUrlsAppend | datastore/opensearch.go:177-183 | cleaning a concatenation concatenates the cleanings, so the output keeps the input order, entry by entry |
| OpensearchConfig.CleanUrlsPrefix | datastore/opensearch.go:177-183 | cleaning one more entry appends exactly that entry's contribution, which is the loop step |
| OpensearchConfig.CleanUrlsOne | datastore/osearch/opensearch.go:208-211 | a single entry contributes its trimmed form when that is not blank, and nothing otherwise |
| OpensearchConfig.CleanUrlsMember | datastore/osearch/opensearch.go:207-211 | a URL is in the cleaned list exactly when it is non-empty and some entry trims to it |
| OpensearchConfig.CleanUrlsAllBlank | datastore/opensearch.go:177-181 | entries that are all white space clean to the empty list |
| Osearch.ServerUrls | datastore/osearch/opensearch.go:199-217 | the server list is never empty, has at most one element more than the number of commas, holds only non-empty trimmed URLs, and is exactly the default address for "" |
| Osearch.ServerUrlsIsCleanedOrDefault | datastore/osearch/opensearch.go:200-203 | the early return for "" changes nothing: the list is the cleaned entries, or the default address when there are none |
| Osearch.ServerUrlsAllBlank | datastore/osearch/opensearch.go:213-215 | a value made only of commas and white space, such as " , ,", yields the default address |
| Osearch.SplitPiecesAvoid | datastore/osearch/opensearch.go:205 | when a string holds only separators and white space, every piece of its split is all white space |
| Osearch.GetUrls | datastore/osearch/opensearch.go:199-217 | the loop that appends trimmed non-blank entries, followed by the fallback, computes ServerUrls of `OPENSEARCH_URLS` |
| Osearch.NewOpenSearchClient | datastore/osearch/opensearch.go:50-60 | the configuration carries the given addresses and credentials unchanged, 5 retries and retries on 502/503/504 |
| Osearch.DefaultClient | datastore/osearch/opensearch.go:34-47 | an empty username or secret becomes "admin", a non-empty one passes through, neither is ever empty, the addresses are ServerUrls of the environment, and the client retries 5 times on 502/503/504 with certificate verification skipped |
| Datastore.Addresses | datastore/opensearch.go:24-26 | the address list is never empty and equals the given list whenever that is non-empty |
| Datastore.NewOpenSearchClient | datastore/opensearch.go:23-38 | an empty list becomes the default address, otherwise the list passes through; the credentials are always admin/admin |
| Datastore.EmptyEnvCleansToNothing | datastore/opensearch.go:173-183 | an empty `OPENSEARCH_URLS` cleans to the empty list, because splitting "" gives one blank entry |
| Datastore.Package.constructor | datastore/opensearch.go:19 | the package client is nil before `init` runs |
| Datastore.Package.Init | datastore/opensearch.go:168-190 | `init` sets the package client to one built from the cleaned `OPENSEARCH_URLS` entries, defaulted when empty, with admin/admin credentials whatever the environment holds, 5 retries, retries on 502/503/504 and certificate verification skipped |
| BearerHeader.BearerToken | token/token.go:12-24 | the header is rejected as invalid exactly when it does not hold exactly one space; an unsupported scheme error names a space-free scheme that is not bearer; an accepted token is non-empty and space-free |
| BearerHeader.AcceptsBearerForm | token/token.go:13-30 | `scheme + " " + token` with a bearer scheme and a non-empty space-free token is accepted, and the token handed on is exactly the text after the space |
| BearerHeader.AcceptedHasBearerForm | util/token.go:19-30 | every accepted header is a bearer scheme, one space and the token it yields |
| BearerHeader.BearerTokenIff | token/token.go:13-24 | both directions: a header yields a token exactly when it has the bearer form around that token |
| BearerHeader.SchemeIgnoresCase | util/token.go:24-26 | two schemes with the same lower-case form are accepted or refused alike |
| BearerHeader.OtherSchemeRejected | token/token.go:18-20 | a well-split header whose scheme is not bearer in any case fails as unsupported, and the error echoes the scheme |
| BearerHeader.WrongPartCounts | token/token.go:13-16 | "fobbar" (no space), "Bearer  x" (a doubled space) and "bearer a b" (three words) are invalid headers |
| BearerHeader.OtherSchemeExample | util/token_test.go:13-14 | "blubber fobbar" fails as an unsupported scheme |
| BearerHeader.SchemeCheckedBeforeEmptiness | token/token.go:18-24 | "basic " fails on its scheme, not on its empty token, because the scheme is checked first |
| BearerHeader.EmptyTokenExample | util/token_test.go:19-20 | "bearer " fails as an empty token |
| BearerHeader.EmptyTokenRejected | token/token.go:22-24 | any spelling of the bearer scheme followed by one space and nothing else fails as an empty token |
| BearerHeader.WellFormedExample | util/token_test.go:16-17 | "bearer fobbar" passes every guard, so its rejection in the test comes from the JWT parser |
| Token.ValidationKey | token/token.go:33-47 | the callback gives a key exactly for an HMAC method with a non-empty `JWT_VALIDATE_KEY`, and that key is the variable's value at call time; an empty key gives "validate key not set", and a non-HMAC method gives "unsupported signing method" |
| Token.ValidationCallback | token/token.go:34-46 | the callback handed to the parser answers, for every signing method, exactly what ValidationKey gives for that method and the environment |
| Token.ValidateToken | token/token.go:33-48 | the result is the parser's verdict on the token, with the callback that answers ValidationKey |
| Token.ParseBearerJwtFromAuthHeader | token/token.go:12-31 | a header the guards reject gives the guard's error; otherwise the result is the parser's verdict on the token after the space, using the callback above |
| Token.ParserSeesTextAfterSpace | token/token.go:30 | for a bearer-form header, the parser receives exactly the text after the space |
| Token.RejectedHeaderIgnoresParser | token/token.go:13-24 | a header the guards reject fails whatever the parser would do, and the parser is never consulted |
| UtilToken.KeyCallback | util/token.go:36-43 | the callback handed to the parser answers, for every signing method, exactly what CapturedKey gives for that method and the captured key |
| UtilToken.CapturedKey | util/token.go:36-43 | the callback gives a key exactly for HMAC methods, and that key is the captured one even when it is empty; other methods give "unsupported signing method" |
| UtilToken.ExpiryOnly | util/token.go:48-50 | the claims signed by `GenerateTokens` carry an expiry time and no other field |
| UtilToken.Package.constructor | util/token.go:64-67 | `init` captures `JWT_VALIDATE_KEY` and `JWT_SIGN_KEY` once; nothing later reads the environment |
| UtilToken.Package.ParseBearerJwtFromAuthHeader | util/token.go:18-44 | the guards come first; an accepted token goes to the parser with the captured-key callback |
| UtilToken.Package.GenerateTokens | util/token.go:47-62 | signs `{ExpiresAt: now + tokenTTL}` and then `{ExpiresAt: now + refreshTokenTTL}` with HS256 and the captured key; if the first signing fails, both tokens are "" and its error is returned; if the second fails, the refresh token is "" |
| TokenJwt.Clone | token/jwt.go:37-58 | the clone takes its IDP from the registered ID and its alias from the source, has no roles, and its registered part keeps the source's ID, Issuer, Audience and Subject with no IssuedAt, ExpiresAt or NotBefore; the registered part must be present |
| TokenJwt.CloneTakesIdpFromId | token/jwt.go:38-41 | claims with IDP "github" and ID "42" clone with IDP "42" |
| TokenJwt.CloneDropsRoles | token/jwt.go:43-46 | claims with the role "admin" clone with no roles |
| TokenJwt.CloneIdempotent | token/jwt.go:37-58 | cloning a clone gives the same clone |
| TokenJwt.CloneAsDocumented | token/jwt.go:35-36 | the documented copy keeps the registered part present and clears its date-time fields |
| TokenJwt.CloneAsDocumentedKeepsAllButTimes | token/jwt.go:35-36 | the documented copy keeps IDP, alias, roles and every registered field other than the date-time fields, and is the source itself exactly when no time is set |
| TokenJwt.CloneMatchesDocumentedIff | token/jwt.go:37-58 | both directions: the as-written clone equals the documented copy exactly when IDP already equals the ID and there are no roles |
| TokenJwt.NewClaims | token/jwt.go:60-72 | fresh claims have empty IDP and alias, nil roles and a present, all-empty registered part |
| TokenJwt.CloneOfNewClaims | token/jwt.go:60-72 | fresh claims are their own clone under both readings of Clone |
| TokenJwt.Issued | token/jwt.go:81-84 | setting the issuer and the two timestamps keeps IDP, alias and roles, and every registered field other than the issuer, IssuedAt and ExpiresAt |
| TokenJwt.ReissueOverwrites | token/jwt.go:81-91 | issuing again keeps nothing of an earlier issue: only the last issuer and timestamps remain |
| TokenJwt.AccessClaims | token/jwt.go:81-85 | the access token's claims carry `JWT_ISSUER`, IssuedAt at the first reading, and a lifetime of 24 hours plus the time between the two readings |
| TokenJwt.RefreshClaims | token/jwt.go:90-92 | the refresh token's claims carry `JWT_ISSUER`, IssuedAt at the third reading, and a lifetime of 168 hours plus the time between the third and fourth readings |
| TokenJwt.RefreshAfterAccess | token/jwt.go:83-91 | the refresh claims do not depend on the access stamps set before them |
| TokenJwt.ClaimsRef.SetIssuer | token/jwt.go:81 | writes the issuer and nothing else |
| TokenJwt.ClaimsRef.SetIssuedAt | token/jwt.go:83 | writes IssuedAt and nothing else |
| TokenJwt.ClaimsRef.SetExpiresAt | token/jwt.go:84 | writes ExpiresAt and nothing else |
| TokenJwt.NewTokenPairWithClaims | token/jwt.go:75-98 | with no sign key the result is "sign key not set" and the claims are untouched, even claims without a registered part; otherwise the access token is signed over AccessClaims and the refresh token over RefreshClaims; the caller's claims are left as last stamped on every path; a failed signing returns its error |
| UtilJwt.NewClaims | util/jwt.go:32-44 | fresh claims have empty IDP and alias and a present, all-empty registered part |
| UtilJwt.Stamped | util/jwt.go:53-54 | stamping keeps IDP, alias, issuer and every registered field other than IssuedAt and ExpiresAt |
| UtilJwt.AccessClaims | util/jwt.go:53-55 | the access token's claims carry IssuedAt at the first reading and a lifetime of 24 hours plus the time between the two readings |
| UtilJwt.RefreshClaims | util/jwt.go:60-62 | the refresh token's claims carry IssuedAt at the third reading and a lifetime of 168 hours plus the time between the third and fourth readings |
| UtilJwt.RestampOverwrites | util/jwt.go:53-61 | stamping twice keeps only the second stamp |
| UtilJwt.ClaimsRef.SetIssuedAt | util/jwt.go:53 | writes IssuedAt and nothing else |
| UtilJwt.ClaimsRef.SetExpiresAt | util/jwt.go:54 | writes ExpiresAt and nothing else |
| UtilJwt.NewTokenPairWithClaims | util/jwt.go:47-68 | with no sign key the result is "sign key not set" and the claims are untouched, even claims without a registered part; otherwise both tokens are signed over the stamped claims, and after an access-signing failure the claims keep the access stamps; IDP, alias and issuer never change |
| Healthcheck.Report | handler/healthcheck.go:26-32 | the report's names are exactly the registered names with a non-empty value, and each maps to its environment value |
| Healthcheck.ReportDependsOnNamesOnly | handler/healthcheck.go:26-32 | the report depends only on which names are registered, not on their order or repetition |
| Healthcheck.DuplicateRegistrationIgnored | handler/healthcheck.go:13-15 | registering a name again leaves the report unchanged, so duplicates yield a single entry |
| Healthcheck.Registry.constructor | handler/healthcheck.go:10 | the registry starts as `["GIT_COMMIT"]` |
| Healthcheck.Registry.RegisterEnvVar | handler/healthcheck.go:12-16 | the name is appended at the end, keeping earlier entries and duplicates |
| Healthcheck.Registry.HealthCheckEnvironment | handler/healthcheck.go:25-32 | the map filled by the loop is the report for the registry: registered names with non-empty values, each mapped to its value |
| CrossPackage.DatastoreAgreesWithOsearch | datastore/opensearch.go:173-186 | for every `OPENSEARCH_URLS` value, cleaning followed by the empty-list default gives the same addresses as `getUrls` |
| CrossPackage.KeyCallbacksAgree | util/token.go:36-43 | the two key callbacks agree exactly when it is not an HMAC token with an empty key |
| CrossPackage.SignedClaimsDifferOnlyInIssuer | util/jwt.go:47-68 | from the same registered part and clock, the two pair constructors sign registered claims that differ only in the issuer |

## Findings

| source | as written | input that shows it | evidently intended | confidence | as-written member | corrected member |
|---|---|---|---|---|---|---|
| token/jwt.go:39 | `IDP: c.ID` copies the registered ID into the identity provider | IDP "github", ID "42": the clone's IDP is "42" | `IDP: c.IDP`, a copy as the doc comment says | high; not executed | TokenJwt.CloneTakesIdpFromId | TokenJwt.CloneAsDocumented |
| token/jwt.go:43 | `if out.Roles != nil` tests the new record's roles, which are always nil | roles ["admin"]: the clone has no roles | `if c.Roles != nil`, so that the roles are copied | high; not executed | TokenJwt.CloneDropsRoles | TokenJwt.CloneAsDocumented |

`TokenJwt.CloneMatchesDocumentedIff` relates the two definitions in both directions.
`TokenJwt.CloneAsDocumentedKeepsAllButTimes` proves the intended property of the corrected
copy. Nothing in the repository calls `Clone`, so no other member depends on either
definition.

## Left out

- The document and index operations of both datastore packages (create, update, delete, get, create/delete index, `Raw`). Each is one HTTP call through opensearch-go, and the only local rule is that a status above 299 is an error.
- JSON marshalling of request bodies, including the `{"doc": obj}` wrapper, and the JSON tags of `TokenPair`.
- Errors from `opensearch.NewClient`, such as an address it cannot parse. In the model the configuration is always built, so `init`'s `log.Panicf` path is not modelled.
- TLS settings beyond the skip-verify flag, logging, and the retry behaviour behind the retry settings.
- JWT signing, parsing, signature verification and `Claims.Valid`. The signer and the parser are function parameters, and the key callback is what the model hands them.
- `time.Now().Local()`, time zones, and the second truncation of `jwt.NewNumericDate`. Clock readings are whole seconds passed in as a sequence.
- Time arithmetic overflow of `time.Time.Add` and `time.Duration`. Integers are unbounded.
- `[]byte(key)` conversion: keys are kept as strings.
- Sharing of the embedded `*RegisteredClaims` pointer, and of the `Audience` slice, between two `Claims` values. Each `Claims` is a value, so an update through one alias is not seen through another. A nil `Audience` and an empty one are the same here.
- The nil-receiver panic of `Clone`, and of the pair constructors once `JWT_SIGN_KEY` is set (with no key they return "sign key not set" before touching the receiver), and the nil-pointer panic of `Clone` on claims without a registered part and of the pair constructors on such claims once a sign key is set. Callers pass a record; those members require a registered part exactly where the source would panic.
- Full Unicode semantics of `strings.ToLower` and `strings.TrimSpace`. Lower-casing covers ASCII letters only, and white space is the ASCII set `\t \n \v \f \r` and space.
- middleware/auth.go: the gin middleware that aborts with 401 on the parser's error or an invalid token.
- gin response writing and `HealthCheckNoContent`.
