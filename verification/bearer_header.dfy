/**
 * The guard checks that `ParseBearerJwtFromAuthHeader` runs before handing
 * a token to the JWT parser. The same code appears in package `token` and
 * in package `util`. The header is split on single spaces into exactly two
 * parts, and the scheme is compared case-insensitively as section 2.1 of
 * RFC 7235 asks. Unlike the `Bearer 1*SP b64token` form of section 2.1 of
 * RFC 6750, a doubled space is refused, and any space-free token is
 * accepted without a check of its characters.
 */
module BearerHeader {
  import opened Wrappers
  import opened GoStrings
  import opened JwtLib

  /**
   * The token the header carries, or the first guard that rejects it:
   * the part count, then the scheme, then emptiness.
   */
  function BearerToken(header: string): (r: Result<string, Error>)
    ensures r == Err(InvalidAuthorizationHeader) <==> Count(header, ' ') != 1
    ensures r.Ok? ==> r.value != [] && ' ' !in r.value
    ensures r.Err? && r.error.UnsupportedToken? ==>
      ' ' !in r.error.scheme && ToLower(r.error.scheme) != "bearer"
  {
    var parts := Split(header, ' ');
    if |parts| != 2 then Err(InvalidAuthorizationHeader)
    else if ToLower(parts[0]) != "bearer" then Err(UnsupportedToken(parts[0]))
    else if parts[1] == [] then Err(EmptyToken)
    else Ok(parts[1])
  }

  /** The shape of an acceptable header: a bearer scheme, one space, a non-empty token, no other space. */
  predicate BearerForm(header: string, scheme: string, token: string) {
    && header == scheme + " " + token
    && ' ' !in scheme && ' ' !in token
    && ToLower(scheme) == "bearer"
    && token != []
  }

  /** A header of the bearer form is accepted, and the token handed on is exactly the text after the space. */
  lemma AcceptsBearerForm(scheme: string, token: string)
    requires BearerForm(scheme + " " + token, scheme, token)
    ensures BearerToken(scheme + " " + token) == Ok(token)
  {
    SplitAfterWord(scheme, token, ' ');
    SplitWithoutSeparator(token, ' ');
    assert Split(scheme + " " + token, ' ') == [scheme, token];
  }

  /** An accepted header has the bearer form around the token it yields. */
  lemma AcceptedHasBearerForm(header: string)
    requires BearerToken(header).Ok?
    ensures var token := BearerToken(header).value;
      |token| < |header| && BearerForm(header, header[..|header| - |token| - 1], token)
  {
    var parts := Split(header, ' ');
    JoinSplit(header, ' ');
    assert header == parts[0] + [' '] + parts[1];
    assert header[..|header| - |parts[1]| - 1] == parts[0];
  }

  /** Both directions: the header yields `token` exactly when it is of the bearer form around it. */
  lemma BearerTokenIff(header: string, token: string)
    ensures BearerToken(header) == Ok(token) <==>
      |token| < |header| && BearerForm(header, header[..|header| - |token| - 1], token)
  {
    if BearerToken(header) == Ok(token) {
      AcceptedHasBearerForm(header);
    }
    if |token| < |header| && BearerForm(header, header[..|header| - |token| - 1], token) {
      AcceptsBearerForm(header[..|header| - |token| - 1], token);
    }
  }

  /** The scheme test ignores case: "Bearer", "BEARER" and "bearer" are treated alike. */
  lemma SchemeIgnoresCase(s1: string, s2: string, token: string)
    requires ' ' !in s1 && ' ' !in s2 && ' ' !in token
    requires ToLower(s1) == ToLower(s2)
    ensures BearerToken(s1 + " " + token).Ok? == BearerToken(s2 + " " + token).Ok?
  {
    SplitAfterWord(s1, token, ' ');
    SplitAfterWord(s2, token, ' ');
    SplitWithoutSeparator(token, ' ');
  }

  /** A scheme that is not "bearer" in any case is rejected, and the error names it. */
  lemma OtherSchemeRejected(scheme: string, token: string)
    requires ' ' !in scheme && ' ' !in token
    requires ToLower(scheme) != "bearer"
    ensures BearerToken(scheme + " " + token) == Err(UnsupportedToken(scheme))
  {
    SplitAfterWord(scheme, token, ' ');
    SplitWithoutSeparator(token, ' ');
  }

  /** The header "fobbar" has no space and "Bearer  x" has two: both have the wrong number of parts. */
  lemma WrongPartCounts()
    ensures BearerToken("fobbar") == Err(InvalidAuthorizationHeader)
    ensures BearerToken("Bearer  x") == Err(InvalidAuthorizationHeader)
    ensures BearerToken("bearer a b") == Err(InvalidAuthorizationHeader)
  {
    assert Count("fobbar", ' ') == 0;
    assert Count("Bearer  x", ' ') == 2;
    assert Count("bearer a b", ' ') == 2;
  }

  lemma LowerBearer()
    ensures ToLower("bearer") == "bearer"
  {
    var b := "bearer";
    assert forall i :: 0 <= i < 6 ==> 'a' <= b[i] <= 'z';
    assert forall i :: 0 <= i < 6 ==> ToLower(b)[i] == b[i];
  }

  /** "blubber fobbar" names a scheme other than bearer. */
  lemma OtherSchemeExample()
    ensures BearerToken("blubber fobbar") == Err(UnsupportedToken("blubber"))
  {
    assert "blubber fobbar" == "blubber" + " " + "fobbar";
    assert |ToLower("blubber")| == 7;
    OtherSchemeRejected("blubber", "fobbar");
  }

  /** The guards run in order: "basic " fails on its scheme before its empty token is noticed. */
  lemma SchemeCheckedBeforeEmptiness()
    ensures BearerToken("basic ") == Err(UnsupportedToken("basic"))
  {
    assert "basic " == "basic" + " " + "";
    assert |ToLower("basic")| == 5;
    OtherSchemeRejected("basic", "");
  }

  /** "bearer " has the right scheme and nothing after the space. */
  lemma EmptyTokenExample()
    ensures BearerToken("bearer ") == Err(EmptyToken)
  {
    SplitAfterWord("bearer", "", ' ');
    assert "bearer " == "bearer" + [' '] + "";
    assert Split("bearer ", ' ') == ["bearer", ""];
    LowerBearer();
  }

  /** Any spelling of the bearer scheme followed by a space and nothing else is refused as an empty token. */
  lemma EmptyTokenRejected(scheme: string)
    requires ' ' !in scheme && ToLower(scheme) == "bearer"
    ensures BearerToken(scheme + " ") == Err(EmptyToken)
  {
    SplitAfterWord(scheme, "", ' ');
    assert scheme + " " == scheme + [' '] + "";
  }

  /** "bearer fobbar" passes every guard: its rejection comes from the JWT parser, not from here. */
  lemma WellFormedExample()
    ensures BearerToken("bearer fobbar") == Ok("fobbar")
  {
    LowerBearer();
    assert "bearer fobbar" == "bearer" + " " + "fobbar";
    assert ' ' !in "bearer" && ' ' !in "fobbar";
    AcceptsBearerForm("bearer", "fobbar");
  }
}
