/**
 * Package `osearch` (datastore/osearch/opensearch.go): building the client
 * configuration from the environment. The document and index operations are
 * single HTTP calls into the search client and are not part of this model.
 */
module Osearch {
  import opened GoStrings
  import opened OsEnv
  import opened OpensearchConfig

  const DefaultMaxRetries: nat := 5
  const DefaultOpensearchAddr: string := "https://127.0.0.1:9200"
  const DefaultUsername: string := "admin"
  const DefaultPasswd: string := "admin"

  const UrlsVar: string := "OPENSEARCH_URLS"
  const UsernameVar: string := "OPENSEARCH_USERNAME"
  const SecretVar: string := "OPENSEARCH_SECRET"

  /**
   * The server list `getUrls` yields for an `OPENSEARCH_URLS` value: the
   * cleaned entries, or the default address when the value is "" or none of
   * its entries is non-blank.
   */
  function ServerUrls(urlstr: string): (urls: seq<string>)
    ensures |urls| >= 1
    ensures |urls| <= Count(urlstr, ',') + 1
    ensures forall u :: u in urls ==> u != [] && IsTrimmed(u)
    ensures urlstr == [] ==> urls == [DefaultOpensearchAddr]
  {
    if urlstr == [] then [DefaultOpensearchAddr]
    else
      var out := CleanUrls(Split(urlstr, ','));
      if out == [] then [DefaultOpensearchAddr] else out
  }

  /**
   * The early return for "" is only a shortcut: the list is the cleaned
   * entries when there are any and the default address otherwise.
   */
  lemma ServerUrlsIsCleanedOrDefault(urlstr: string)
    ensures var cleaned := CleanUrls(Split(urlstr, ','));
      ServerUrls(urlstr) == if cleaned == [] then [DefaultOpensearchAddr] else cleaned
  {
    if urlstr == [] {
      assert Split(urlstr, ',') == [[]];
      CleanUrlsAllBlank([[]]);
    }
  }

  /** An all-blank value such as " , ," falls back to the default address. */
  lemma ServerUrlsAllBlank(urlstr: string)
    requires forall i :: 0 <= i < |urlstr| ==> urlstr[i] == ',' || IsSpace(urlstr[i])
    ensures ServerUrls(urlstr) == [DefaultOpensearchAddr]
  {
    var parts := Split(urlstr, ',');
    forall i | 0 <= i < |parts| ensures AllSpace(parts[i]) {
      SplitPiecesAvoid(urlstr, ',', i);
    }
    CleanUrlsAllBlank(parts);
  }

  /** Every character of every piece of a split comes from the split string and is not the separator. */
  lemma {:induction false} SplitPiecesAvoid(s: string, sep: char, i: nat)
    requires i < |Split(s, sep)|
    requires forall k :: 0 <= k < |s| ==> s[k] == sep || IsSpace(s[k])
    ensures AllSpace(Split(s, sep)[i])
  {
    if s != [] {
      var rest := Split(s[1..], sep);
      if s[0] == sep {
        if i > 0 { SplitPiecesAvoid(s[1..], sep, i - 1); }
      } else if i == 0 {
        SplitPiecesAvoid(s[1..], sep, 0);
      } else {
        SplitPiecesAvoid(s[1..], sep, i);
      }
    }
  }

  /** `getUrls`: split `OPENSEARCH_URLS` on ',', keep the trimmed non-blank entries, default if none. */
  method GetUrls(env: Env) returns (urls: seq<string>)
    ensures urls == ServerUrls(Getenv(env, UrlsVar))
  {
    var urlstr := Getenv(env, UrlsVar);
    if urlstr == [] {
      return [DefaultOpensearchAddr];
    }

    var parts := Split(urlstr, ',');
    var out: seq<string> := [];
    for i := 0 to |parts|
      invariant out == CleanUrls(parts[..i])
    {
      var cu := TrimSpace(parts[i]);
      if cu != [] {
        out := out + [cu];
      }
      CleanUrlsPrefix(parts, i);
    }
    assert parts[..|parts|] == parts;
    assert out == CleanUrls(Split(urlstr, ','));
    if |out| == 0 {
      return [DefaultOpensearchAddr];
    }
    return out;
  }

  /** `NewOpenSearchClient`: the configuration for the given credentials and addresses, as given. */
  function NewOpenSearchClient(username: string, password: string, urls: seq<string>): (c: Config)
    ensures c.addresses == urls && c.username == username && c.password == password
    ensures c.maxRetries == DefaultMaxRetries && c.retryOnStatus == RetryOnStatus && c.insecureSkipVerify
  {
    Config(urls, DefaultMaxRetries, username, password, RetryOnStatus, true)
  }

  /**
   * `DefaultClient`: credentials from the environment, each defaulting to
   * "admin" when empty, and the server list from `getUrls`.
   */
  method DefaultClient(env: Env) returns (client: Config)
    ensures Getenv(env, UsernameVar) == [] ==> client.username == DefaultUsername
    ensures Getenv(env, UsernameVar) != [] ==> client.username == Getenv(env, UsernameVar)
    ensures Getenv(env, SecretVar) == [] ==> client.password == DefaultPasswd
    ensures Getenv(env, SecretVar) != [] ==> client.password == Getenv(env, SecretVar)
    ensures client.username != [] && client.password != []
    ensures client.addresses == ServerUrls(Getenv(env, UrlsVar))
    ensures client.maxRetries == DefaultMaxRetries && client.retryOnStatus == RetryOnStatus
    ensures client.insecureSkipVerify
  {
    var username := Getenv(env, UsernameVar);
    if username == [] {
      username := DefaultUsername;
    }
    var password := Getenv(env, SecretVar);
    if password == [] {
      password := DefaultPasswd;
    }

    var urls := GetUrls(env);
    client := NewOpenSearchClient(username, password, urls);
  }
}
