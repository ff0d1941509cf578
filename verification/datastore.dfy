/**
 * Package `datastore` (datastore/opensearch.go): the package-level client
 * built at start-up from `OPENSEARCH_URLS`. The document and index
 * operations are single HTTP calls into the search client and are not part
 * of this model.
 */
module Datastore {
  import opened Wrappers
  import opened GoStrings
  import opened OsEnv
  import opened OpensearchConfig

  const DefaultOpensearchAddr: string := "https://127.0.0.1:9200"
  const UrlsVar: string := "OPENSEARCH_URLS"

  /** The addresses `NewOpenSearchClient` passes on: the given list, or the default address for an empty one. */
  function Addresses(urls: seq<string>): (addrs: seq<string>)
    ensures |addrs| >= 1
    ensures urls != [] ==> addrs == urls
  {
    if urls == [] then [DefaultOpensearchAddr] else urls
  }

  /** `NewOpenSearchClient(urls...)`: an empty list is replaced by the default address; the credentials are fixed. */
  method NewOpenSearchClient(urls: seq<string>) returns (client: Config)
    ensures client.addresses == Addresses(urls)
    ensures urls == [] ==> client.addresses == [DefaultOpensearchAddr]
    ensures client.username == "admin" && client.password == "admin"
    ensures client.maxRetries == 5 && client.retryOnStatus == RetryOnStatus && client.insecureSkipVerify
  {
    var addrs := urls;
    if |addrs| == 0 {
      addrs := [DefaultOpensearchAddr];
    }
    client := Config(addrs, 5, "admin", "admin", RetryOnStatus, true);
  }

  /** An empty `OPENSEARCH_URLS` cleans to an empty list: splitting "" gives one blank entry. */
  lemma EmptyEnvCleansToNothing()
    ensures CleanUrls(Split([], ',')) == []
  {
    assert Split([], ',') == [[]];
    CleanUrlsAllBlank([[]]);
  }

  /** The package state: the global `OpenSearchClient`, nil until `init` has run. */
  class Package {
    var openSearchClient: Option<Config>

    constructor ()
      ensures openSearchClient == None
    {
      openSearchClient := None;
    }

    /**
     * `init`: clean the comma-separated `OPENSEARCH_URLS` entries and build
     * the client from them. The credentials do not come from the environment.
     */
    method Init(env: Env)
      modifies this
      ensures openSearchClient ==
        Some(Config(Addresses(CleanUrls(Split(Getenv(env, UrlsVar), ','))), 5, "admin", "admin", RetryOnStatus, true))
    {
      var envUrls := Getenv(env, UrlsVar);
      var uncleanUrls := Split(envUrls, ',');

      var out: seq<string> := [];
      for i := 0 to |uncleanUrls|
        invariant out == CleanUrls(uncleanUrls[..i])
      {
        var clean := TrimSpace(uncleanUrls[i]);
        CleanUrlsPrefix(uncleanUrls, i);
        if clean == [] {
          continue;
        }
        out := out + [clean];
      }
      assert uncleanUrls[..|uncleanUrls|] == uncleanUrls;

      var client := NewOpenSearchClient(out);
      openSearchClient := Some(client);
    }
  }
}
