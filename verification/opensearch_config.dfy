/**
 * What both datastore packages hand to `opensearch.NewClient`, and the
 * server-list cleaning rule they both apply to `OPENSEARCH_URLS`.
 */
module OpensearchConfig {
  import opened GoStrings

  /** The `opensearch.Config` fields the packages set. */
  datatype Config = Config(
    addresses: seq<string>,
    maxRetries: nat,
    username: string,
    password: string,
    retryOnStatus: seq<int>,
    insecureSkipVerify: bool)

  /** The status codes on which the client retries: 502, 503 and 504. */
  const RetryOnStatus: seq<int> := [502, 503, 504]

  /**
   * The comma-separated entries after cleaning: each entry trimmed, the
   * blank ones dropped, the rest kept in their original order.
   */
  function CleanUrls(entries: seq<string>): (urls: seq<string>)
    ensures |urls| <= |entries|
    ensures forall u :: u in urls ==> u != [] && IsTrimmed(u)
  {
    if entries == [] then [] else CleanEntry(entries[0]) + CleanUrls(entries[1..])
  }

  /** What one entry contributes: its trimmed form, or nothing when that is blank. */
  function CleanEntry(e: string): (urls: seq<string>)
    ensures |urls| <= 1
    ensures forall u :: u in urls ==> u != [] && IsTrimmed(u)
  {
    var cu := TrimSpace(e);
    if cu == [] then [] else [cu]
  }

  /**
   * Cleaning works entry by entry: the result for a concatenation is the
   * concatenation of the results, so the output keeps the input's order and
   * each entry contributes its own trimmed form or nothing.
   */
  lemma {:induction false} CleanUrlsAppend(a: seq<string>, b: seq<string>)
    ensures CleanUrls(a + b) == CleanUrls(a) + CleanUrls(b)
  {
    if a != [] {
      assert (a + b)[0] == a[0] && (a + b)[1..] == a[1..] + b;
      CleanUrlsAppend(a[1..], b);
      calc {
        CleanUrls(a + b);
        CleanEntry(a[0]) + CleanUrls(a[1..] + b);
        CleanEntry(a[0]) + (CleanUrls(a[1..]) + CleanUrls(b));
        (CleanEntry(a[0]) + CleanUrls(a[1..])) + CleanUrls(b);
        CleanUrls(a) + CleanUrls(b);
      }
    } else {
      assert a + b == b;
    }
  }

  /** Cleaning one more entry of a list appends that entry's contribution. */
  lemma CleanUrlsPrefix(entries: seq<string>, i: nat)
    requires i < |entries|
    ensures CleanUrls(entries[..i + 1]) == CleanUrls(entries[..i]) + CleanEntry(entries[i])
  {
    assert entries[..i + 1] == entries[..i] + [entries[i]];
    CleanUrlsAppend(entries[..i], [entries[i]]);
    CleanUrlsOne(entries[i]);
  }

  /** A single entry contributes exactly its own cleaning. */
  lemma CleanUrlsOne(e: string)
    ensures CleanUrls([e]) == CleanEntry(e)
  {
    assert [e][1..] == [];
  }

  /** A URL is kept exactly when some entry trims to it. */
  lemma {:induction false} CleanUrlsMember(entries: seq<string>, u: string)
    ensures u in CleanUrls(entries) <==> u != [] && exists e :: e in entries && TrimSpace(e) == u
  {
    if entries != [] {
      CleanUrlsMember(entries[1..], u);
      if u != [] && TrimSpace(entries[0]) != u && exists e :: e in entries && TrimSpace(e) == u {
        var e :| e in entries && TrimSpace(e) == u;
        assert e in entries[1..];
      }
    }
  }

  /** An entry string with no non-blank part (such as "" or " , ,") cleans to nothing. */
  lemma {:induction false} CleanUrlsAllBlank(entries: seq<string>)
    requires forall i :: 0 <= i < |entries| ==> AllSpace(entries[i])
    ensures CleanUrls(entries) == []
  {
    if entries != [] {
      BlankIffAllSpace(entries[0]);
      CleanUrlsAllBlank(entries[1..]);
    }
  }
}
