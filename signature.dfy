/**
 * `generate_signature`: Bitget's request signature, Base64 of the
 * HMAC-SHA256 of `timestamp + METHOD + path[?query] + body` under the
 * secret key. The digest and the encoding are parameters.
 */
module Signature {
  import opened Wrappers
  import opened Text

  type Digest = seq<bv8>

  /** `request_path`, followed by `?query` when the query is non-empty. */
  function SignedPath(path: string, query: string): (r: string)
    ensures |path| <= |r| && r[..|path|] == path
    ensures query == [] <==> r == path
    ensures query != [] ==> r[|path|] == '?' && r[|path| + 1..] == query
  {
    if query == [] then path else path + "?" + query
  }

  /** Splitting a signed path at its first `?` gives back the path and the query. */
  function SplitSignedPath(full: string): (r: (string, string))
  {
    match FirstIndex(full, '?')
    case None => (full, "")
    case Some(i) => (full[..i], full[i + 1..])
  }

  lemma SignedPathRoundTrip(path: string, query: string)
    requires '?' !in path
    ensures SplitSignedPath(SignedPath(path, query)) == (path, query)
  {
    var full := SignedPath(path, query);
    if query != [] {
      assert full[|path|] == '?';
      assert full[..|path|] == path;
    }
  }

  /**
   * The string that is signed: the timestamp, the upper-cased method, the
   * signed path and the body, one after the other. A `None` or empty query,
   * and a `None` or empty body, contribute nothing.
   */
  function PreSign(timestamp: string, httpMethod: string, requestPath: string,
                   query: Option<string>, body: Option<string>): (r: string)
    ensures |r| == |timestamp| + |httpMethod| + |SignedPath(requestPath, query.GetOr(""))| + |body.GetOr("")|
    ensures r[..|timestamp|] == timestamp
    ensures var t, m, p := |timestamp|, |httpMethod|, |SignedPath(requestPath, query.GetOr(""))|;
      && r[t..t + m] == Upper(httpMethod)
      && r[t + m..t + m + p] == SignedPath(requestPath, query.GetOr(""))
      && r[t + m + p..] == body.GetOr("")
  {
    timestamp + Upper(httpMethod) + SignedPath(requestPath, query.GetOr("")) + body.GetOr("")
  }

  function GenerateSignature(secretKey: string, timestamp: string, httpMethod: string, requestPath: string,
                             query: Option<string>, body: Option<string>,
                             hmacSha256: (string, string) -> Digest, b64: Digest -> string): (sig: string)
  {
    b64(hmacSha256(secretKey, PreSign(timestamp, httpMethod, requestPath, query, body)))
  }

  /** The signature depends on the request only through the secret and the pre-sign string. */
  lemma SignatureDependsOnPreSign(secretKey: string, hmacSha256: (string, string) -> Digest, b64: Digest -> string,
                                  t1: string, m1: string, p1: string, q1: Option<string>, b1: Option<string>,
                                  t2: string, m2: string, p2: string, q2: Option<string>, b2: Option<string>)
    requires PreSign(t1, m1, p1, q1, b1) == PreSign(t2, m2, p2, q2, b2)
    ensures GenerateSignature(secretKey, t1, m1, p1, q1, b1, hmacSha256, b64)
         == GenerateSignature(secretKey, t2, m2, p2, q2, b2, hmacSha256, b64)
  {
  }

  /** The method is upper-cased before signing, so its case does not matter. */
  lemma {:induction false} MethodCaseIgnored(timestamp: string, m1: string, m2: string, requestPath: string,
                                             query: Option<string>, body: Option<string>)
    requires Upper(m1) == Upper(m2)
    ensures PreSign(timestamp, m1, requestPath, query, body) == PreSign(timestamp, m2, requestPath, query, body)
  {
  }

  /**
   * The fields are not delimited: a path `/a` with body `b` signs the same
   * string as a path `/ab` with no body.
   */
  lemma PathBodyBoundaryAmbiguous()
    ensures PreSign("1", "POST", "/a", None, Some("b")) == PreSign("1", "POST", "/ab", None, None)
  {
  }
}
