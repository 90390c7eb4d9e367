/**
 * `SignatureClient`: the authenticated Bitget REST client. Every request
 * is signed with the current time in milliseconds; only GET carries a
 * query, and only the other methods carry a JSON body.
 */
module SignatureClient {
  import opened Wrappers
  import opened Json
  import opened Text
  import opened Params
  import Signature

  type Headers = seq<(string, string)>

  /** `"&".join(f"{k}={v}" ...)`: no percent-encoding; empty for absent or empty params. */
  function QueryString(params: Option<QueryParams>): (q: string)
    ensures params.None? || params.value == [] ==> q == ""
    ensures params.Some? && params.value != [] ==> q != []
  {
    match params
    case None => ""
    case Some(ps) =>
      var q := Join("&", Pairs(ps));
      assert ps != [] ==> '=' in Pairs(ps)[|ps| - 1];
      assert ps != [] ==> q != [] by {
        if ps != [] {
          JoinLength("&", Pairs(ps));
          SumLengthsPositive(Pairs(ps));
        }
      }
      q
  }

  function Pairs(ps: QueryParams): (r: seq<string>)
    ensures |r| == |ps| && forall i :: 0 <= i < |ps| ==> r[i] == ps[i].0 + "=" + ps[i].1
  {
    if ps == [] then [] else Pairs(ps[..|ps| - 1]) + [ps[|ps| - 1].0 + "=" + ps[|ps| - 1].1]
  }

  lemma {:induction false} SumLengthsPositive(parts: seq<string>)
    requires parts != [] && parts[|parts| - 1] != []
    ensures SumLengths(parts) > 0
  {
  }

  /** Reads a query string back into its entries: `&` separates entries, the first `=` splits each. */
  function ParseQuery(q: string): QueryParams {
    if q == [] then [] else ParsePairs(Split('&', q))
  }

  function ParsePairs(parts: seq<string>): (r: QueryParams)
    ensures |r| == |parts|
  {
    if parts == [] then []
    else
      var p := parts[|parts| - 1];
      ParsePairs(parts[..|parts| - 1]) +
        match FirstIndex(p, '=')
        case None => [(p, "")]
        case Some(i) => [(p[..i], p[i + 1..])]
  }

  /** Keys free of `&` and `=`, values free of `&`: the query string can be read back. */
  predicate Unambiguous(ps: QueryParams) {
    forall i :: 0 <= i < |ps| ==> '&' !in ps[i].0 && '=' !in ps[i].0 && '&' !in ps[i].1
  }

  lemma {:induction false} ParsePairsOfPairs(ps: QueryParams)
    requires Unambiguous(ps)
    ensures ParsePairs(Pairs(ps)) == ps
  {
    if ps != [] {
      var front := ps[..|ps| - 1];
      var (k, v) := ps[|ps| - 1];
      assert Pairs(ps)[..|ps| - 1] == Pairs(front);
      ParsePairsOfPairs(front);
      var p := k + "=" + v;
      assert p[|k|] == '=' && p[..|k|] == k && p[|k| + 1..] == v;
      assert FirstIndex(p, '=') == Some(|k|);
    }
  }

  /** The query string is a faithful encoding of the params when keys and values avoid the separators. */
  lemma QueryStringRoundTrip(ps: QueryParams)
    requires Unambiguous(ps)
    ensures ParseQuery(QueryString(Some(ps))) == ps
  {
    if ps != [] {
      var parts := Pairs(ps);
      forall i | 0 <= i < |parts|
        ensures '&' !in parts[i]
      {
        assert parts[i] == ps[i].0 + "=" + ps[i].1;
      }
      SplitJoin('&', parts);
      ParsePairsOfPairs(ps);
    }
  }

  /** Without percent-encoding, a value holding `&` signs the same query as two separate entries. */
  lemma UnencodedValuesCollide()
    ensures QueryString(Some([("a", "1&b=2")])) == QueryString(Some([("a", "1"), ("b", "2")]))
  {
    var two := [("a", "1"), ("b", "2")];
    assert "a" + "=" + "1" == "a=1" && "b" + "=" + "2" == "b=2";
    assert Pairs(two) == ["a=1", "b=2"];
    assert "a" + "=" + "1&b=2" == "a=1&b=2";
    assert ["a=1", "b=2"][..1] == ["a=1"];
    assert Join("&", ["a=1", "b=2"]) == "a=1&b=2";
  }

  /** The request's JSON body, minified, or `""` when there is none. */
  function BodyString(jsonBody: Option<Json>, minify: Json -> string): (s: string)
    ensures jsonBody.None? ==> s == ""
  {
    match jsonBody
    case None => ""
    case Some(j) => minify(j)
  }

  /** What `_request` hands on to the plain client. */
  datatype Outgoing = Outgoing(httpMethod: string, path: string, params: Option<QueryParams>,
                               jsonBody: Option<Json>, headers: Headers)

  datatype SignatureClient = SignatureClient(baseUrl: string, accessKey: string, secretKey: string, passphrase: string)
  {
    /** The session's default headers: the access key travels with every request. */
    function DefaultHeaders(): (h: Headers)
      ensures ("ACCESS-KEY", accessKey) in h
      ensures forall i :: 0 <= i < |h| ==> h[i].0 != "ACCESS-SIGN" && h[i].0 != "ACCESS-PASSPHRASE"
    {
      [("Content-Type", "application/json"), ("Accept", "application/json"),
       ("ACCESS-KEY", accessKey), ("locale", "ko-KR")]
    }

    /** `_sign`: exactly the four auth headers, stamped with the given clock reading. */
    function Sign(httpMethod: string, path: string, params: Option<QueryParams>, body: string, nowMs: nat,
                  hmacSha256: (string, string) -> Signature.Digest, b64: Signature.Digest -> string): (h: Headers)
      ensures |h| == 4
      ensures h[0] == ("ACCESS-KEY", accessKey) && h[3] == ("ACCESS-PASSPHRASE", passphrase)
      ensures h[1].0 == "ACCESS-SIGN" && h[2].0 == "ACCESS-TIMESTAMP"
      ensures h[2].1 != [] && forall i :: 0 <= i < |h[2].1| ==> IsDigit(h[2].1[i])
      ensures DigitsValue(h[2].1) == nowMs
      ensures h[1].1 == Signature.GenerateSignature(secretKey, h[2].1, httpMethod, path,
                                                     Some(QueryString(params)), Some(body), hmacSha256, b64)
    {
      var timestamp := NatToString(nowMs);
      NatToStringRoundTrip(nowMs);
      var sign := Signature.GenerateSignature(secretKey, timestamp, httpMethod, path,
                                              Some(QueryString(params)), Some(body), hmacSha256, b64);
      [("ACCESS-KEY", accessKey), ("ACCESS-SIGN", sign), ("ACCESS-TIMESTAMP", timestamp), ("ACCESS-PASSPHRASE", passphrase)]
    }

    /**
     * `_request`: drop `None` params, sign, and forward. The caller's own
     * headers are replaced by the auth headers.
     */
    function Request(httpMethod: string, path: string, params: Option<RawParams>, jsonBody: Option<Json>,
                     callerHeaders: Headers, nowMs: nat, minify: Json -> string,
                     hmacSha256: (string, string) -> Signature.Digest, b64: Signature.Digest -> string): (o: Outgoing)
      ensures o.httpMethod == httpMethod && o.path == path
      ensures httpMethod == "GET" ==> o.params == FilterParams(params) && o.jsonBody.None?
      ensures httpMethod != "GET" ==> o.params.None? && o.jsonBody == jsonBody
      ensures o.headers == Sign(httpMethod, path, if httpMethod == "GET" then FilterParams(params) else None,
                                BodyString(jsonBody, minify), nowMs, hmacSha256, b64)
    {
      var filtered := FilterParams(params);
      var signed := if httpMethod == "GET" then filtered else None;
      var auth := Sign(httpMethod, path, signed, BodyString(jsonBody, minify), nowMs, hmacSha256, b64);
      Outgoing(httpMethod, path, signed, if httpMethod != "GET" then jsonBody else None, auth)
    }
  }

  /** An entry whose value is `None` never reaches the signed query nor the sent params. */
  lemma NoneParamsNeverSent(c: SignatureClient, path: string, params: RawParams, jsonBody: Option<Json>,
                            callerHeaders: Headers, nowMs: nat, minify: Json -> string,
                            hmacSha256: (string, string) -> Signature.Digest, b64: Signature.Digest -> string,
                            k: string)
    requires forall v :: (k, Some(v)) !in params
    ensures var o := c.Request("GET", path, Some(params), jsonBody, callerHeaders, nowMs, minify, hmacSha256, b64);
      o.params.Some? && forall v :: (k, v) !in o.params.value
  {
  }

  /** Every method but GET signs an empty query and sends no params, whatever params were given. */
  lemma OnlyGetSignsQuery(c: SignatureClient, httpMethod: string, path: string, params: Option<RawParams>,
                          jsonBody: Option<Json>, callerHeaders: Headers, nowMs: nat, minify: Json -> string,
                          hmacSha256: (string, string) -> Signature.Digest, b64: Signature.Digest -> string)
    requires httpMethod != "GET"
    ensures var o := c.Request(httpMethod, path, params, jsonBody, callerHeaders, nowMs, minify, hmacSha256, b64);
      o.params.None? &&
      o.headers[1].1 == Signature.GenerateSignature(c.secretKey, NatToString(nowMs), httpMethod, path,
                                                    None, Some(BodyString(jsonBody, minify)), hmacSha256, b64)
  {
  }

  /** GET never carries a body, so it signs an empty one. */
  lemma GetSignsEmptyBody(c: SignatureClient, path: string, params: Option<RawParams>,
                          callerHeaders: Headers, nowMs: nat, minify: Json -> string,
                          hmacSha256: (string, string) -> Signature.Digest, b64: Signature.Digest -> string)
    ensures var o := c.Request("GET", path, params, None, callerHeaders, nowMs, minify, hmacSha256, b64);
      o.jsonBody.None? &&
      o.headers[1].1 == Signature.GenerateSignature(c.secretKey, NatToString(nowMs), "GET", path,
                                                    Some(QueryString(FilterParams(params))), None, hmacSha256, b64)
  {
  }

  /**
   * The body that is signed is the body that is sent: the plain client
   * serialises `json_body` with the same compact separators.
   */
  function SentData(o: Outgoing, minify: Json -> string): (d: Option<string>)
    ensures d.None? <==> o.jsonBody.None?
  {
    match o.jsonBody
    case None => None
    case Some(j) => Some(minify(j))
  }

  lemma SignedBodyIsSentBody(c: SignatureClient, httpMethod: string, path: string, params: Option<RawParams>,
                             body: Json, callerHeaders: Headers, nowMs: nat, minify: Json -> string,
                             hmacSha256: (string, string) -> Signature.Digest, b64: Signature.Digest -> string)
    requires httpMethod != "GET"
    ensures var o := c.Request(httpMethod, path, params, Some(body), callerHeaders, nowMs, minify, hmacSha256, b64);
      SentData(o, minify) == Some(BodyString(Some(body), minify))
  {
  }

  /** The caller's headers have no influence on what is sent. */
  lemma CallerHeadersDropped(c: SignatureClient, httpMethod: string, path: string, params: Option<RawParams>,
                             jsonBody: Option<Json>, h1: Headers, h2: Headers, nowMs: nat, minify: Json -> string,
                             hmacSha256: (string, string) -> Signature.Digest, b64: Signature.Digest -> string)
    ensures c.Request(httpMethod, path, params, jsonBody, h1, nowMs, minify, hmacSha256, b64)
         == c.Request(httpMethod, path, params, jsonBody, h2, nowMs, minify, hmacSha256, b64)
  {
  }
}
