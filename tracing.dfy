/**
 * `TracingClientSession`: before a request goes out it drops `None`
 * params, and it logs the headers and body with credentials masked. The
 * request itself is forwarded with the caller's headers untouched.
 */
module Tracing {
  import opened Wrappers
  import opened Json
  import opened Text
  import opened Params

  type Headers = seq<(string, string)>

  const MASK: string := "****"

  predicate SensitiveHeader(k: string) {
    Upper(k) in {"ACCESS-KEY", "ACCESS-SIGN", "ACCESS-PASSPHRASE"}
  }

  predicate SensitiveBodyKey(k: string) {
    Upper(k) in {"APPKEY", "SECRETKEY"}
  }

  /** Header `h` as it is logged. */
  function MaskHeader(h: (string, string)): (string, string) {
    if SensitiveHeader(h.0) then (h.0, MASK) else h
  }

  /**
   * The logged copy of the headers: the same keys in the same order; a
   * sensitive key's value is masked, every other value is kept.
   */
  function MaskedHeaders(headers: Headers): (r: Headers)
    ensures |r| == |headers|
    ensures forall i :: 0 <= i < |headers| ==> r[i].0 == headers[i].0
    ensures forall i :: 0 <= i < |headers| ==>
      r[i].1 == if SensitiveHeader(headers[i].0) then MASK else headers[i].1
  {
    if headers == [] then []
    else MaskedHeaders(headers[..|headers| - 1]) + [MaskHeader(headers[|headers| - 1])]
  }

  /** Masking what is already masked changes nothing. */
  lemma MaskedHeadersIdempotent(headers: Headers)
    ensures MaskedHeaders(MaskedHeaders(headers)) == MaskedHeaders(headers)
  {
  }

  /**
   * Any value other than the mask shows up in the logged headers only where
   * the caller put it under a key that is not sensitive.
   */
  lemma NoCredentialLogged(headers: Headers, secret: string)
    requires secret != MASK
    ensures forall i :: 0 <= i < |headers| && MaskedHeaders(headers)[i].1 == secret ==>
      !SensitiveHeader(headers[i].0) && headers[i].1 == secret
  {
  }

  /** `_mask_sensitive_headers`: builds a new dictionary entry by entry. */
  method MaskSensitiveHeaders(headers: Headers) returns (masked: Headers)
    ensures masked == MaskedHeaders(headers)
  {
    masked := [];
    var i := 0;
    while i < |headers|
      invariant i <= |headers|
      invariant masked == MaskedHeaders(headers[..i])
    {
      assert headers[..i + 1][..i] == headers[..i];
      if SensitiveHeader(headers[i].0) {
        masked := masked + [(headers[i].0, MASK)];
      } else {
        masked := masked + [headers[i]];
      }
      i := i + 1;
    }
    assert headers[..i] == headers;
  }

  /** A JSON object's fields as they are logged: same keys, credential values masked. */
  function MaskedFields(fields: map<string, Json>): (r: map<string, Json>)
    ensures r.Keys == fields.Keys
    ensures forall k :: k in fields ==> r[k] == if SensitiveBodyKey(k) then JStr(MASK) else fields[k]
  {
    map k | k in fields :: if SensitiveBodyKey(k) then JStr(MASK) else fields[k]
  }

  /** The loop of `_mask_sensitive_body`: overwrite each credential field of the decoded object in place. */
  method MaskFields(fields: map<string, Json>) returns (data: map<string, Json>)
    ensures data == MaskedFields(fields)
  {
    data := fields;
    var todo := fields.Keys;
    while todo != {}
      invariant todo <= fields.Keys && data.Keys == fields.Keys
      invariant forall k :: k in todo ==> data[k] == fields[k]
      invariant forall k :: k in fields && k !in todo ==> data[k] == MaskedFields(fields)[k]
      decreases todo
    {
      var k :| k in todo;
      if SensitiveBodyKey(k) {
        data := data[k := JStr(MASK)];
      }
      todo := todo - {k};
    }
  }

  /**
   * `_mask_sensitive_body`: a JSON object is re-encoded with its
   * credential fields masked, other JSON is re-encoded as it is, and a body
   * that is not JSON is returned verbatim.
   */
  method MaskSensitiveBody(body: string, parse: string -> Option<Json>, dumps: Json -> string) returns (r: string)
    ensures r == MaskedBody(body, parse, dumps)
  {
    var data := parse(body);
    if data.None? {
      return body;
    }
    var value := data.value;
    if value.JObj? {
      var fields := MaskFields(value.fields);
      value := JObj(fields);
    }
    r := dumps(value);
  }

  function MaskedBody(body: string, parse: string -> Option<Json>, dumps: Json -> string): (r: string)
    ensures parse(body).None? ==> r == body
    ensures parse(body).Some? && !parse(body).value.JObj? ==> r == dumps(parse(body).value)
    ensures parse(body).Some? && parse(body).value.JObj? ==> r == dumps(JObj(MaskedFields(parse(body).value.fields)))
  {
    match parse(body)
    case None => body
    case Some(JObj(fields)) => dumps(JObj(MaskedFields(fields)))
    case Some(other) => dumps(other)
  }

  /** Masking the body twice is masking it once, when the encoder's output decodes back to what it encoded. */
  lemma MaskedBodyIdempotent(body: string, parse: string -> Option<Json>, dumps: Json -> string)
    requires forall j :: parse(dumps(j)) == Some(j)
    ensures MaskedBody(MaskedBody(body, parse, dumps), parse, dumps) == MaskedBody(body, parse, dumps)
  {
    match parse(body)
    case None =>
    case Some(v) =>
      var once := MaskedBody(body, parse, dumps);
      if v.JObj? {
        assert parse(once) == Some(JObj(MaskedFields(v.fields)));
        assert MaskedFields(MaskedFields(v.fields)) == MaskedFields(v.fields);
      } else {
        assert parse(once) == Some(v);
      }
  }

  /** A keyword argument: not passed at all, passed as `None`, or passed with a value. */
  datatype Kwarg<T> = Absent | PassedNone | Passed(value: T)

  /** The keyword arguments of one request that the session looks at. */
  datatype Call = Call(
    httpMethod: string, url: string, headers: Option<Headers>, params: Option<RawParams>,
    json: Kwarg<Json>, data: Kwarg<string>)

  /** What the session logs for a request and what it forwards. */
  datatype Traced = Traced(
    loggedHeaders: Headers, loggedBody: Option<string>,
    forwardedHeaders: Option<Headers>, forwardedParams: Option<QueryParams>)

  /** `str(None)`. */
  const NONE_REPR: string := "None"

  /**
   * The body text that is logged: only for POST, PUT and PATCH; from `json`
   * whenever that keyword is present (`json=None` is serialised as JSON
   * `null`), else from `data` whenever that keyword is present (`data=None`
   * is shown as `str(None)`).
   */
  function BodyRepr(c: Call, dumps: Json -> string): (r: Option<string>)
    ensures Upper(c.httpMethod) !in {"POST", "PUT", "PATCH"} ==> r.None?
    ensures Upper(c.httpMethod) in {"POST", "PUT", "PATCH"} ==>
      r == match c.json
        case Passed(j) => Some(dumps(j))
        case PassedNone => Some(dumps(JNull))
        case Absent => match c.data
          case Passed(d) => Some(d)
          case PassedNone => Some(NONE_REPR)
          case Absent => None
    ensures r.Some? <==> Upper(c.httpMethod) in {"POST", "PUT", "PATCH"} && (!c.json.Absent? || !c.data.Absent?)
  {
    if Upper(c.httpMethod) !in {"POST", "PUT", "PATCH"} then None
    else if !c.json.Absent? then Some(dumps(if c.json.Passed? then c.json.value else JNull))
    else if c.data.Passed? then Some(c.data.value)
    else if c.data.PassedNone? then Some(NONE_REPR)
    else None
  }

  /** `_request`: filter the params, mask the logged copies, forward the rest unchanged. */
  function TraceRequest(c: Call, parse: string -> Option<Json>, dumps: Json -> string): (t: Traced)
    ensures t.forwardedHeaders == c.headers
    ensures t.loggedHeaders == MaskedHeaders(c.headers.GetOr([]))
    ensures c.params.None? ==> t.forwardedParams.None?
    ensures c.params.Some? ==> t.forwardedParams == Some(DropNone(c.params.value))
    ensures t.loggedBody.Some? <==> BodyRepr(c, dumps).Some? && BodyRepr(c, dumps).value != []
    ensures t.loggedBody.Some? ==> t.loggedBody.value == MaskedBody(BodyRepr(c, dumps).value, parse, dumps)
  {
    var body := BodyRepr(c, dumps);
    var logged := if body.Some? && body.value != [] then Some(MaskedBody(body.value, parse, dumps)) else None;
    Traced(MaskedHeaders(c.headers.GetOr([])), logged, c.headers, FilterParams(c.params))
  }

  /** A GET logs no body at all, however the call was made. */
  lemma GetLogsNoBody(c: Call, parse: string -> Option<Json>, dumps: Json -> string)
    requires c.httpMethod == "GET"
    ensures TraceRequest(c, parse, dumps).loggedBody.None?
  {
    assert Upper("GET") == "GET";
  }

  /**
   * A POST whose body is passed as `data=None` still logs a body: the text
   * `None`, which is not JSON and so is shown verbatim.
   */
  lemma PostWithNoneDataLogsNone(url: string, headers: Option<Headers>, params: Option<RawParams>,
                                 parse: string -> Option<Json>, dumps: Json -> string)
    requires parse(NONE_REPR).None?
    ensures TraceRequest(Call("POST", url, headers, params, Absent, PassedNone), parse, dumps).loggedBody == Some(NONE_REPR)
  {
    var c := Call("POST", url, headers, params, Absent, PassedNone);
    assert BodyRepr(c, dumps) == Some(NONE_REPR) by {
      assert Upper("POST") == "POST";
    }
  }
}
