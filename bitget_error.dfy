/**
 * `BitgetError`: the exception built from an error response of the Bitget
 * REST API. The code must be one the enumeration knows; the other fields
 * are copied when present.
 */
module BitgetError {
  import opened Wrappers
  import opened Json

  /** `BitgetErrorCode`: one member, named by the exchange's code string. */
  datatype BitgetErrorCode = INSUFFICIENT_BALANCE {
    function Name(): string {
      "INSUFFICIENT_BALANCE"
    }

    function Value(): string {
      "40762"
    }
  }

  /** `BitgetErrorCode(value)`: the member with this value; any other value (or `None`) raises `ValueError`. */
  function CodeOf(v: Option<Json>): (r: Option<BitgetErrorCode>)
    ensures r.Some? <==> v == Some(JStr("40762"))
    ensures r.Some? ==> JStr(r.value.Value()) == v.value
  {
    if v == Some(JStr("40762")) then Some(INSUFFICIENT_BALANCE) else None
  }

  /** `dict.get(key)`: a missing key and a JSON `null` both read as `None`. */
  function PyGet(resp: map<string, Json>, key: string): (r: Option<Json>)
    ensures r.Some? <==> key in resp && resp[key] != JNull
    ensures r.Some? ==> r.value == resp[key]
  {
    if key in resp && resp[key] != JNull then Some(resp[key]) else None
  }

  /** `str(x)` inside an f-string: `None` for None, a string as itself, anything else through `repr`. */
  function Show(v: Option<Json>, repr: Json -> string): (s: string)
    ensures v == None ==> s == "None"
    ensures v.Some? && v.value.JStr? ==> s == v.value.s
  {
    match v
    case None => "None"
    case Some(JStr(s)) => s
    case Some(j) => repr(j)
  }

  /** The exception's text: `Bitget API Error NAME(VALUE): msg`. */
  function Message(code: BitgetErrorCode, shown: string): string {
    "Bitget API Error " + code.Name() + "(" + code.Value() + "): " + shown
  }

  datatype Error = Error(code: BitgetErrorCode, msg: Option<Json>, requestTime: Option<Json>, data: Option<Json>, message: string)

  /** Why construction itself fails: the enumeration lookup raised. */
  datatype ConstructionFailure = UnknownCode(code: Option<Json>)

  /** `BitgetError(error_resp)`. */
  function FromResponse(resp: map<string, Json>, repr: Json -> string): (r: Result<Error, ConstructionFailure>)
    ensures r.Ok? <==> PyGet(resp, "code") == Some(JStr("40762"))
    ensures r.Err? ==> r.error == UnknownCode(PyGet(resp, "code"))
    ensures r.Ok? ==> r.value.code == INSUFFICIENT_BALANCE
    ensures r.Ok? ==> r.value.msg == PyGet(resp, "msg") && r.value.requestTime == PyGet(resp, "requestTime")
                      && r.value.data == PyGet(resp, "data")
  {
    match CodeOf(PyGet(resp, "code"))
    case None => Err(UnknownCode(PyGet(resp, "code")))
    case Some(code) =>
      var msg := PyGet(resp, "msg");
      Ok(Error(code, msg, PyGet(resp, "requestTime"), PyGet(resp, "data"), Message(code, Show(msg, repr))))
  }

  predicate ContainsAt(s: string, t: string, i: int) {
    0 <= i <= |s| - |t| && s[i..i + |t|] == t
  }

  /** `t in s` for strings. */
  ghost predicate Contains(s: string, t: string) {
    exists i :: ContainsAt(s, t, i)
  }

  lemma ContainsMiddle(a: string, b: string, c: string)
    ensures Contains(a + b + c, b)
  {
    assert ContainsAt(a + b + c, b, |a|);
  }

  /** The message names the code, carries its value, and ends with the response's `msg`. */
  lemma MessageMentionsCodeAndMsg(resp: map<string, Json>, repr: Json -> string)
    requires FromResponse(resp, repr).Ok?
    ensures var e := FromResponse(resp, repr).value;
      Contains(e.message, e.code.Value()) && Contains(e.message, e.code.Name()) &&
      Contains(e.message, Show(e.msg, repr))
  {
    var e := FromResponse(resp, repr).value;
    MessageParts(e.code, Show(e.msg, repr));
  }

  lemma MessageParts(code: BitgetErrorCode, shown: string)
    ensures var m := Message(code, shown);
      Contains(m, code.Value()) && Contains(m, code.Name()) && Contains(m, shown)
  {
    var head, name, value := "Bitget API Error ", code.Name(), code.Value();
    var m := Message(code, shown);
    assert m == (head + name + "(") + value + ("): " + shown);
    ContainsMiddle(head + name + "(", value, "): " + shown);
    assert m == head + name + ("(" + value + "): " + shown);
    ContainsMiddle(head, name, "(" + value + "): " + shown);
    ContainsMiddle(head + name + "(" + value + "): ", shown, "");
    assert Message(code, shown) == head + name + "(" + value + "): " + shown + "";
  }

  /** The sample response from the exchange's documentation reads back as the expected error. */
  lemma InsufficientBalanceExample(repr: Json -> string)
    ensures var resp := map["code" := JStr("40762"), "msg" := JStr("The order amount exceeds the balance"),
                            "requestTime" := JInt(1756346471768), "data" := JNull];
      var r := FromResponse(resp, repr);
      r.Ok? && r.value.code == INSUFFICIENT_BALANCE && r.value.msg == Some(JStr("The order amount exceeds the balance")) &&
      r.value.requestTime == Some(JInt(1756346471768)) && r.value.data == None
  {
  }

  /** A numeric code is not the enumeration's string value, so construction fails. */
  lemma NumericCodeRejected(resp: map<string, Json>, repr: Json -> string)
    requires "code" in resp && resp["code"] == JInt(40762)
    ensures FromResponse(resp, repr).Err?
  {
  }
}
