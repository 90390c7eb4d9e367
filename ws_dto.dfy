/**
 * Message objects of the Bitget streaming client: the subscription key,
 * the outbound envelope and the login request.
 */
module WsDto {
  import opened Json

  /** One channel subscription; the client keeps a set of these. */
  datatype SubscribeReq = SubscribeReq(instType: string, channel: string, instId: string)

  /** Python's `__eq__`: the three attributes compared pairwise. */
  predicate SameAttributes(a: SubscribeReq, b: SubscribeReq) {
    a.instType == b.instType && a.channel == b.channel && a.instId == b.instId
  }

  lemma EqualityIsStructural(a: SubscribeReq, b: SubscribeReq)
    ensures a == b <==> SameAttributes(a, b)
  {
  }

  /** The string whose hash `__hash__` returns: the attributes concatenated. */
  function HashInput(k: SubscribeReq): (r: string)
    ensures |r| == |k.instType| + |k.channel| + |k.instId|
  {
    k.instType + k.channel + k.instId
  }

  /** `__hash__`, given the interpreter's string hash. */
  function Hash(k: SubscribeReq, strHash: string -> int): int {
    strHash(HashInput(k))
  }

  /** Equal keys hash alike, whatever the string hash is. */
  lemma HashRespectsEquality(a: SubscribeReq, b: SubscribeReq, strHash: string -> int)
    requires SameAttributes(a, b)
    ensures Hash(a, strHash) == Hash(b, strHash)
  {
  }

  /**
   * Distinct keys can share a hash input (and so a hash), yet a set keeps
   * both: membership is decided by equality, the hash only buckets.
   */
  lemma HashCollisionKeepsBoth(x: string, strHash: string -> int)
    ensures var a, b := SubscribeReq("ab", "c", x), SubscribeReq("a", "bc", x);
      && Hash(a, strHash) == Hash(b, strHash)
      && a != b
      && |{a, b}| == 2
  {
    var a, b := SubscribeReq("ab", "c", x), SubscribeReq("a", "bc", x);
    assert HashInput(a) == HashInput(b) by {
      assert "ab" + "c" == "a" + "bc";
    }
    assert a.instType != b.instType by {
      assert |a.instType| != |b.instType|;
    }
  }

  /** `vars(ch)`: the argument dictionary sent for one key, keyed by attribute name. */
  function Vars(k: SubscribeReq): (r: Json)
    ensures r.JObj? && r.fields.Keys == {"inst_type", "channel", "inst_id"}
    ensures r.fields["inst_type"] == JStr(k.instType)
    ensures r.fields["channel"] == JStr(k.channel)
    ensures r.fields["inst_id"] == JStr(k.instId)
  {
    JObj(map["inst_type" := JStr(k.instType), "channel" := JStr(k.channel), "inst_id" := JStr(k.instId)])
  }

  /** Different keys give different argument dictionaries. */
  lemma VarsInjective(a: SubscribeReq, b: SubscribeReq)
    requires Vars(a) == Vars(b)
    ensures a == b
  {
    assert Vars(a).fields["inst_type"] == Vars(b).fields["inst_type"];
    assert Vars(a).fields["channel"] == Vars(b).fields["channel"];
    assert Vars(a).fields["inst_id"] == Vars(b).fields["inst_id"];
  }

  /** `BaseWsReq(op, args)`: an operation name and its argument list, stored verbatim. */
  datatype BaseWsReq = BaseWsReq(op: string, args: seq<SubscribeReq>)

  function ArgsJson(args: seq<SubscribeReq>): (r: seq<Json>)
    ensures |r| == |args|
    ensures forall i :: 0 <= i < |args| ==> r[i] == Vars(args[i])
  {
    if args == [] then [] else [Vars(args[0])] + ArgsJson(args[1..])
  }

  /**
   * The object `json.dumps(payload, default=lambda o: o.__dict__)` encodes:
   * exactly the keys `op` and `args`, the arguments as their `vars` dictionaries.
   */
  function Payload(req: BaseWsReq): (r: Json)
    ensures r.JObj? && r.fields.Keys == {"op", "args"}
    ensures r.fields["op"] == JStr(req.op)
    ensures r.fields["args"].JArr? && |r.fields["args"].items| == |req.args|
    ensures forall i :: 0 <= i < |req.args| ==> r.fields["args"].items[i] == Vars(req.args[i])
  {
    JObj(map["op" := JStr(req.op), "args" := JArr(ArgsJson(req.args))])
  }

  /** The envelope can be read back from its payload: encoding loses nothing. */
  lemma {:induction false} PayloadInjective(a: BaseWsReq, b: BaseWsReq)
    requires Payload(a) == Payload(b)
    ensures a == b
  {
    var ia, ib := Payload(a).fields["args"].items, Payload(b).fields["args"].items;
    assert ia == ib;
    assert |a.args| == |b.args|;
    forall i | 0 <= i < |a.args|
      ensures a.args[i] == b.args[i]
    {
      assert ia[i] == ib[i];
      VarsInjective(a.args[i], b.args[i]);
    }
    assert Payload(a).fields["op"] == Payload(b).fields["op"];
  }

  /** The login request object; the streaming core never sends one. */
  datatype WsLoginReq = WsLoginReq(apiKey: string, passphrase: string, timestamp: string, sign: string)
}
