/**
 * `BitgetWebsocketPublicClient` of the legacy package: every connection
 * sends one fixed candle subscription, requires a subscribe acknowledgement,
 * then reads until the connection ends. Transport errors back off with a
 * doubling delay that is never reset; any other error sleeps a fixed 5 s.
 *
 * The connections come from the websockets library's reconnecting iterator;
 * what happens on each one is an input.
 */
module LegacyBitgetWs {
  import opened Wrappers
  import opened Json
  import opened Backoff

  const INITIAL_RECONNECT_DELAY: nat := 1
  const DEFAULT_RECONNECT_MAX_DELAY: nat := 60
  const UNEXPECTED_ERROR_SLEEP: nat := 5
  const HEARTBEAT_SLEEP: nat := 30

  /** The one subscription this client ever makes, keyed as the exchange expects. */
  function FixedSubscribe(): (r: Json)
    ensures r.JObj? && r.fields.Keys == {"op", "args"}
  {
    JObj(map[
      "op" := JStr("subscribe"),
      "args" := JArr([JObj(map["instType" := JStr("USDT-FUTURES"), "channel" := JStr("candle1m"), "instId" := JStr("BTCUSDT")])])
    ])
  }

  /** Exception classes: the three the transport branch catches, and everything else. */
  datatype ErrorKind = ConnectionClosedError | InvalidStatusCode | OSError | OtherError

  predicate IsTransport(k: ErrorKind) {
    k != OtherError
  }

  /** What became of the subscribe exchange on one connection. */
  datatype Exchange =
    | SendFailed(sendError: ErrorKind)      // `ws.send` raised: nothing written
    | RecvFailed(recvError: ErrorKind)      // written, but `ws.recv` raised
    | Replied(raw: string)                  // written, and this frame came back

  /** How the message loop of an acknowledged connection ended. */
  datatype SessionEnd = ClosedNormally | Raised(error: ErrorKind)

  datatype Connection = Connection(exchange: Exchange, end: SessionEnd)

  /** `ack.get("event") == "subscribe"` on a decoded reply; a non-object has no `get`. */
  predicate AckOk(ack: Json) {
    ack.JObj? && "event" in ack.fields && ack.fields["event"] == JStr("subscribe")
  }

  /** How one pass of the loop ends: no sleep, the backoff branch, or the fixed-sleep branch. */
  datatype Ending = Resumed | TransportBackoff | FixedSleep

  function Classify(k: ErrorKind): Ending {
    if IsTransport(k) then TransportBackoff else FixedSleep
  }

  /** The ending of one connection. A reply that is not JSON, or not a subscribe ack, ends in the fixed sleep. */
  function EndingOf(c: Connection, parse: string -> Option<Json>): (e: Ending)
    ensures c.exchange.Replied? && (parse(c.exchange.raw).None? || !AckOk(parse(c.exchange.raw).value))
            ==> e == FixedSleep
  {
    match c.exchange
    case SendFailed(k) => Classify(k)
    case RecvFailed(k) => Classify(k)
    case Replied(raw) =>
      match parse(raw)
      case None => FixedSleep
      case Some(ack) =>
        if !AckOk(ack) then FixedSleep
        else match c.end
          case ClosedNormally => Resumed
          case Raised(k) => Classify(k)
  }

  function TransportCount(cs: seq<Connection>, parse: string -> Option<Json>): nat {
    if cs == [] then 0
    else TransportCount(cs[..|cs| - 1], parse) + (if EndingOf(cs[|cs| - 1], parse) == TransportBackoff then 1 else 0)
  }

  /** `reconnect_delay` after the given connections. */
  function DelayAfter(cap: nat, cs: seq<Connection>, parse: string -> Option<Json>): nat {
    if cs == [] then INITIAL_RECONNECT_DELAY
    else
      var d := DelayAfter(cap, cs[..|cs| - 1], parse);
      if EndingOf(cs[|cs| - 1], parse) == TransportBackoff then Next(d, cap) else d
  }

  /** The sleeps taken over the given connections, in order. */
  function Sleeps(cap: nat, cs: seq<Connection>, parse: string -> Option<Json>): seq<nat> {
    if cs == [] then []
    else
      var front := cs[..|cs| - 1];
      Sleeps(cap, front, parse) +
        match EndingOf(cs[|cs| - 1], parse)
        case Resumed => []
        case TransportBackoff => [DelayAfter(cap, front, parse)]
        case FixedSleep => [UNEXPECTED_ERROR_SLEEP]
  }

  function Written(cs: seq<Connection>): nat {
    if cs == [] then 0 else Written(cs[..|cs| - 1]) + (if cs[|cs| - 1].exchange.SendFailed? then 0 else 1)
  }

  /**
   * The delay is never reset: it depends only on how many transport errors
   * there were, not on the acknowledged sessions between them.
   */
  lemma {:induction false} DelayNeverReset(cap: nat, cs: seq<Connection>, parse: string -> Option<Json>)
    ensures DelayAfter(cap, cs, parse) == Doubled(INITIAL_RECONNECT_DELAY, cap, TransportCount(cs, parse))
  {
    if cs != [] {
      DelayNeverReset(cap, cs[..|cs| - 1], parse);
      DoubleStep(INITIAL_RECONNECT_DELAY, cap, TransportCount(cs[..|cs| - 1], parse));
    }
  }

  /** A failed acknowledgement sleeps 5 s and leaves the delay as it was. */
  lemma AckFailureSleepsFixed(cap: nat, cs: seq<Connection>, c: Connection, parse: string -> Option<Json>)
    requires c.exchange.Replied?
    requires parse(c.exchange.raw).None? || !AckOk(parse(c.exchange.raw).value)
    ensures Sleeps(cap, cs + [c], parse) == Sleeps(cap, cs, parse) + [UNEXPECTED_ERROR_SLEEP]
    ensures DelayAfter(cap, cs + [c], parse) == DelayAfter(cap, cs, parse)
  {
    assert (cs + [c])[..|cs|] == cs;
  }

  /** Every backoff sleep is bounded by the cap or the initial delay; the other sleeps are 5 s. */
  lemma {:induction false} SleepsBounded(cap: nat, cs: seq<Connection>, parse: string -> Option<Json>)
    ensures DelayAfter(cap, cs, parse) <= Max(INITIAL_RECONNECT_DELAY, cap)
    ensures forall i :: 0 <= i < |Sleeps(cap, cs, parse)| ==>
      Sleeps(cap, cs, parse)[i] <= Max(Max(INITIAL_RECONNECT_DELAY, cap), UNEXPECTED_ERROR_SLEEP)
  {
    if cs != [] {
      SleepsBounded(cap, cs[..|cs| - 1], parse);
    }
  }

  class BitgetWebsocketPublicClient {
    const url: string
    const reconnectMaxDelay: nat

    constructor (url: string, reconnectMaxDelay: nat := DEFAULT_RECONNECT_MAX_DELAY)
      ensures this.url == url && this.reconnectMaxDelay == reconnectMaxDelay
    {
      this.url := url;
      this.reconnectMaxDelay := reconnectMaxDelay;
    }

    /**
     * `subscribe_candlestick` over the given connections: the frames
     * written (one fixed subscribe per connection whose send went through)
     * and the sleeps taken.
     */
    method SubscribeCandlestick(cs: seq<Connection>, parse: string -> Option<Json>)
      returns (frames: seq<Json>, sleeps: seq<nat>, reconnectDelay: nat)
      ensures |frames| == Written(cs) && forall i :: 0 <= i < |frames| ==> frames[i] == FixedSubscribe()
      ensures sleeps == Sleeps(reconnectMaxDelay, cs, parse)
      ensures reconnectDelay == DelayAfter(reconnectMaxDelay, cs, parse)
    {
      frames, sleeps := [], [];
      reconnectDelay := INITIAL_RECONNECT_DELAY;
      var i := 0;
      while i < |cs|
        invariant i <= |cs|
        invariant |frames| == Written(cs[..i]) && forall j :: 0 <= j < |frames| ==> frames[j] == FixedSubscribe()
        invariant sleeps == Sleeps(reconnectMaxDelay, cs[..i], parse)
        invariant reconnectDelay == DelayAfter(reconnectMaxDelay, cs[..i], parse)
      {
        var c := cs[i];
        assert cs[..i + 1][..i] == cs[..i];
        if !c.exchange.SendFailed? {
          frames := frames + [FixedSubscribe()];
        }
        var ending := EndingOf(c, parse);
        match ending {
          case Resumed =>
          case TransportBackoff =>
            sleeps := sleeps + [reconnectDelay];
            reconnectDelay := Next(reconnectDelay, reconnectMaxDelay);
          case FixedSleep =>
            sleeps := sleeps + [UNEXPECTED_ERROR_SLEEP];
        }
        i := i + 1;
      }
      assert cs[..i] == cs;
    }
  }

  /** `_heartbeat`: "ping" then a 30 s sleep, once per tick; nothing catches a failed send. */
  method Heartbeat(ticks: nat) returns (frames: seq<string>, sleeps: seq<nat>)
    ensures |frames| == ticks && |sleeps| == ticks
    ensures forall i :: 0 <= i < ticks ==> frames[i] == "ping" && sleeps[i] == HEARTBEAT_SLEEP
  {
    frames, sleeps := [], [];
    while |frames| < ticks
      invariant |frames| == |sleeps| <= ticks
      invariant forall i :: 0 <= i < |frames| ==> frames[i] == "ping" && sleeps[i] == HEARTBEAT_SLEEP
    {
      frames := frames + ["ping"];
      sleeps := sleeps + [HEARTBEAT_SLEEP];
    }
  }
}
