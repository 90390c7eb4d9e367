/**
 * `KiwoomWS`: a WebSocket client that logs in with a token on every new
 * connection, echoes the server's PING frames, and hands every other frame
 * to an optional callback.
 *
 * Each operation is first stated as a transition on a `Snapshot` of the
 * client's fields; the class's methods are proved to perform exactly those
 * transitions. What the network does (whether the handshake, the login
 * write, a write succeed; which frames arrive) is an input.
 */
module KiwoomWs {
  import opened Wrappers
  import opened Json

  /** A text frame written on socket number `socket`. */
  datatype Wire = Wire(socket: nat, text: string)

  /** `send` accepts a dict (serialised) or a string (sent unchanged). */
  datatype Message = Text(s: string) | Dict(obj: map<string, Json>)

  /** How the network answers one `send`: the handshake and login write (if a connect is needed), then the write itself. */
  datatype Net = Net(handshakeOk: bool, loginWriteOk: bool, writeOk: bool)

  /** The exceptions that leave an operation. `NoSocket` is the failed `assert self.ws is not None`. */
  datatype WsError = ConnectFailed | ConnectionClosed | NotAnObject | NoSocket

  /** The client's fields, plus the frames written and the sockets closed so far. */
  datatype Snapshot = Snapshot(
    ws: Option<nat>, connected: bool, keepRunning: bool,
    sockets: nat, sent: seq<Wire>, closed: seq<nat>)

  /** What an operation leaves behind, and the exception it raised, if any. */
  datatype Step = Step(st: Snapshot, err: Option<WsError>)

  /** Every socket named anywhere was opened before. */
  ghost predicate Sane(s: Snapshot) {
    (s.ws.Some? ==> s.ws.value < s.sockets) &&
    (forall i :: 0 <= i < |s.sent| ==> s.sent[i].socket < s.sockets)
  }

  function LoginFrame(token: string): (m: map<string, Json>)
    ensures m.Keys == {"trnm", "token"} && m["trnm"] == JStr("LOGIN") && m["token"] == JStr(token)
  {
    map["trnm" := JStr("LOGIN"), "token" := JStr(token)]
  }

  /** The text put on the wire: compact JSON for a dict (through `dumps`), the string itself otherwise. */
  function Serialize(m: Message, dumps: Json -> string): (t: string)
    ensures m.Text? ==> t == m.s
    ensures m.Dict? ==> t == dumps(JObj(m.obj))
  {
    match m
    case Text(s) => s
    case Dict(o) => dumps(JObj(o))
  }

  function Write(s: Snapshot, text: string, ok: bool): (r: Step)
    requires s.ws.Some?
    ensures r.err.None? <==> ok
    ensures ok ==> r.st == s.(sent := s.sent + [Wire(s.ws.value, text)])
    ensures !ok ==> r.st == s
  {
    if ok then Step(s.(sent := s.sent + [Wire(s.ws.value, text)]), None)
    else Step(s, Some(ConnectionClosed))
  }

  /** `connect`: open a new socket, mark connected, write the LOGIN frame; on any failure mark disconnected. */
  function AfterConnect(s: Snapshot, token: string, net: Net, dumps: Json -> string): (r: Step)
    ensures r.err.None? <==> net.handshakeOk && net.loginWriteOk
    ensures r.st.connected <==> r.err.None?
    ensures r.st.keepRunning == s.keepRunning && r.st.closed == s.closed
    ensures !net.handshakeOk ==> r.st == s.(connected := false)
    ensures net.handshakeOk ==> r.st.ws == Some(s.sockets) && r.st.sockets == s.sockets + 1
    ensures r.err.None? ==> r.st.sent == s.sent + [Wire(s.sockets, dumps(JObj(LoginFrame(token))))]
    ensures r.err.Some? ==> r.st.sent == s.sent
  {
    if !net.handshakeOk then Step(s.(connected := false), Some(ConnectFailed))
    else
      var conn := s.(ws := Some(s.sockets), sockets := s.sockets + 1, connected := true);
      var login := Write(conn, Serialize(Dict(LoginFrame(token)), dumps), net.loginWriteOk);
      if login.err.Some? then Step(login.st.(connected := false), login.err) else login
  }

  predicate NeedsConnect(s: Snapshot) {
    !s.connected || s.ws.None?
  }

  /** `send`: connect first when needed (a failed connect raises before anything else), then write. */
  function AfterSend(s: Snapshot, m: Message, token: string, net: Net, dumps: Json -> string): (r: Step)
    ensures !NeedsConnect(s) ==> r == Write(s, Serialize(m, dumps), net.writeOk)
  {
    if NeedsConnect(s) then
      var c := AfterConnect(s, token, net, dumps);
      if c.err.Some? then c else Write(c.st, Serialize(m, dumps), net.writeOk)
    else Write(s, Serialize(m, dumps), net.writeOk)
  }

  /** `disconnect`: stop the loop, close the socket if connected, mark disconnected. */
  function AfterDisconnect(s: Snapshot): (r: Snapshot)
    ensures !r.keepRunning && !r.connected
    ensures r.ws == s.ws && r.sockets == s.sockets && r.sent == s.sent
    ensures r.closed == if s.connected && s.ws.Some? then s.closed + [s.ws.value] else s.closed
  {
    Snapshot(s.ws, false, false, s.sockets, s.sent, if s.connected && s.ws.Some? then s.closed + [s.ws.value] else s.closed)
  }

  /** Disconnecting twice is the same as disconnecting once: the second call closes nothing. */
  lemma DisconnectIdempotent(s: Snapshot)
    ensures AfterDisconnect(AfterDisconnect(s)) == AfterDisconnect(s)
  {
  }

  lemma ConnectKeepsSane(s: Snapshot, token: string, net: Net, dumps: Json -> string)
    requires Sane(s)
    ensures Sane(AfterConnect(s, token, net, dumps).st)
  {
    var r := AfterConnect(s, token, net, dumps);
    forall i | 0 <= i < |r.st.sent|
      ensures r.st.sent[i].socket < r.st.sockets
    {
      if i < |s.sent| {
        assert r.st.sent[i] == s.sent[i];
      }
    }
  }

  lemma SendKeepsSane(s: Snapshot, m: Message, token: string, net: Net, dumps: Json -> string)
    requires Sane(s)
    ensures Sane(AfterSend(s, m, token, net, dumps).st)
  {
    if NeedsConnect(s) {
      ConnectKeepsSane(s, token, net, dumps);
    }
  }

  /**
   * On a fresh connection the LOGIN frame comes first: when `send` has to
   * connect and succeeds, the first frame ever written on the new socket is
   * LOGIN, and the caller's frame follows it directly.
   */
  lemma LoginPrecedesFirstFrame(s: Snapshot, m: Message, token: string, net: Net, dumps: Json -> string)
    requires Sane(s) && NeedsConnect(s)
    requires AfterSend(s, m, token, net, dumps).err.None?
    ensures var r := AfterSend(s, m, token, net, dumps).st;
      var k := s.sockets;
      r.ws == Some(k) &&
      r.sent == s.sent + [Wire(k, dumps(JObj(LoginFrame(token)))), Wire(k, Serialize(m, dumps))] &&
      forall i :: 0 <= i < |s.sent| ==> r.sent[i].socket != k
  {
  }

  /** Python's `!= 0` lets both `0` and `false` through; a missing code is `None`, which fails. */
  predicate ReturnCodeOk(code: Option<Json>) {
    code == Some(JInt(0)) || code == Some(JBool(false))
  }

  function Get(obj: map<string, Json>, key: string): (v: Option<Json>)
    ensures v.Some? <==> key in obj
    ensures v.Some? ==> v.value == obj[key]
  {
    if key in obj then Some(obj[key]) else None
  }

  /** A frame that is neither a LOGIN answer nor a PING: the only kind the callback sees. */
  predicate IsApplicationFrame(msg: map<string, Json>) {
    Get(msg, "trnm") != Some(JStr("LOGIN")) && Get(msg, "trnm") != Some(JStr("PING"))
  }

  /** What `recv` yields: a text frame (with the network's answers for an echo it may cause), or a server close. */
  datatype Event = Recv(raw: string, net: Net) | ServerClosed

  /** Why `receive_loop` returned. `Waiting` means it is still blocked in `recv` after the given frames. */
  datatype LoopEnd = Waiting | Stopped | LoginRejected | ClosedByServer | Raised(error: WsError)

  /** The state of `receive_loop`: client fields, frames handed to the callback, invalid frames skipped. */
  datatype Run = Run(st: Snapshot, delivered: seq<map<string, Json>>, invalid: nat, end: LoopEnd)

  /** A raised `ConnectionClosed` is caught by the loop; anything else leaves it. */
  function Failed(r: Run, step: Step): (q: Run)
    requires step.err.Some?
    ensures q.end.ClosedByServer? ==> !q.st.connected
  {
    if step.err.value == ConnectionClosed then r.(st := step.st.(connected := false), end := ClosedByServer)
    else r.(st := step.st, end := Raised(step.err.value))
  }

  /** `receive_loop` over the events, from run state `r`. */
  function Receive(r: Run, events: seq<Event>, token: string, hasHandler: bool,
                   parse: string -> Option<Json>, dumps: Json -> string): Run
    decreases |events|
  {
    if !r.st.keepRunning then r.(end := Stopped)
    else if events == [] then r
    else match events[0]
      case ServerClosed => r.(st := r.st.(connected := false), end := ClosedByServer)
      case Recv(raw, net) =>
        match parse(raw)
        case None => Receive(r.(invalid := r.invalid + 1), events[1..], token, hasHandler, parse, dumps)
        case Some(msg) =>
          if !msg.JObj? then r.(end := Raised(NotAnObject))
          else if Get(msg.fields, "trnm") == Some(JStr("LOGIN")) then
            if ReturnCodeOk(Get(msg.fields, "return_code")) then Receive(r, events[1..], token, hasHandler, parse, dumps)
            else r.(st := AfterDisconnect(r.st), end := LoginRejected)
          else if Get(msg.fields, "trnm") == Some(JStr("PING")) then
            var echo := AfterSend(r.st, Dict(msg.fields), token, net, dumps);
            if echo.err.Some? then Failed(r, echo)
            else Receive(r.(st := echo.st), events[1..], token, hasHandler, parse, dumps)
          else
            var delivered := if hasHandler then r.delivered + [msg.fields] else r.delivered;
            Receive(r.(delivered := delivered), events[1..], token, hasHandler, parse, dumps)
  }

  /** The whole `receive_loop` call, starting with its assertion that a socket exists. */
  function AfterReceiveLoop(s: Snapshot, events: seq<Event>, token: string, hasHandler: bool,
                       parse: string -> Option<Json>, dumps: Json -> string): Run
  {
    if s.ws.None? then Run(s, [], 0, Raised(NoSocket))
    else Receive(Run(s, [], 0, Waiting), events, token, hasHandler, parse, dumps)
  }

  /**
   * Only application frames reach the callback, in arrival order after the
   * ones already delivered; LOGIN answers and PINGs never do.
   */
  lemma {:induction false} OnlyApplicationFramesDelivered(r: Run, events: seq<Event>, token: string, hasHandler: bool,
                                                         parse: string -> Option<Json>, dumps: Json -> string)
    ensures var q := Receive(r, events, token, hasHandler, parse, dumps);
      r.delivered <= q.delivered &&
      (forall i :: |r.delivered| <= i < |q.delivered| ==> IsApplicationFrame(q.delivered[i])) &&
      (!hasHandler ==> q.delivered == r.delivered)
    decreases |events|
  {
    if r.st.keepRunning && events != [] && events[0].Recv? {
      var rest := events[1..];
      match parse(events[0].raw)
      case None =>
        OnlyApplicationFramesDelivered(r.(invalid := r.invalid + 1), rest, token, hasHandler, parse, dumps);
      case Some(msg) =>
        if msg.JObj? {
          if Get(msg.fields, "trnm") == Some(JStr("LOGIN")) {
            if ReturnCodeOk(Get(msg.fields, "return_code")) {
              OnlyApplicationFramesDelivered(r, rest, token, hasHandler, parse, dumps);
            }
          } else if Get(msg.fields, "trnm") == Some(JStr("PING")) {
            var echo := AfterSend(r.st, Dict(msg.fields), token, events[0].net, dumps);
            if echo.err.None? {
              OnlyApplicationFramesDelivered(r.(st := echo.st), rest, token, hasHandler, parse, dumps);
            }
          } else {
            var delivered := if hasHandler then r.delivered + [msg.fields] else r.delivered;
            OnlyApplicationFramesDelivered(r.(delivered := delivered), rest, token, hasHandler, parse, dumps);
          }
        }
    }
  }

  /** A frame that is not JSON is counted and skipped: the loop carries on with the next one. */
  lemma InvalidJsonSkipped(r: Run, raw: string, net: Net, events: seq<Event>, token: string, hasHandler: bool,
                           parse: string -> Option<Json>, dumps: Json -> string)
    requires r.st.keepRunning && parse(raw).None?
    ensures Receive(r, [Recv(raw, net)] + events, token, hasHandler, parse, dumps)
         == Receive(r.(invalid := r.invalid + 1), events, token, hasHandler, parse, dumps)
  {
    assert ([Recv(raw, net)] + events)[1..] == events;
  }

  /** A PING on a live connection is echoed back re-serialised, on the same socket. */
  lemma PingEchoed(r: Run, raw: string, net: Net, events: seq<Event>, token: string, hasHandler: bool,
                   parse: string -> Option<Json>, dumps: Json -> string)
    requires r.st.keepRunning && r.st.connected && r.st.ws.Some? && net.writeOk
    requires parse(raw).Some? && parse(raw).value.JObj? && Get(parse(raw).value.fields, "trnm") == Some(JStr("PING"))
    ensures Receive(r, [Recv(raw, net)] + events, token, hasHandler, parse, dumps)
         == Receive(r.(st := r.st.(sent := r.st.sent + [Wire(r.st.ws.value, dumps(parse(raw).value))])),
                    events, token, hasHandler, parse, dumps)
  {
    assert ([Recv(raw, net)] + events)[1..] == events;
  }

  /**
   * How the loop can end: a rejected login leaves the client stopped and
   * disconnected; a server close leaves it disconnected; a loop that is
   * still waiting was running throughout.
   */
  lemma {:induction false} LoopEnds(r: Run, events: seq<Event>, token: string, hasHandler: bool,
                                   parse: string -> Option<Json>, dumps: Json -> string)
    requires r.end == Waiting
    ensures var q := Receive(r, events, token, hasHandler, parse, dumps);
      (q.end.LoginRejected? ==> !q.st.keepRunning && !q.st.connected) &&
      (q.end.ClosedByServer? ==> !q.st.connected) &&
      (q.end.Waiting? ==> q.st.keepRunning) &&
      (q.end.Stopped? ==> !q.st.keepRunning) &&
      q.end != Raised(NoSocket)
    decreases |events|
  {
    if r.st.keepRunning && events != [] && events[0].Recv? {
      var rest := events[1..];
      match parse(events[0].raw)
      case None =>
        LoopEnds(r.(invalid := r.invalid + 1), rest, token, hasHandler, parse, dumps);
      case Some(msg) =>
        if msg.JObj? {
          if Get(msg.fields, "trnm") == Some(JStr("LOGIN")) {
            if ReturnCodeOk(Get(msg.fields, "return_code")) {
              LoopEnds(r, rest, token, hasHandler, parse, dumps);
            }
          } else if Get(msg.fields, "trnm") == Some(JStr("PING")) {
            var echo := AfterSend(r.st, Dict(msg.fields), token, events[0].net, dumps);
            if echo.err.None? {
              LoopEnds(r.(st := echo.st), rest, token, hasHandler, parse, dumps);
            }
          } else {
            var delivered := if hasHandler then r.delivered + [msg.fields] else r.delivered;
            LoopEnds(r.(delivered := delivered), rest, token, hasHandler, parse, dumps);
          }
        }
    }
  }

  class KiwoomWS {
    const url: string
    const token: string
    /** Whether an `on_message` callback was given. */
    const hasHandler: bool
    var ws: Option<nat>
    var connected: bool
    var keepRunning: bool
    var sockets: nat
    var sent: seq<Wire>
    var closed: seq<nat>

    function State(): Snapshot
      reads this
    {
      Snapshot(ws, connected, keepRunning, sockets, sent, closed)
    }

    constructor (url: string, accessToken: string, hasHandler: bool := false)
      ensures this.url == url && token == accessToken && this.hasHandler == hasHandler
      ensures State() == Snapshot(None, false, true, 0, [], [])
    {
      this.url := url;
      token := accessToken;
      this.hasHandler := hasHandler;
      ws := None;
      connected := false;
      keepRunning := true;
      sockets := 0;
      sent := [];
      closed := [];
    }

    method WriteFrame(text: string, ok: bool) returns (err: Option<WsError>)
      requires ws.Some?
      modifies this`sent
      ensures Step(State(), err) == Write(old(State()), text, ok)
    {
      if !ok {
        return Some(ConnectionClosed);
      }
      sent := sent + [Wire(ws.value, text)];
      err := None;
    }

    method Connect(net: Net, dumps: Json -> string) returns (err: Option<WsError>)
      modifies this`ws, this`connected, this`sockets, this`sent
      ensures Step(State(), err) == AfterConnect(old(State()), token, net, dumps)
    {
      if !net.handshakeOk {
        connected := false;
        return Some(ConnectFailed);
      }
      ws := Some(sockets);
      sockets := sockets + 1;
      connected := true;
      err := WriteFrame(Serialize(Dict(LoginFrame(token)), dumps), net.loginWriteOk);
      if err.Some? {
        connected := false;
      }
    }

    method Send(m: Message, net: Net, dumps: Json -> string) returns (err: Option<WsError>)
      modifies this`ws, this`connected, this`sockets, this`sent
      ensures Step(State(), err) == AfterSend(old(State()), m, token, net, dumps)
    {
      if !connected || ws.None? {
        err := Connect(net, dumps);
        if err.Some? {
          return;
        }
      }
      err := WriteFrame(Serialize(m, dumps), net.writeOk);
    }

    method Disconnect()
      modifies this`keepRunning, this`connected, this`closed
      ensures State() == AfterDisconnect(old(State()))
    {
      keepRunning := false;
      if connected && ws.Some? {
        closed := closed + [ws.value];
      }
      connected := false;
    }

    /** One frame of the loop; `end` is `Waiting` when the loop goes on. */
    method HandleFrame(msg: Json, net: Net, dumps: Json -> string) returns (deliver: bool, end: LoopEnd)
      requires keepRunning
      modifies this`ws, this`connected, this`sockets, this`sent, this`keepRunning, this`closed
      ensures var r := Run(old(State()), [], 0, Waiting);
        var q := Receive(r, [Recv("", net)], token, hasHandler, _ => Some(msg), dumps);
        q.st == State() && q.end == end && (deliver ==> msg.JObj?) && q.delivered == (if deliver && msg.JObj? then [msg.fields] else []) && q.invalid == 0
    {
      deliver := false;
      end := Waiting;
      if !msg.JObj? {
        end := Raised(NotAnObject);
      } else if Get(msg.fields, "trnm") == Some(JStr("LOGIN")) {
        if !ReturnCodeOk(Get(msg.fields, "return_code")) {
          Disconnect();
          end := LoginRejected;
        }
      } else if Get(msg.fields, "trnm") == Some(JStr("PING")) {
        var err := Send(Dict(msg.fields), net, dumps);
        if err == Some(ConnectionClosed) {
          connected := false;
          end := ClosedByServer;
        } else if err.Some? {
          end := Raised(err.value);
        }
      } else {
        deliver := hasHandler;
      }
    }

    method ReceiveLoop(events: seq<Event>, parse: string -> Option<Json>, dumps: Json -> string)
      returns (delivered: seq<map<string, Json>>, invalid: nat, end: LoopEnd)
      modifies this`ws, this`connected, this`sockets, this`sent, this`keepRunning, this`closed
      ensures Run(State(), delivered, invalid, end) == AfterReceiveLoop(old(State()), events, token, hasHandler, parse, dumps)
    {
      delivered, invalid, end := [], 0, Waiting;
      if ws.None? {
        end := Raised(NoSocket);
        return;
      }
      ghost var goal := Receive(Run(State(), [], 0, Waiting), events, token, hasHandler, parse, dumps);
      assert events[0..] == events;
      var i := 0;
      while keepRunning && i < |events|
        invariant i <= |events|
        invariant goal == Receive(Run(State(), delivered, invalid, Waiting), events[i..], token, hasHandler, parse, dumps)
        decreases |events| - i
      {
        assert events[i..][0] == events[i] && events[i..][1..] == events[i + 1..];
        match events[i] {
          case ServerClosed =>
            connected := false;
            end := ClosedByServer;
            return;
          case Recv(raw, net) =>
            var msg := parse(raw);
            if msg.None? {
              invalid := invalid + 1;
            } else {
              ghost var before := Run(State(), delivered, invalid, Waiting);
              var deliver, stepEnd := HandleFrame(msg.value, net, dumps);
              ReceiveStep(before, raw, net, events[i + 1..], msg.value, deliver, stepEnd, State(), token, hasHandler, parse, dumps);
              if deliver {
                delivered := delivered + [msg.value.fields];
              }
              if stepEnd != Waiting {
                end := stepEnd;
                return;
              }
            }
        }
        i := i + 1;
      }
      if !keepRunning {
        end := Stopped;
      }
    }

    /** `run`: connect (a failure propagates and the loop never starts), then the receive loop. */
    method RunSession(net: Net, events: seq<Event>, parse: string -> Option<Json>, dumps: Json -> string)
      returns (delivered: seq<map<string, Json>>, invalid: nat, end: LoopEnd)
      modifies this`ws, this`connected, this`sockets, this`sent, this`keepRunning, this`closed
      ensures var c := AfterConnect(old(State()), token, net, dumps);
        && (c.err.Some? ==> State() == c.st && delivered == [] && invalid == 0 && end == Raised(c.err.value))
        && (c.err.None? ==> Run(State(), delivered, invalid, end) == AfterReceiveLoop(c.st, events, token, hasHandler, parse, dumps))
    {
      var err := Connect(net, dumps);
      if err.Some? {
        return [], 0, Raised(err.value);
      }
      delivered, invalid, end := ReceiveLoop(events, parse, dumps);
    }
  }

  /** Links `HandleFrame`'s one-frame contract to the loop's continuation. */
  lemma ReceiveStep(r: Run, raw: string, net: Net, rest: seq<Event>, msg: Json, deliver: bool, end: LoopEnd, s: Snapshot,
                    token: string, hasHandler: bool, parse: string -> Option<Json>, dumps: Json -> string)
    requires r.st.keepRunning && r.end == Waiting && parse(raw) == Some(msg)
    requires var q := Receive(Run(r.st, [], 0, Waiting), [Recv("", net)], token, hasHandler, _ => Some(msg), dumps);
      q.st == s && q.end == end && (deliver ==> msg.JObj?) && q.delivered == (if deliver && msg.JObj? then [msg.fields] else []) && q.invalid == 0
    ensures var d := if deliver && msg.JObj? then r.delivered + [msg.fields] else r.delivered;
      Receive(r, [Recv(raw, net)] + rest, token, hasHandler, parse, dumps)
        == if end == Waiting then Receive(Run(s, d, r.invalid, Waiting), rest, token, hasHandler, parse, dumps)
           else Run(s, d, r.invalid, end)
  {
    var events := [Recv(raw, net)] + rest;
    assert events[0] == Recv(raw, net) && events[1..] == rest;
    var one := Receive(Run(r.st, [], 0, Waiting), [Recv("", net)], token, hasHandler, _ => Some(msg), dumps);
    if !msg.JObj? {
      assert one.end == Raised(NotAnObject);
    } else if Get(msg.fields, "trnm") == Some(JStr("LOGIN")) {
      assert !deliver;
    } else if Get(msg.fields, "trnm") == Some(JStr("PING")) {
      assert !deliver;
    } else {
      assert end == Waiting && deliver == hasHandler;
    }
  }
}
