/**
 * `BitgetWebsocketClient`: the streaming client that keeps a registry of
 * subscription keys, reconnects with capped exponential backoff and
 * resubscribes the whole registry on every new connection.
 *
 * The network is replaced by explicit inputs: whether each handshake
 * succeeds, how many heartbeat ticks and which inbound frames a session
 * sees, and whether `close` is called while an attempt is in progress.
 * Sleeps are recorded instead of taken; frames written to a socket are
 * appended to a log, tagged with the socket they went to.
 */
module BitgetWsClient {
  import opened Wrappers
  import opened Json
  import opened WsDto
  import opened Backoff

  const WS_PING := "ping"
  const WS_PONG := "pong"
  const WS_OP_LOGIN := "login"
  const WS_OP_SUBSCRIBE := "subscribe"
  const WS_OP_UNSUBSCRIBE := "unsubscribe"

  const DEFAULT_RECONNECT_DELAY: nat := 1
  const DEFAULT_MAX_RECONNECT_DELAY: nat := 60
  const DEFAULT_HEARTBEAT_INTERVAL: nat := 30

  /** A text frame written to the socket: the heartbeat or a JSON envelope. */
  datatype Frame = Ping | Envelope(req: BaseWsReq)

  /** One entry of the outbound log: which socket, which frame. */
  datatype Wire = Wire(socket: nat, frame: Frame)

  /** How `_send` ends: written, logged and dropped (`_ws` is None), or raised on a closed socket. */
  datatype SendOutcome = Written | NotConnected | ConnectionClosed

  /** How `subscribe`/`unsubscribe` end. */
  datatype Change = NoChange | KeyError | Attempted(outcome: SendOutcome)

  /**
   * The inputs of one pass of the reconnect loop: whether the handshake
   * succeeds, whether the server closes the new socket before
   * `_resubscribe_all` writes to it, how many heartbeat ticks run, which
   * frames arrive, and whether `close` is called.
   */
  datatype Attempt = Attempt(handshakeOk: bool, closedEarly: bool, ticks: nat, inbound: seq<string>, closeRequested: bool)

  // ---------------------------------------------------------------- registry deltas

  /** `[ch for ch in channels if ch not in registry]`: order and repeats of the input kept. */
  function NewEntries(keys: seq<SubscribeReq>, registry: set<SubscribeReq>): (r: seq<SubscribeReq>)
    ensures forall k :: k in r <==> k in keys && k !in registry
  {
    if keys == [] then []
    else
      var rest := NewEntries(keys[..|keys| - 1], registry);
      var last := keys[|keys| - 1];
      assert keys == keys[..|keys| - 1] + [last];
      if last in registry then rest else rest + [last]
  }

  /** `[ch for ch in channels if ch in registry]`: order and repeats of the input kept. */
  function PresentEntries(keys: seq<SubscribeReq>, registry: set<SubscribeReq>): (r: seq<SubscribeReq>)
    ensures forall k :: k in r <==> k in keys && k in registry
  {
    if keys == [] then []
    else
      var rest := PresentEntries(keys[..|keys| - 1], registry);
      var last := keys[|keys| - 1];
      assert keys == keys[..|keys| - 1] + [last];
      if last in registry then rest + [last] else rest
  }

  /** An unregistered key is sent as often as the input lists it; a registered one never. */
  lemma {:induction false} NewEntriesCounts(keys: seq<SubscribeReq>, registry: set<SubscribeReq>, k: SubscribeReq)
    ensures multiset(NewEntries(keys, registry))[k] == if k in registry then 0 else multiset(keys)[k]
  {
    if keys != [] {
      NewEntriesCounts(keys[..|keys| - 1], registry, k);
      assert keys == keys[..|keys| - 1] + [keys[|keys| - 1]];
    }
  }

  /** A registered key is removed as often as the input lists it; an unregistered one never. */
  lemma {:induction false} PresentEntriesCounts(keys: seq<SubscribeReq>, registry: set<SubscribeReq>, k: SubscribeReq)
    ensures multiset(PresentEntries(keys, registry))[k] == if k in registry then multiset(keys)[k] else 0
  {
    if keys != [] {
      PresentEntriesCounts(keys[..|keys| - 1], registry, k);
      assert keys == keys[..|keys| - 1] + [keys[|keys| - 1]];
    }
  }

  /** The delta keeps the input's order: it is a subsequence of the input. */
  lemma {:induction false} NewEntriesOrder(keys: seq<SubscribeReq>, registry: set<SubscribeReq>)
    ensures IsSubsequence(NewEntries(keys, registry), keys)
  {
    if keys != [] {
      var front, last := keys[..|keys| - 1], keys[|keys| - 1];
      NewEntriesOrder(front, registry);
      var rest := NewEntries(front, registry);
      if last !in registry {
        assert (rest + [last])[..|rest|] == rest;
      }
    }
  }

  /** The removal list keeps the input's order: it is a subsequence of the input. */
  lemma {:induction false} PresentEntriesOrder(keys: seq<SubscribeReq>, registry: set<SubscribeReq>)
    ensures IsSubsequence(PresentEntries(keys, registry), keys)
  {
    if keys != [] {
      var front, last := keys[..|keys| - 1], keys[|keys| - 1];
      PresentEntriesOrder(front, registry);
      var rest := PresentEntries(front, registry);
      if last in registry {
        assert (rest + [last])[..|rest|] == rest;
      }
    }
  }

  /** `a` is `b` with some elements left out, the rest in order. */
  predicate IsSubsequence(a: seq<SubscribeReq>, b: seq<SubscribeReq>)
    decreases |b|
  {
    if a == [] then true
    else if b == [] then false
    else
      (a[|a| - 1] == b[|b| - 1] && IsSubsequence(a[..|a| - 1], b[..|b| - 1]))
      || IsSubsequence(a, b[..|b| - 1])
  }

  function Elements(s: seq<SubscribeReq>): set<SubscribeReq> {
    set k | k in s
  }

  predicate Distinct(s: seq<SubscribeReq>) {
    forall i, j :: 0 <= i < j < |s| ==> s[i] != s[j]
  }

  /** `args` lists every key of `registry` exactly once. */
  predicate Enumerates(args: seq<SubscribeReq>, registry: set<SubscribeReq>) {
    Elements(args) == registry && Distinct(args)
  }

  /** Index of the first element that already occurred earlier, or |s| if none. */
  function FirstRepeat(s: seq<SubscribeReq>, from: nat := 0): (r: nat)
    requires from <= |s|
    ensures from <= r <= |s|
    ensures r < |s| ==> s[r] in s[..r]
    ensures forall j :: from <= j < r ==> s[j] !in s[..j]
    decreases |s| - from
  {
    if from == |s| then |s|
    else if s[from] in s[..from] then from
    else FirstRepeat(s, from + 1)
  }

  lemma ElementsPrefixStep(s: seq<SubscribeReq>, i: nat)
    requires i < |s|
    ensures Elements(s[..i + 1]) == Elements(s[..i]) + {s[i]}
  {
    assert s[..i + 1] == s[..i] + [s[i]];
  }

  lemma PresentElements(keys: seq<SubscribeReq>, registry: set<SubscribeReq>)
    ensures Elements(PresentEntries(keys, registry)) == Elements(keys) * registry
  {
  }

  lemma DistinctIffNoRepeat(s: seq<SubscribeReq>)
    ensures Distinct(s) <==> FirstRepeat(s) == |s|
  {
    var r := FirstRepeat(s);
    if r < |s| {
      var i :| 0 <= i < r && s[..r][i] == s[r];
      assert s[i] == s[r];
    } else {
      forall i, j | 0 <= i < j < |s| ensures s[i] != s[j] {
        assert s[j] !in s[..j];
        assert s[..j][i] == s[i];
      }
    }
  }

  /** Appending one key adds it to the set. */
  lemma ElementsSnoc(front: seq<SubscribeReq>, last: SubscribeReq)
    ensures Elements(front + [last]) == Elements(front) + {last}
  {
    assert forall k :: k in front + [last] <==> k in front || k == last;
  }

  /** A repeat in `front + [last]` that `front` does not have is `last` occurring in `front`. */
  lemma RepeatOfLast(front: seq<SubscribeReq>, last: SubscribeReq)
    requires Distinct(front) && !Distinct(front + [last])
    ensures last in Elements(front)
  {
    var seed := front + [last];
    var i, j :| 0 <= i < j < |seed| && seed[i] == seed[j];
    assert j == |front|;
    assert front[i] == last;
  }

  /** A seed list collapses to a set no larger than it, strictly smaller when it repeats a key. */
  lemma {:induction false} SeedSetSize(seed: seq<SubscribeReq>)
    ensures |Elements(seed)| <= |seed|
    ensures !Distinct(seed) ==> |Elements(seed)| < |seed|
  {
    if seed != [] {
      var front, last := seed[..|seed| - 1], seed[|seed| - 1];
      SeedSetSize(front);
      assert seed == front + [last];
      ElementsSnoc(front, last);
      if !Distinct(seed) && Distinct(front) {
        RepeatOfLast(front, last);
        assert Elements(seed) == Elements(front);
      }
    }
  }

  // ---------------------------------------------------------------- backoff schedule

  /** What one pass sleeps: the initial delay after a successful handshake, else the running delay. */
  function Slept(delay: nat, handshakeOk: bool, initial: nat): nat {
    if handshakeOk then initial else delay
  }

  /** The running `delay` after the passes whose handshake results are `hs`. */
  function DelayAfter(initial: nat, cap: nat, hs: seq<bool>): nat {
    if hs == [] then initial
    else
      var d := DelayAfter(initial, cap, hs[..|hs| - 1]);
      Next(Slept(d, hs[|hs| - 1], initial), cap)
  }

  /** The sleeps taken by the passes whose handshake results are `hs`, in order. */
  function Schedule(initial: nat, cap: nat, hs: seq<bool>): (r: seq<nat>)
    ensures |r| == |hs|
  {
    if hs == [] then []
    else
      var front := hs[..|hs| - 1];
      Schedule(initial, cap, front) + [Slept(DelayAfter(initial, cap, front), hs[|hs| - 1], initial)]
  }

  lemma {:induction false} SchedulePrefix(initial: nat, cap: nat, hs: seq<bool>, k: nat)
    requires k <= |hs|
    ensures Schedule(initial, cap, hs)[..k] == Schedule(initial, cap, hs[..k])
    decreases |hs|
  {
    if k < |hs| {
      var front := hs[..|hs| - 1];
      SchedulePrefix(initial, cap, front, k);
      assert front[..k] == hs[..k];
    } else {
      assert hs[..k] == hs;
    }
  }

  /** The k-th sleep, in terms of the delay reached after the first k passes. */
  lemma ScheduleAt(initial: nat, cap: nat, hs: seq<bool>, k: nat)
    requires k < |hs|
    ensures Schedule(initial, cap, hs)[k] == Slept(DelayAfter(initial, cap, hs[..k]), hs[k], initial)
  {
    SchedulePrefix(initial, cap, hs, k + 1);
    assert hs[..k + 1][..k] == hs[..k];
  }

  /** A pass whose handshake succeeded sleeps exactly the initial delay: the reset. */
  lemma ResetAfterSuccess(initial: nat, cap: nat, hs: seq<bool>, k: nat)
    requires k < |hs| && hs[k]
    ensures Schedule(initial, cap, hs)[k] == initial
  {
    ScheduleAt(initial, cap, hs, k);
  }

  function Failures(k: nat): (hs: seq<bool>)
    ensures |hs| == k && forall i :: 0 <= i < k ==> !hs[i]
  {
    seq(k, i => false)
  }

  lemma {:induction false} DelayAfterFailures(initial: nat, cap: nat, k: nat)
    ensures DelayAfter(initial, cap, Failures(k)) == Doubled(initial, cap, k)
  {
    if k > 0 {
      DelayAfterFailures(initial, cap, k - 1);
      assert Failures(k)[..k - 1] == Failures(k - 1);
      DoubleStep(initial, cap, k - 1);
    }
  }

  /**
   * Repeated failed handshakes sleep `initial`, then `initial * 2^k` capped
   * at `cap`: 1, 2, 4, ..., 32, 60, 60, ... with the defaults.
   */
  lemma BackoffDoubles(initial: nat, cap: nat, n: nat, k: nat)
    requires k < n
    ensures Schedule(initial, cap, Failures(n))[k] == Doubled(initial, cap, k)
  {
    ScheduleAt(initial, cap, Failures(n), k);
    assert Failures(n)[..k] == Failures(k);
    DelayAfterFailures(initial, cap, k);
  }

  lemma DefaultBackoff()
    ensures Schedule(DEFAULT_RECONNECT_DELAY, DEFAULT_MAX_RECONNECT_DELAY, Failures(8))
         == [1, 2, 4, 8, 16, 32, 60, 60]
  {
    var s := Schedule(1, 60, Failures(8));
    DefaultDoubling();
    forall k | 0 <= k < 8 ensures s[k] == [1, 2, 4, 8, 16, 32, 60, 60][k] {
      BackoffDoubles(1, 60, 8, k);
    }
  }

  /** No sleep exceeds the larger of the initial delay and the cap. */
  lemma {:induction false} ScheduleBounded(initial: nat, cap: nat, hs: seq<bool>)
    ensures DelayAfter(initial, cap, hs) <= Max(initial, cap)
    ensures forall k :: 0 <= k < |hs| ==> Schedule(initial, cap, hs)[k] <= Max(initial, cap)
  {
    if hs != [] {
      ScheduleBounded(initial, cap, hs[..|hs| - 1]);
    }
  }

  // ---------------------------------------------------------------- the receive loop

  /** The messages `_receiver_loop` decodes: every frame but "pong" that parses. */
  function Received(frames: seq<string>, parse: string -> Option<Json>): seq<Json> {
    if frames == [] then []
    else
      var rest := Received(frames[..|frames| - 1], parse);
      var raw := frames[|frames| - 1];
      if raw == WS_PONG then rest
      else match parse(raw)
        case Some(msg) => rest + [msg]
        case None => rest
  }

  /** The frames `_receiver_loop` logs as invalid JSON. */
  function InvalidCount(frames: seq<string>, parse: string -> Option<Json>): nat {
    if frames == [] then 0
    else
      var raw := frames[|frames| - 1];
      InvalidCount(frames[..|frames| - 1], parse) + (if raw != WS_PONG && parse(raw).None? then 1 else 0)
  }

  function PongCount(frames: seq<string>): nat {
    if frames == [] then 0
    else PongCount(frames[..|frames| - 1]) + (if frames[|frames| - 1] == WS_PONG then 1 else 0)
  }

  /** Every frame is accounted for: skipped pong, decoded, or logged as invalid. */
  lemma {:induction false} EveryFrameAccounted(frames: seq<string>, parse: string -> Option<Json>)
    ensures PongCount(frames) + |Received(frames, parse)| + InvalidCount(frames, parse) == |frames|
  {
    if frames != [] {
      EveryFrameAccounted(frames[..|frames| - 1], parse);
    }
  }

  /**
   * A malformed frame does not end the loop: whatever comes after it is
   * decoded as if it had come first.
   */
  lemma {:induction false} ReceivedAppend(a: seq<string>, b: seq<string>, parse: string -> Option<Json>)
    ensures Received(a + b, parse) == Received(a, parse) + Received(b, parse)
    decreases |b|
  {
    if b == [] {
      assert a + b == a;
    } else {
      assert (a + b)[..|a + b| - 1] == a + b[..|b| - 1];
      ReceivedAppend(a, b[..|b| - 1], parse);
    }
  }

  /** "pong" is skipped before decoding, whatever the decoder would make of it. */
  lemma PongNeverDecoded(a: seq<string>, b: seq<string>, parse: string -> Option<Json>)
    ensures Received(a + [WS_PONG] + b, parse) == Received(a + b, parse)
  {
    ReceivedAppend(a + [WS_PONG], b, parse);
    ReceivedAppend(a, [WS_PONG], parse);
    ReceivedAppend(a, b, parse);
    assert Received([WS_PONG], parse) == [] by {
      assert [WS_PONG][..0] == [];
    }
  }

  /** A frame that fails to decode contributes nothing and the frames after it are still decoded. */
  lemma MalformedFrameSkipped(a: seq<string>, bad: string, b: seq<string>, parse: string -> Option<Json>)
    requires parse(bad).None?
    ensures Received(a + [bad] + b, parse) == Received(a, parse) + Received(b, parse)
  {
    ReceivedAppend(a + [bad], b, parse);
    ReceivedAppend(a, [bad], parse);
    assert Received([bad], parse) == [] by {
      assert [bad][..0] == [];
    }
  }

  // ---------------------------------------------------------------- the client

  function OutcomeOf(ws: Option<nat>, wsOpen: bool): SendOutcome {
    if ws.None? then NotConnected else if wsOpen then Written else ConnectionClosed
  }

  /** The log after `_send` of `frame`: one entry on the current socket iff it is open. */
  function Logged(log: seq<Wire>, ws: Option<nat>, wsOpen: bool, frame: Frame): seq<Wire> {
    if ws.Some? && wsOpen then log + [Wire(ws.value, frame)] else log
  }

  /** `n` heartbeat frames on socket `socket`. */
  function Pings(socket: nat, n: nat): (r: seq<Wire>)
    ensures |r| == n && forall i :: 0 <= i < n ==> r[i] == Wire(socket, Ping)
  {
    seq(n, _ => Wire(socket, Ping))
  }

  function CountOk(attempts: seq<Attempt>): nat {
    if attempts == [] then 0
    else CountOk(attempts[..|attempts| - 1]) + (if attempts[|attempts| - 1].handshakeOk then 1 else 0)
  }

  /** What `_resubscribe_all` writes on socket `socket`: one envelope enumerating the registry, or nothing. */
  ghost predicate ResubscribeFrames(socket: nat, registry: set<SubscribeReq>, frames: seq<Wire>) {
    if registry == {} then frames == []
    else exists args :: Enumerates(args, registry) && frames == [Wire(socket, Envelope(BaseWsReq(WS_OP_SUBSCRIBE, args)))]
  }

  /**
   * What one pass writes on socket `socket`: after a successful handshake on
   * a socket that stays open, the resubscription, then one ping per heartbeat
   * tick; otherwise (no handshake, or the socket closed before the first
   * write) nothing.
   */
  ghost predicate PassFrames(socket: nat, registry: set<SubscribeReq>, attempt: Attempt, frames: seq<Wire>) {
    if attempt.handshakeOk && !attempt.closedEarly then
      exists sub :: ResubscribeFrames(socket, registry, sub) && frames == sub + Pings(socket, attempt.ticks)
    else frames == []
  }

  /**
   * A pass whose new socket the server closes before the resubscription is
   * written writes nothing at all, yet sleeps the reset delay: the reset
   * comes before the write that raises.
   */
  lemma ClosedEarlyPass(socket: nat, registry: set<SubscribeReq>, attempt: Attempt, frames: seq<Wire>,
                        delay: nat, initial: nat)
    requires attempt.handshakeOk && attempt.closedEarly
    ensures PassFrames(socket, registry, attempt, frames) <==> frames == []
    ensures Slept(delay, attempt.handshakeOk, initial) == initial
  {
  }

  /**
   * What the passes over `attempts` write, chunk `j` being pass `j`'s frames;
   * the sockets are numbered from `first`, one per successful handshake.
   */
  ghost predicate PassesFrames(first: nat, registry: set<SubscribeReq>, attempts: seq<Attempt>, n: nat,
                               chunks: seq<seq<Wire>>)
    requires n <= |attempts|
  {
    && |chunks| == n
    && (n > 0 ==>
          && PassesFrames(first, registry, attempts, n - 1, chunks[..n - 1])
          && PassFrames(first + CountOk(attempts[..n - 1]), registry, attempts[n - 1], chunks[n - 1]))
  }

  /** The chunks one after the other. */
  function Flatten(chunks: seq<seq<Wire>>): seq<Wire> {
    if chunks == [] then [] else Flatten(chunks[..|chunks| - 1]) + chunks[|chunks| - 1]
  }

  lemma FlattenSnoc(chunks: seq<seq<Wire>>, frames: seq<Wire>)
    ensures Flatten(chunks + [frames]) == Flatten(chunks) + frames
  {
    assert (chunks + [frames])[..|chunks|] == chunks;
  }

  lemma AppendAssoc<T>(a: seq<T>, b: seq<T>, c: seq<T>)
    ensures a + b + c == a + (b + c)
  {
  }

  /** One more pass adds its chunk after those of the passes before it. */
  lemma PassesFramesStep(first: nat, registry: set<SubscribeReq>, attempts: seq<Attempt>, i: nat,
                         chunks: seq<seq<Wire>>, socket: nat, frames: seq<Wire>)
    requires i < |attempts| && socket == first + CountOk(attempts[..i])
    requires PassesFrames(first, registry, attempts, i, chunks)
    requires PassFrames(socket, registry, attempts[i], frames)
    ensures PassesFrames(first, registry, attempts, i + 1, chunks + [frames])
  {
    assert (chunks + [frames])[..i] == chunks;
  }

  /**
   * The bookkeeping of one turn of the reconnect loop: if the delay, sleeps,
   * socket count and frames account for the passes before pass `i`, and pass
   * `i` changes them as one pass does, they account for one pass more.
   */
  lemma TurnAccounts(initial: nat, cap: nat, attempts: seq<Attempt>, i: nat, first: nat,
                     registry: set<SubscribeReq>, sleeps0: seq<nat>, sent0: seq<Wire>, chunks: seq<seq<Wire>>,
                     delay: nat, delay': nat, sleeps: seq<nat>, sleeps': seq<nat>,
                     count: nat, count': nat, sent: seq<Wire>, sent': seq<Wire>, frames: seq<Wire>)
    requires i < |attempts|
    requires delay == DelayAfter(initial, cap, Handshakes(attempts[..i]))
    requires sleeps == sleeps0 + Schedule(initial, cap, Handshakes(attempts[..i]))
    requires count == first + CountOk(attempts[..i])
    requires sent == sent0 + Flatten(chunks)
    requires PassesFrames(first, registry, attempts, i, chunks)
    requires delay' == Next(Slept(delay, attempts[i].handshakeOk, initial), cap)
    requires sleeps' == sleeps + [Slept(delay, attempts[i].handshakeOk, initial)]
    requires count' == count + (if attempts[i].handshakeOk then 1 else 0)
    requires sent' == sent + frames
    requires PassFrames(count, registry, attempts[i], frames)
    ensures delay' == DelayAfter(initial, cap, Handshakes(attempts[..i + 1]))
    ensures sleeps' == sleeps0 + Schedule(initial, cap, Handshakes(attempts[..i + 1]))
    ensures count' == first + CountOk(attempts[..i + 1])
    ensures sent' == sent0 + Flatten(chunks + [frames])
    ensures PassesFrames(first, registry, attempts, i + 1, chunks + [frames])
  {
    PassStep(initial, cap, attempts, i);
    AppendAssoc(sleeps0, Schedule(initial, cap, Handshakes(attempts[..i])), [Slept(delay, attempts[i].handshakeOk, initial)]);
    PassesFramesStep(first, registry, attempts, i, chunks, count, frames);
    FlattenSnoc(chunks, frames);
    AppendAssoc(sent0, Flatten(chunks), frames);
  }

  function Handshakes(attempts: seq<Attempt>): (hs: seq<bool>)
    ensures |hs| == |attempts|
    ensures forall i :: 0 <= i < |attempts| ==> hs[i] == attempts[i].handshakeOk
  {
    seq(|attempts|, i requires 0 <= i < |attempts| => attempts[i].handshakeOk)
  }

  /** How many passes the reconnect loop makes: up to and including the first one during which `close` is called. */
  function Passes(attempts: seq<Attempt>): (n: nat)
    ensures n <= |attempts|
    ensures forall i :: 0 <= i < n - 1 ==> !attempts[i].closeRequested
    ensures n < |attempts| ==> n > 0 && attempts[n - 1].closeRequested
  {
    if attempts == [] then 0
    else if attempts[0].closeRequested then 1
    else 1 + Passes(attempts[1..])
  }

  /** How the schedule, the delay and the socket count grow by one pass. */
  lemma PassStep(initial: nat, cap: nat, attempts: seq<Attempt>, i: nat)
    requires i < |attempts|
    ensures var hs, a := Handshakes(attempts[..i]), attempts[i];
      && Handshakes(attempts[..i + 1]) == hs + [a.handshakeOk]
      && Schedule(initial, cap, hs + [a.handshakeOk])
         == Schedule(initial, cap, hs) + [Slept(DelayAfter(initial, cap, hs), a.handshakeOk, initial)]
      && DelayAfter(initial, cap, hs + [a.handshakeOk])
         == Next(Slept(DelayAfter(initial, cap, hs), a.handshakeOk, initial), cap)
      && CountOk(attempts[..i + 1]) == CountOk(attempts[..i]) + (if a.handshakeOk then 1 else 0)
  {
    var hs := Handshakes(attempts[..i]);
    assert (hs + [attempts[i].handshakeOk])[..|hs|] == hs;
    assert attempts[..i + 1][..i] == attempts[..i];
  }

  /** The number of passes `connect` makes, given whether the stop event is already set. */
  function PassCount(attempts: seq<Attempt>, stopped: bool): nat {
    if stopped then 0 else Passes(attempts)
  }

  /** A pass that is reached and not stopped before has another pass counted after it. */
  lemma PassesBeyond(attempts: seq<Attempt>, i: nat)
    requires i < |attempts| && i <= Passes(attempts)
    requires i > 0 ==> !attempts[i - 1].closeRequested
    ensures i < Passes(attempts)
  {
  }

  /** The pass during which `close` is called is the last one. */
  lemma PassesAt(attempts: seq<Attempt>, i: nat)
    requires i < Passes(attempts)
    ensures attempts[i].closeRequested ==> i + 1 == Passes(attempts)
  {
  }

  class BitgetWebsocketClient {
    const url: string
    const reconnectDelay: nat
    const maxReconnectDelay: nat
    const heartbeatInterval: nat

    /** `_channels`: the registry of subscription keys. */
    var channels: set<SubscribeReq>
    /** `_ws`: the socket of the latest connection (by number); never reset to None. */
    var ws: Option<nat>
    /** Whether that socket is still open. */
    var wsOpen: bool
    /** `_connected_event`. */
    var connected: bool
    /** `_stop_event`. */
    var stopRequested: bool
    /** The reconnect loop's `delay`. */
    var delay: nat
    /** Number of connections socketCount so far; they are numbered from 0. */
    var socketCount: nat
    /** Frames written, in order. */
    var sent: seq<Wire>
    /** Backoff sleeps taken, in order. */
    var sleeps: seq<nat>

    ghost predicate Valid()
      reads this
    {
      && (ws.None? <==> socketCount == 0)
      && (ws.Some? ==> ws.value + 1 == socketCount)
      && (wsOpen ==> ws.Some?)
      && delay <= Max(reconnectDelay, maxReconnectDelay)
    }

    /** `__init__`: the registry is the set of the stream manager's list. */
    constructor (url: string, seed: seq<SubscribeReq>, reconnectDelay: nat := DEFAULT_RECONNECT_DELAY,
                 maxReconnectDelay: nat := DEFAULT_MAX_RECONNECT_DELAY,
                 heartbeatInterval: nat := DEFAULT_HEARTBEAT_INTERVAL)
      ensures Valid()
      ensures channels == Elements(seed)
      ensures ws == None && !wsOpen && !connected && !stopRequested
      ensures sent == [] && sleeps == [] && socketCount == 0
      ensures this.url == url && this.reconnectDelay == reconnectDelay
      ensures this.maxReconnectDelay == maxReconnectDelay && this.heartbeatInterval == heartbeatInterval
    {
      this.url := url;
      this.reconnectDelay := reconnectDelay;
      this.maxReconnectDelay := maxReconnectDelay;
      this.heartbeatInterval := heartbeatInterval;
      channels := set k | k in seed;
      ws := None;
      wsOpen := false;
      connected := false;
      stopRequested := false;
      delay := reconnectDelay;
      socketCount := 0;
      sent := [];
      sleeps := [];
    }

    /** `_send`: a logged no-op while `_ws` is None; raises on a closed socket. */
    method Send(op: string, args: seq<SubscribeReq>) returns (r: SendOutcome)
      requires Valid()
      modifies this`sent
      ensures Valid()
      ensures r == OutcomeOf(ws, wsOpen)
      ensures sent == Logged(old(sent), ws, wsOpen, Envelope(BaseWsReq(op, args)))
    {
      if ws.None? {
        return NotConnected;
      }
      if !wsOpen {
        return ConnectionClosed;
      }
      sent := sent + [Wire(ws.value, Envelope(BaseWsReq(op, args)))];
      r := Written;
    }

    /**
     * `subscribe`: sends one `subscribe` envelope with the keys not yet
     * registered (input order, repeats kept), after adding them to the
     * registry; nothing at all when every key is registered.
     */
    method Subscribe(keys: seq<SubscribeReq>) returns (r: Change)
      requires Valid()
      modifies this`channels, this`sent
      ensures Valid()
      ensures NewEntries(keys, old(channels)) == [] ==>
        r == NoChange && channels == old(channels) && sent == old(sent)
      ensures NewEntries(keys, old(channels)) != [] ==>
        && channels == old(channels) + Elements(keys)
        && r == Attempted(OutcomeOf(ws, wsOpen))
        && sent == Logged(old(sent), ws, wsOpen, Envelope(BaseWsReq(WS_OP_SUBSCRIBE, NewEntries(keys, old(channels)))))
    {
      var added := NewEntries(keys, channels);
      if added == [] {
        return NoChange;
      }
      channels := channels + Elements(added);
      assert channels == old(channels) + Elements(keys);
      var outcome := Send(WS_OP_SUBSCRIBE, added);
      r := Attempted(outcome);
    }

    /** The `remove` loop of `unsubscribe`: stops with KeyError at the first repeated key. */
    method RemoveEach(rem: seq<SubscribeReq>) returns (ok: bool)
      requires Elements(rem) <= channels
      modifies this`channels
      ensures ok <==> Distinct(rem)
      ensures channels == old(channels) - Elements(rem[..FirstRepeat(rem)])
    {
      DistinctIffNoRepeat(rem);
      var i := 0;
      while i < |rem|
        invariant 0 <= i <= FirstRepeat(rem)
        invariant channels == old(channels) - Elements(rem[..i])
      {
        if rem[i] !in channels {
          assert rem[i] in rem[..i];
          return false;
        }
        ElementsPrefixStep(rem, i);
        channels := channels - {rem[i]};
        i := i + 1;
      }
      return true;
    }

    /**
     * `unsubscribe`: removes the registered keys of the input one by one and
     * sends one `unsubscribe` envelope with them. A registered key listed
     * twice makes the second `remove` raise KeyError: the keys before it are
     * already gone and nothing is sent.
     */
    method Unsubscribe(keys: seq<SubscribeReq>) returns (r: Change)
      requires Valid()
      modifies this`channels, this`sent
      ensures Valid()
      ensures var rem := PresentEntries(keys, old(channels));
        && (rem == [] ==> r == NoChange && channels == old(channels) && sent == old(sent))
        && (rem != [] && Distinct(rem) ==>
              && channels == old(channels) - Elements(keys)
              && r == Attempted(OutcomeOf(ws, wsOpen))
              && sent == Logged(old(sent), ws, wsOpen, Envelope(BaseWsReq(WS_OP_UNSUBSCRIBE, rem))))
        && (!Distinct(rem) ==>
              && r == KeyError && sent == old(sent)
              && channels == old(channels) - Elements(rem[..FirstRepeat(rem)]))
    {
      var rem := PresentEntries(keys, channels);
      if rem == [] {
        assert Distinct(rem);
        return NoChange;
      }
      PresentElements(keys, channels);
      var ok := RemoveEach(rem);
      if !ok {
        return KeyError;
      }
      DistinctIffNoRepeat(rem);
      assert rem[..FirstRepeat(rem)] == rem;
      var outcome := Send(WS_OP_UNSUBSCRIBE, rem);
      r := Attempted(outcome);
    }

    /**
     * `_resubscribe_all`: one `subscribe` envelope listing the whole
     * registry (in the set's iteration order), or nothing when it is empty.
     */
    method ResubscribeAll() returns (r: Option<SendOutcome>)
      requires Valid()
      modifies this`sent
      ensures Valid()
      ensures channels == {} ==> r == None && sent == old(sent)
      ensures channels != {} ==>
        && r == Some(OutcomeOf(ws, wsOpen))
        && exists args :: Enumerates(args, channels) &&
             sent == Logged(old(sent), ws, wsOpen, Envelope(BaseWsReq(WS_OP_SUBSCRIBE, args)))
    {
      if channels == {} {
        return None;
      }
      var rest := channels;
      var args := [];
      while rest != {}
        invariant rest <= channels
        invariant Elements(args) + rest == channels
        invariant Elements(args) !! rest
        invariant Distinct(args)
        decreases rest
      {
        var k :| k in rest;
        args := args + [k];
        rest := rest - {k};
      }
      var outcome := Send(WS_OP_SUBSCRIBE, args);
      r := Some(outcome);
    }

    /**
     * A successful handshake (the body of `async with connect(...)` up to
     * the receive loop): the new socket becomes `_ws`, the connected event
     * is set, the backoff delay is reset and the registry is resubscribed.
     * When the server has already closed the socket (`closedEarly`), the
     * resubscription's write raises ConnectionClosed and nothing is written.
     */
    method OpenSession(closedEarly: bool) returns (r: Option<SendOutcome>, ghost written: seq<Wire>)
      requires Valid()
      modifies this`ws, this`wsOpen, this`connected, this`delay, this`socketCount, this`sent
      ensures Valid()
      ensures ws == Some(old(socketCount)) && socketCount == old(socketCount) + 1
      ensures wsOpen == !closedEarly && connected && delay == reconnectDelay
      ensures r == if channels == {} then None else if closedEarly then Some(ConnectionClosed) else Some(Written)
      ensures sent == old(sent) + written
      ensures closedEarly ==> written == []
      ensures !closedEarly ==> ResubscribeFrames(old(socketCount), channels, written)
    {
      ws := Some(socketCount);
      socketCount := socketCount + 1;
      wsOpen := !closedEarly;
      connected := true;
      delay := reconnectDelay;
      r := ResubscribeAll();
      written := sent[|old(sent)|..];
      assert sent == old(sent) + written;
    }

    /** `_heartbeat`: one "ping" per tick while the socket is open; the first failed send ends it. */
    method Heartbeat(ticks: nat) returns (pings: nat)
      requires Valid()
      modifies this`sent
      ensures Valid()
      ensures pings == if wsOpen then ticks else 0
      ensures sent == old(sent) + Pings(ws.GetOr(0), pings)
    {
      pings := 0;
      if !wsOpen {
        return;
      }
      while pings < ticks
        invariant pings <= ticks
        invariant sent == old(sent) + Pings(ws.value, pings)
      {
        assert Pings(ws.value, pings + 1) == Pings(ws.value, pings) + [Wire(ws.value, Ping)];
        sent := sent + [Wire(ws.value, Ping)];
        pings := pings + 1;
      }
    }

    /** `_receiver_loop`: decodes every frame but "pong"; a malformed one is logged and skipped. */
    method ReceiverLoop(frames: seq<string>, parse: string -> Option<Json>) returns (received: seq<Json>, invalid: nat)
      requires ws.Some?
      ensures received == Received(frames, parse)
      ensures invalid == InvalidCount(frames, parse)
    {
      received, invalid := [], 0;
      var i := 0;
      while i < |frames|
        invariant i <= |frames|
        invariant received == Received(frames[..i], parse)
        invariant invalid == InvalidCount(frames[..i], parse)
      {
        var raw := frames[i];
        assert frames[..i + 1][..i] == frames[..i];
        if raw != WS_PONG {
          match parse(raw)
          case Some(msg) =>
            received := received + [msg];
          case None =>
            invalid := invalid + 1;
        }
        i := i + 1;
      }
      assert frames[..i] == frames;
    }

    /** `close`: sets the stop event and closes the current socket, if any. */
    method Close()
      requires Valid()
      modifies this`stopRequested, this`wsOpen
      ensures Valid()
      ensures stopRequested && !wsOpen
    {
      stopRequested := true;
      if ws.Some? {
        wsOpen := false;
      }
    }

    /** The reconnect loop's `finally`, then its sleep and the doubling of the delay. */
    method EndPass()
      requires Valid()
      modifies this`connected, this`wsOpen, this`sleeps, this`delay
      ensures Valid()
      ensures !connected && !wsOpen
      ensures sleeps == old(sleeps) + [old(delay)]
      ensures delay == Next(old(delay), maxReconnectDelay)
    {
      connected := false;
      wsOpen := false;
      sleeps := sleeps + [delay];
      delay := Next(delay, maxReconnectDelay);
    }

    /** One pass of the reconnect loop. */
    method Pass(attempt: Attempt, parse: string -> Option<Json>) returns (ghost frames: seq<Wire>)
      requires Valid()
      modifies this`ws, this`wsOpen, this`connected, this`delay, this`socketCount, this`sent,
               this`stopRequested, this`sleeps
      ensures Valid()
      ensures !connected && !wsOpen
      ensures sleeps == old(sleeps) + [Slept(old(delay), attempt.handshakeOk, reconnectDelay)]
      ensures delay == Next(Slept(old(delay), attempt.handshakeOk, reconnectDelay), maxReconnectDelay)
      ensures socketCount == old(socketCount) + (if attempt.handshakeOk then 1 else 0)
      ensures stopRequested == (old(stopRequested) || attempt.closeRequested)
      ensures ws == if attempt.handshakeOk then Some(old(socketCount)) else old(ws)
      ensures sent == old(sent) + frames
      ensures PassFrames(old(socketCount), channels, attempt, frames)
    {
      frames := [];
      if attempt.handshakeOk {
        var _, sub := OpenSession(attempt.closedEarly);
        if wsOpen {
          var _ := Heartbeat(attempt.ticks);
          frames := sub + Pings(old(socketCount), attempt.ticks);
          var _, _ := ReceiverLoop(attempt.inbound, parse);
        } else {
          // The socket is closed: the heartbeat's first ping fails, and when
          // the resubscription raised ConnectionClosed the receive loop is
          // never reached; a closed socket yields no frames either way.
          var pings := Heartbeat(attempt.ticks);
          assert pings == 0;
        }
      }
      if attempt.closeRequested {
        Close();
      }
      EndPass();
    }

    /**
     * One turn of `connect`'s loop: pass `i` over `attempts`, carrying the
     * backoff, socket and frame bookkeeping of the passes before it to `i + 1`.
     */
    method ConnectTurn(attempts: seq<Attempt>, i: nat, parse: string -> Option<Json>, ghost first: nat,
                       ghost sleeps0: seq<nat>, ghost sent0: seq<Wire>, ghost chunks: seq<seq<Wire>>)
      returns (ghost chunks': seq<seq<Wire>>)
      requires Valid() && i < |attempts|
      requires delay == DelayAfter(reconnectDelay, maxReconnectDelay, Handshakes(attempts[..i]))
      requires sleeps == sleeps0 + Schedule(reconnectDelay, maxReconnectDelay, Handshakes(attempts[..i]))
      requires socketCount == first + CountOk(attempts[..i])
      requires sent == sent0 + Flatten(chunks)
      requires PassesFrames(first, channels, attempts, i, chunks)
      modifies this`ws, this`wsOpen, this`connected, this`delay, this`socketCount, this`sent,
               this`stopRequested, this`sleeps
      ensures Valid() && !connected && !wsOpen
      ensures stopRequested == (old(stopRequested) || attempts[i].closeRequested)
      ensures delay == DelayAfter(reconnectDelay, maxReconnectDelay, Handshakes(attempts[..i + 1]))
      ensures sleeps == sleeps0 + Schedule(reconnectDelay, maxReconnectDelay, Handshakes(attempts[..i + 1]))
      ensures socketCount == first + CountOk(attempts[..i + 1])
      ensures sent == sent0 + Flatten(chunks')
      ensures PassesFrames(first, channels, attempts, i + 1, chunks')
    {
      ghost var delay0, sleeps1, count, sent1 := delay, sleeps, socketCount, sent;
      ghost var frames := Pass(attempts[i], parse);
      TurnAccounts(reconnectDelay, maxReconnectDelay, attempts, i, first, channels, sleeps0, sent0, chunks,
                   delay0, delay, sleeps1, sleeps, count, socketCount, sent1, sent, frames);
      chunks' := chunks + [frames];
    }

    /**
     * `connect`: passes of the reconnect loop, one per attempt, until the
     * stop event is set (or the given attempts run out). Each pass sleeps;
     * the sleeps follow the backoff schedule of the handshake results.
     */
    method Connect(attempts: seq<Attempt>, parse: string -> Option<Json>) returns (ghost chunks: seq<seq<Wire>>)
      requires Valid()
      modifies this`ws, this`wsOpen, this`connected, this`delay, this`socketCount, this`sent,
               this`stopRequested, this`sleeps
      ensures Valid()
      ensures var n := PassCount(attempts, old(stopRequested));
        && sleeps == old(sleeps) + Schedule(reconnectDelay, maxReconnectDelay, Handshakes(attempts[..n]))
        && socketCount == old(socketCount) + CountOk(attempts[..n])
        && delay == DelayAfter(reconnectDelay, maxReconnectDelay, Handshakes(attempts[..n]))
        && (n > 0 ==> !connected && !wsOpen)
        && (stopRequested <==> old(stopRequested) || (n > 0 && attempts[n - 1].closeRequested))
        && PassesFrames(old(socketCount), channels, attempts, n, chunks)
        && sent == old(sent) + Flatten(chunks)
    {
      delay := reconnectDelay;
      ghost var n := PassCount(attempts, stopRequested);
      chunks := [];
      var i := 0;
      while !stopRequested && i < |attempts|
        invariant Valid()
        invariant i <= n
        invariant stopRequested ==> i == n
        invariant stopRequested <==> old(stopRequested) || (i > 0 && attempts[i - 1].closeRequested)
        invariant delay == DelayAfter(reconnectDelay, maxReconnectDelay, Handshakes(attempts[..i]))
        invariant sleeps == old(sleeps) + Schedule(reconnectDelay, maxReconnectDelay, Handshakes(attempts[..i]))
        invariant socketCount == old(socketCount) + CountOk(attempts[..i])
        invariant i > 0 ==> !connected && !wsOpen
        invariant sent == old(sent) + Flatten(chunks)
        invariant PassesFrames(old(socketCount), channels, attempts, i, chunks)
      {
        PassesBeyond(attempts, i);
        PassesAt(attempts, i);
        chunks := ConnectTurn(attempts, i, parse, old(socketCount), old(sleeps), old(sent), chunks);
        i := i + 1;
      }
      assert i == n by {
        if !stopRequested {
          assert i == |attempts|;
        }
      }
    }
  }
}
