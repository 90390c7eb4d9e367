/**
 * `BitgetStreamManager.__init__`: the list of candle subscriptions built from
 * the strategy configuration. The legacy package holds the same code.
 */
module StreamManager {
  import opened WsDto

  /** One entry of the `strategies` dictionary (its values, in insertion order). */
  datatype Strategy = Strategy(productType: string, intervals: seq<string>, universe: seq<string>)

  /** The entry produced for interval `i` and symbol `j` of a strategy. */
  function Entry(st: Strategy, i: nat, j: nat): SubscribeReq
    requires i < |st.intervals| && j < |st.universe|
  {
    SubscribeReq(st.productType, "candle" + st.intervals[i], st.universe[j])
  }

  /** One interval's row: every symbol of the universe, in order. */
  function Row(productType: string, interval: string, universe: seq<string>): seq<SubscribeReq> {
    seq(|universe|, j requires 0 <= j < |universe| => SubscribeReq(productType, "candle" + interval, universe[j]))
  }

  function Rows(productType: string, intervals: seq<string>, universe: seq<string>): seq<SubscribeReq> {
    if intervals == [] then []
    else Rows(productType, intervals[..|intervals| - 1], universe) + Row(productType, intervals[|intervals| - 1], universe)
  }

  /** What one strategy contributes: interval-major, then symbol. */
  function StrategyChannels(st: Strategy): seq<SubscribeReq> {
    Rows(st.productType, st.intervals, st.universe)
  }

  /** `self.channels`: strategies outermost, then intervals, then symbols. */
  function Channels(strategies: seq<Strategy>): seq<SubscribeReq> {
    if strategies == [] then [] else StrategyChannels(strategies[0]) + Channels(strategies[1..])
  }

  function Count(strategies: seq<Strategy>): nat {
    if strategies == [] then 0
    else |strategies[0].intervals| * |strategies[0].universe| + Count(strategies[1..])
  }

  lemma MulStep(i: nat, u: nat)
    requires i > 0
    ensures i * u == u + (i - 1) * u
  {
  }

  lemma MulBound(i: nat, n: nat, u: nat, j: nat)
    requires i < n && j < u
    ensures i * u + j < n * u
  {
    assert (i + 1) * u <= n * u by {
      assert n - (i + 1) >= 0;
      assert n * u == (i + 1) * u + (n - (i + 1)) * u;
    }
  }

  lemma DivMod(p: nat, n: nat, u: nat)
    requires p < n * u
    ensures u > 0 && p / u < n && p == (p / u) * u + p % u && p % u < u
  {
  }

  lemma {:induction false} RowsLength(productType: string, intervals: seq<string>, universe: seq<string>)
    ensures |Rows(productType, intervals, universe)| == |intervals| * |universe|
    decreases |intervals|
  {
    if intervals != [] {
      RowsLength(productType, intervals[..|intervals| - 1], universe);
      MulStep(|intervals|, |universe|);
    }
  }

  lemma {:induction false} RowsAt(productType: string, intervals: seq<string>, universe: seq<string>, i: nat, j: nat)
    requires i < |intervals| && j < |universe|
    ensures i * |universe| + j < |Rows(productType, intervals, universe)|
      && Rows(productType, intervals, universe)[i * |universe| + j]
         == SubscribeReq(productType, "candle" + intervals[i], universe[j])
    decreases |intervals|
  {
    var n, u := |intervals|, |universe|;
    RowsLength(productType, intervals, universe);
    MulBound(i, n, u, j);
    var front := intervals[..n - 1];
    var prefix := Rows(productType, front, universe);
    RowsLength(productType, front, universe);
    if i < n - 1 {
      RowsAt(productType, front, universe, i, j);
    } else {
      assert i * u + j == |prefix| + j;
    }
  }

  /** Interval `i`, symbol `j` of a strategy sits at position `i * |universe| + j`. */
  lemma StrategyChannelsAt(st: Strategy, i: nat, j: nat)
    requires i < |st.intervals| && j < |st.universe|
    ensures |StrategyChannels(st)| == |st.intervals| * |st.universe|
    ensures i * |st.universe| + j < |StrategyChannels(st)|
      && StrategyChannels(st)[i * |st.universe| + j] == Entry(st, i, j)
  {
    RowsLength(st.productType, st.intervals, st.universe);
    RowsAt(st.productType, st.intervals, st.universe, i, j);
  }

  /** The list has one entry per (strategy, interval, symbol) triple. */
  lemma {:induction false} ChannelsLength(strategies: seq<Strategy>)
    ensures |Channels(strategies)| == Count(strategies)
  {
    if strategies != [] {
      RowsLength(strategies[0].productType, strategies[0].intervals, strategies[0].universe);
      ChannelsLength(strategies[1..]);
    }
  }

  /** A strategy with no interval or no symbol contributes nothing. */
  lemma EmptyStrategyContributesNothing(st: Strategy)
    requires st.intervals == [] || st.universe == []
    ensures StrategyChannels(st) == []
  {
    RowsLength(st.productType, st.intervals, st.universe);
  }

  /** Strategies contribute in order: the list of a concatenation is the concatenation of lists. */
  lemma {:induction false} ChannelsAppend(a: seq<Strategy>, b: seq<Strategy>)
    ensures Channels(a + b) == Channels(a) + Channels(b)
  {
    if a == [] {
      assert a + b == b;
    } else {
      assert (a + b)[1..] == a[1..] + b;
      ChannelsAppend(a[1..], b);
    }
  }

  /** `k` is the entry of some interval and symbol of strategy `st`. */
  ghost predicate EntryOf(st: Strategy, k: SubscribeReq) {
    exists i, j :: 0 <= i < |st.intervals| && 0 <= j < |st.universe| && k == Entry(st, i, j)
  }

  lemma StrategyChannelsAtPosition(st: Strategy, p: nat)
    requires p < |StrategyChannels(st)|
    ensures EntryOf(st, StrategyChannels(st)[p])
  {
    var n, u := |st.intervals|, |st.universe|;
    RowsLength(st.productType, st.intervals, st.universe);
    DivMod(p, n, u);
    var i, j := p / u, p % u;
    StrategyChannelsAt(st, i, j);
    assert p == i * u + j;
  }

  lemma StrategyMembership(st: Strategy, k: SubscribeReq)
    ensures k in StrategyChannels(st) <==> EntryOf(st, k)
  {
    if k in StrategyChannels(st) {
      var p :| 0 <= p < |StrategyChannels(st)| && StrategyChannels(st)[p] == k;
      StrategyChannelsAtPosition(st, p);
    }
    if EntryOf(st, k) {
      var i, j :| 0 <= i < |st.intervals| && 0 <= j < |st.universe| && k == Entry(st, i, j);
      StrategyChannelsAt(st, i, j);
    }
  }

  /**
   * Every entry is the entry of some strategy's interval and symbol, and
   * every such entry is in the list.
   */
  lemma {:induction false} ChannelsMembership(strategies: seq<Strategy>, k: SubscribeReq)
    ensures k in Channels(strategies) <==> (exists st :: st in strategies && EntryOf(st, k))
  {
    if strategies != [] {
      ChannelsMembership(strategies[1..], k);
      StrategyMembership(strategies[0], k);
      assert forall st :: st in strategies <==> st == strategies[0] || st in strategies[1..];
    }
  }

  /** Every entry's channel is "candle" followed by one of its strategy's intervals. */
  lemma EntriesAreCandleChannels(strategies: seq<Strategy>, k: SubscribeReq)
    requires k in Channels(strategies)
    ensures |k.channel| >= 6 && k.channel[..6] == "candle"
    ensures exists st :: st in strategies && k.instType == st.productType
                         && k.channel[6..] in st.intervals && k.instId in st.universe
  {
    ChannelsMembership(strategies, k);
    var st :| st in strategies && EntryOf(st, k);
    var i, j :| 0 <= i < |st.intervals| && 0 <= j < |st.universe| && k == Entry(st, i, j);
    assert k.channel == "candle" + st.intervals[i];
    assert k.channel[6..] == st.intervals[i];
  }

  /** The list keeps repeats: two strategies naming the same pair give it twice. */
  lemma DuplicatesAcrossStrategiesKept(st: Strategy)
    requires |st.intervals| == 1 && |st.universe| == 1
    ensures Channels([st, st]) == [Entry(st, 0, 0), Entry(st, 0, 0)]
  {
    StrategyChannelsAt(st, 0, 0);
    assert Channels([st, st][1..]) == StrategyChannels(st) + Channels([]) by {
      assert [st, st][1..] == [st];
    }
  }
}
