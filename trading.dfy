/**
 * The hourly BTCUSDT futures strategy: buy after a large bearish candle,
 * take half the position off once the gain beats both the recent average
 * change and a minimum. Prices and sizes are exact reals here; the source
 * computes them with `Decimal`.
 */
module Trading {
  import opened Wrappers
  import opened Text

  const ENTRY_AMOUNT: real := 400.0
  const PROFIT_TARGET_RATE: real := 1.05
  const PARTIAL_CLOSE_RATIO: real := 0.5
  const MIN_PROFIT_RATE: real := 0.3
  /** How many of the latest candles the sell rule averages over (and always divides by). */
  const SELL_WINDOW: nat := 20
  const MIN_CANDLES: nat := 3

  datatype Candle = Candle(startTime: int, open: real, high: real, low: real, close: real, volume: real)
  {
    predicate IsBullish() {
      close > open
    }

    predicate IsBearish() {
      close < open
    }

    function BodySize(): (b: real)
      ensures b >= 0.0
      ensures b == 0.0 <==> !IsBullish() && !IsBearish()
    {
      if close >= open then close - open else open - close
    }

    /** Percentage change from open to close; 0 for a zero open. */
    function ChangeRate(): (r: real)
      ensures open == 0.0 ==> r == 0.0
      ensures open != 0.0 ==> r * open == (close - open) * 100.0
    {
      if open == 0.0 then 0.0 else (close - open) / open * 100.0
    }
  }

  /** A candle is never both bullish and bearish; a bullish candle with positive open has a positive change. */
  lemma CandleDirections(k: Candle)
    ensures !(k.IsBullish() && k.IsBearish())
    ensures k.IsBullish() && k.open > 0.0 ==> k.ChangeRate() > 0.0
    ensures k.IsBearish() && k.open > 0.0 ==> k.ChangeRate() < 0.0
  {
  }

  /** `to_integral_value(rounding=ROUND_DOWN)`: towards zero. */
  function Trunc(x: real): int {
    if x >= 0.0 then x.Floor else -((-x).Floor)
  }

  /** Truncation moves towards zero by less than one. */
  lemma TruncBounds(x: real)
    ensures x >= 0.0 ==> Trunc(x) as real <= x < Trunc(x) as real + 1.0
    ensures x < 0.0 ==> Trunc(x) as real - 1.0 < x <= Trunc(x) as real
  {
  }

  /** `_round_to_step`: the whole number of steps in `value`, truncated towards zero; step 0 leaves it as it is. */
  function RoundToStep(value: real, step: real): (r: real)
    ensures step == 0.0 ==> r == value
  {
    if step == 0.0 then value else Trunc(value / step) as real * step
  }

  /** The result is a whole number of steps. */
  lemma RoundToStepIsMultiple(value: real, step: real)
    requires step != 0.0
    ensures var n := RoundToStep(value, step) / step; n == n.Floor as real
  {
    var n := Trunc(value / step) as real;
    MulDiv(n, step);
    assert RoundToStep(value, step) / step == n;
  }

  lemma MulLe(a: real, b: real, c: real)
    requires a <= b && c > 0.0
    ensures a * c <= b * c
  {
  }

  lemma MulLt(a: real, b: real, c: real)
    requires a < b && c > 0.0
    ensures a * c < b * c
  {
  }

  lemma DivMul(x: real, step: real)
    requires step != 0.0
    ensures (x / step) * step == x
  {
  }

  lemma MulDiv(a: real, step: real)
    requires step != 0.0
    ensures (a * step) / step == a
  {
  }

  lemma AddStep(n: real, step: real)
    ensures (n + 1.0) * step == n * step + step && (n - 1.0) * step == n * step - step
  {
  }

  /** Dividing by a positive step keeps the sign. */
  lemma DivSign(x: real, step: real)
    requires step > 0.0
    ensures x >= 0.0 <==> x / step >= 0.0
  {
    DivMul(x, step);
    if x / step < 0.0 {
      MulLt(x / step, 0.0, step);
    } else {
      MulLe(0.0, x / step, step);
    }
  }

  /** Scaling `n <= q < n + 1` (with `0 <= n`) by a positive step. */
  lemma ScaleUp(n: real, q: real, step: real, value: real)
    requires step > 0.0 && 0.0 <= n <= q < n + 1.0 && q * step == value
    ensures 0.0 <= n * step <= value < n * step + step
  {
    MulLe(0.0, n, step);
    MulLe(n, q, step);
    MulLt(q, n + 1.0, step);
    AddStep(n, step);
  }

  /** Scaling `n - 1 < q <= n` (with `n <= 0`) by a positive step. */
  lemma ScaleDown(n: real, q: real, step: real, value: real)
    requires step > 0.0 && n - 1.0 < q <= n <= 0.0 && q * step == value
    ensures n * step - step < value <= n * step <= 0.0
  {
    MulLe(q, n, step);
    MulLe(n, 0.0, step);
    MulLt(n - 1.0, q, step);
    AddStep(n, step);
  }

  /** For a non-negative value and a positive step the result is the largest multiple not above the value. */
  lemma RoundToStepBounds(value: real, step: real)
    requires value >= 0.0 && step > 0.0
    ensures var r := RoundToStep(value, step);
      0.0 <= r <= value < r + step
  {
    var q := value / step;
    DivMul(value, step);
    DivSign(value, step);
    TruncBounds(q);
    ScaleUp(Trunc(q) as real, q, step, value);
  }

  /** Rounding is idempotent. */
  lemma RoundToStepIdempotent(value: real, step: real)
    ensures RoundToStep(RoundToStep(value, step), step) == RoundToStep(value, step)
  {
    if step != 0.0 {
      var n := Trunc(value / step);
      var r := n as real * step;
      assert RoundToStep(value, step) == r;
      MulDiv(n as real, step);
      assert r / step == n as real;
      assert Trunc(n as real) == n;
      assert RoundToStep(r, step) == Trunc(r / step) as real * step;
    }
  }

  /** Negative values move up towards zero, never down. */
  lemma RoundToStepNegative(value: real, step: real)
    requires value < 0.0 && step > 0.0
    ensures var r := RoundToStep(value, step);
      r - step < value <= r <= 0.0
  {
    var q := value / step;
    DivMul(value, step);
    DivSign(value, step);
    TruncBounds(q);
    ScaleDown(Trunc(q) as real, q, step, value);
  }

  function Pow10(e: int): (p: real)
    ensures p > 0.0
    decreases if e < 0 then -e else e
  {
    if e == 0 then 1.0 else if e > 0 then 10.0 * Pow10(e - 1) else Pow10(e + 1) / 10.0
  }

  /** The contract fields the strategy reads, already parsed. `sizeMultiplier` is `None` when missing or empty. */
  datatype ContractSpec = ContractSpec(
    pricePlace: Option<int>, priceEndStep: Option<real>, sizeMultiplier: Option<real>,
    volumePlace: Option<int>, minTradeNum: Option<real>, minTradeUSDT: Option<real>)

  datatype TradingSpecs = TradingSpecs(tick: real, qtyStep: real, minTradeNum: real, minTradeUsdt: real)

  /** The spec the script hard-codes for BTCUSDT. */
  const BTCUSDT_SPEC: ContractSpec :=
    ContractSpec(Some(1), Some(1.0), Some(0.0001), Some(4), Some(0.0001), Some(5.0))

  /** `_get_trading_specs`, with the source's defaults for missing fields. */
  function GetTradingSpecs(spec: ContractSpec): (s: TradingSpecs)
    ensures spec.sizeMultiplier.Some? ==> s.qtyStep == spec.sizeMultiplier.value
    ensures s.minTradeNum == spec.minTradeNum.GetOr(0.0) && s.minTradeUsdt == spec.minTradeUSDT.GetOr(0.0)
  {
    var tick := (1.0 / Pow10(spec.pricePlace.GetOr(1))) * spec.priceEndStep.GetOr(1.0);
    var qtyStep := match spec.sizeMultiplier
      case Some(m) => m
      case None => 1.0 / Pow10(spec.volumePlace.GetOr(4));
    TradingSpecs(tick, qtyStep, spec.minTradeNum.GetOr(0.0), spec.minTradeUSDT.GetOr(0.0))
  }

  lemma ScaleByInverse(p: real, x: real, t: real)
    requires p > 0.0 && t == (1.0 / p) * x
    ensures t * p == x
  {
  }

  /** The tick is `priceEndStep` shifted right by `pricePlace` decimal places. */
  lemma TickScale(spec: ContractSpec)
    ensures GetTradingSpecs(spec).tick * Pow10(spec.pricePlace.GetOr(1)) == spec.priceEndStep.GetOr(1.0)
  {
    ScaleByInverse(Pow10(spec.pricePlace.GetOr(1)), spec.priceEndStep.GetOr(1.0), GetTradingSpecs(spec).tick);
  }

  /** Without a size multiplier, the size step is one unit at the `volumePlace`-th decimal place. */
  lemma QtyStepScale(spec: ContractSpec)
    requires spec.sizeMultiplier.None?
    ensures GetTradingSpecs(spec).qtyStep * Pow10(spec.volumePlace.GetOr(4)) == 1.0
  {
    ScaleByInverse(Pow10(spec.volumePlace.GetOr(4)), 1.0, GetTradingSpecs(spec).qtyStep);
  }

  /** The hard-coded spec gives a 0.1 tick and a 0.0001 size step. */
  lemma HardCodedSpecs()
    ensures GetTradingSpecs(BTCUSDT_SPEC) == TradingSpecs(0.1, 0.0001, 0.0001, 5.0)
  {
    assert Pow10(1) == 10.0 by {
      assert Pow10(0) == 1.0;
    }
  }

  function SumBodies(candles: seq<Candle>): (s: real)
    ensures s >= 0.0
  {
    if candles == [] then 0.0 else SumBodies(candles[..|candles| - 1]) + candles[|candles| - 1].BodySize()
  }

  /** The mean body size over all the candles. */
  function AvgBodySize(candles: seq<Candle>): real
    requires candles != []
  {
    SumBodies(candles) / (|candles| as real)
  }

  predicate Condition1(candles: seq<Candle>)
    requires |candles| >= 2
  {
    var prev, last := candles[|candles| - 2], candles[|candles| - 1];
    prev.IsBullish() && last.IsBearish() && last.BodySize() > AvgBodySize(candles)
  }

  predicate Condition2(candles: seq<Candle>)
    requires |candles| >= 2
  {
    var prev, last := candles[|candles| - 2], candles[|candles| - 1];
    prev.IsBearish() && last.IsBearish() && last.BodySize() > AvgBodySize(candles) && last.BodySize() > prev.BodySize()
  }

  /** `check_buy_conditions`. */
  function CheckBuyConditions(candles: seq<Candle>): (buy: bool)
    ensures |candles| < MIN_CANDLES ==> !buy
    ensures |candles| >= MIN_CANDLES ==> (buy <==> Condition1(candles) || Condition2(candles))
    ensures buy ==> candles[|candles| - 1].IsBearish() && candles[|candles| - 1].BodySize() > AvgBodySize(candles)
  {
    if |candles| < MIN_CANDLES then false
    else Condition1(candles) || Condition2(candles)
  }

  lemma {:induction false} SumOfEqualBodies(candles: seq<Candle>, b: real)
    requires forall i :: 0 <= i < |candles| ==> candles[i].BodySize() == b
    ensures SumBodies(candles) == |candles| as real * b
  {
    if candles != [] {
      SumOfEqualBodies(candles[..|candles| - 1], b);
    }
  }

  /** When every candle has the same body, none stands out from the mean, so there is no buy. */
  lemma UniformBodiesNeverBuy(candles: seq<Candle>)
    requires candles != []
    requires forall i :: 0 <= i < |candles| ==> candles[i].BodySize() == candles[0].BodySize()
    ensures !CheckBuyConditions(candles)
  {
    SumOfEqualBodies(candles, candles[0].BodySize());
    assert AvgBodySize(candles) == candles[0].BodySize();
  }

  /** The price and size of a limit order. */
  datatype Order = Order(price: real, size: real)

  /** The `decimal` signals the strategy does not catch: `x/0` for non-zero `x`, and `0/0`. */
  datatype ArithmeticError = DivisionByZero | DivisionUndefined

  /** The quantity after the minimum-size floor. */
  function AtLeast(qty: real, minimum: real): (r: real)
    ensures r >= minimum && (qty >= minimum ==> r == qty)
  {
    if qty < minimum then minimum else qty
  }

  /**
   * The sizing of `place_buy_order`. The quantity spends the entry amount at
   * the bid, rounded down to the size step and raised to the minimum size; the
   * price is the bid rounded down to the tick. If that order is worth less
   * than the minimum notional, the quantity is recomputed from the minimum
   * notional, again rounded down and raised to the minimum size.
   */
  function BuySizing(bid: real, specs: TradingSpecs): Result<Order, ArithmeticError>
  {
    if bid == 0.0 then Err(DivisionByZero)
    else
      var qty := AtLeast(RoundToStep(ENTRY_AMOUNT / bid, specs.qtyStep), specs.minTradeNum);
      MinNotionalCorrection(RoundToStep(bid, specs.tick), qty, specs)
  }

  /** The minimum-notional correction of `place_buy_order`, at a given price and quantity. */
  function MinNotionalCorrection(price: real, qty: real, specs: TradingSpecs): Result<Order, ArithmeticError>
  {
    if price * qty < specs.minTradeUsdt then
      if price == 0.0 then Err(DivisionByZero)
      else Ok(Order(price, AtLeast(RoundToStep(specs.minTradeUsdt / price, specs.qtyStep), specs.minTradeNum)))
    else Ok(Order(price, qty))
  }

  /**
   * Sizing fails exactly when the bid is 0, or when the price rounds to 0
   * and the minimum notional is positive; otherwise the price is the bid
   * rounded to the tick and the size is at least the minimum size.
   */
  lemma BuySizingOutcome(bid: real, specs: TradingSpecs)
    ensures var r := BuySizing(bid, specs);
      && (r.Err? <==> bid == 0.0 || (RoundToStep(bid, specs.tick) == 0.0 && specs.minTradeUsdt > 0.0))
      && (r.Ok? ==> r.value.price == RoundToStep(bid, specs.tick) && r.value.size >= specs.minTradeNum)
  {
    if bid != 0.0 {
      var qty := AtLeast(RoundToStep(ENTRY_AMOUNT / bid, specs.qtyStep), specs.minTradeNum);
      var price := RoundToStep(bid, specs.tick);
      assert BuySizing(bid, specs) == MinNotionalCorrection(price, qty, specs);
      if price == 0.0 {
        assert price * qty == 0.0;
      }
    }
  }

  /**
   * The sizing statements of `place_buy_order`, in their order: the quantity
   * is assigned, floored at the minimum size, and reassigned when the order
   * falls short of the minimum notional.
   */
  method PlaceBuyOrder(bid: real, specs: TradingSpecs) returns (r: Result<Order, ArithmeticError>)
    ensures r == BuySizing(bid, specs)
  {
    if bid == 0.0 {
      return Err(DivisionByZero);
    }
    var rawQty := ENTRY_AMOUNT / bid;
    var qty := RoundToStep(rawQty, specs.qtyStep);
    if qty < specs.minTradeNum {
      qty := specs.minTradeNum;
    }
    var price := RoundToStep(bid, specs.tick);
    r := Correct(price, qty, specs);
  }

  /** The correction statements of `place_buy_order`. */
  method Correct(price: real, qty: real, specs: TradingSpecs) returns (r: Result<Order, ArithmeticError>)
    ensures r == MinNotionalCorrection(price, qty, specs)
  {
    var size := qty;
    if price * size < specs.minTradeUsdt {
      if price == 0.0 {
        return Err(DivisionByZero);
      }
      size := RoundToStep(specs.minTradeUsdt / price, specs.qtyStep);
      if size < specs.minTradeNum {
        size := specs.minTradeNum;
      }
    }
    r := Ok(Order(price, size));
  }

  /** The buy price never exceeds the bid, and is within one tick of it. */
  lemma BuyPriceAtMostBid(bid: real, specs: TradingSpecs)
    requires bid > 0.0 && specs.tick > 0.0
    requires BuySizing(bid, specs).Ok?
    ensures var o := BuySizing(bid, specs).value;
      o.price <= bid < o.price + specs.tick
  {
    RoundToStepBounds(bid, specs.tick);
  }

  /**
   * The correction rounds down too, so a corrected order can still be worth
   * less than the minimum notional: here a 1000 minimum at a 300 bid ends
   * at 3 units, worth 900.
   */
  lemma CorrectionCanStayBelowMinimum()
    ensures var specs := TradingSpecs(1.0, 1.0, 0.0, 1000.0);
      var r := BuySizing(300.0, specs);
      r.Ok? && r.value == Order(300.0, 3.0) && r.value.price * r.value.size < specs.minTradeUsdt
  {
    var specs := TradingSpecs(1.0, 1.0, 0.0, 1000.0);
    assert RoundToStep(300.0, 1.0) == 300.0 by {
      assert Trunc(300.0) == 300;
    }
    assert RoundToStep(ENTRY_AMOUNT / 300.0, 1.0) == 1.0 by {
      assert Trunc(400.0 / 300.0) == 1;
    }
    assert RoundToStep(1000.0 / 300.0, 1.0) == 3.0 by {
      assert Trunc(1000.0 / 300.0) == 3;
    }
  }

  /**
   * With the hard-coded spec the minimum-notional correction is dead code
   * for any usable price: an order at a non-zero price is always worth at
   * least 5 USDT before correction, so the branch is only reached with a
   * zero price, where it divides by zero.
   */
  lemma HardCodedOrderMeetsMinimum(bid: real)
    requires bid > 0.0
    requires RoundToStep(bid, 0.1) != 0.0
    ensures var p := RoundToStep(bid, 0.1);
      var q := AtLeast(RoundToStep(ENTRY_AMOUNT / bid, 0.0001), 0.0001);
      p * q >= 5.0
  {
    var p := RoundToStep(bid, 0.1);
    var raw := RoundToStep(ENTRY_AMOUNT / bid, 0.0001);
    RoundToStepBounds(bid, 0.1);
    RoundToStepBounds(ENTRY_AMOUNT / bid, 0.0001);
    assert p >= 0.1 by {
      var n := Trunc(bid / 0.1);
      assert p == n as real * 0.1;
      assert n >= 1;
    }
    NotionalBound(bid, p, ENTRY_AMOUNT / bid, raw, AtLeast(raw, 0.0001));
  }

  /** The arithmetic behind the lemma above: `p` is the bid to 0.1, `w` the entry amount over the bid. */
  lemma NotionalBound(bid: real, p: real, w: real, raw: real, q: real)
    requires bid > 0.0 && 0.1 <= p <= bid < p + 0.1
    requires w * bid == 400.0 && raw + 0.0001 > w
    requires q >= raw && q >= 0.0001
    ensures p * q >= 5.0
  {
    if bid > 3000000.0 {
      MulLe(0.0001, q, p);
    } else {
      MulLe(raw, q, p);
      MulLt(w, raw + 0.0001, p);
      assert p * q > p * w - p * 0.0001;
      if bid < 1.0 {
        MulLe(0.5 * bid, p, w);
        assert 0.5 * bid * w == 200.0;
      } else {
        MulLe(0.9 * bid, p, w);
        assert 0.9 * bid * w == 360.0;
      }
    }
  }

  /** The first position `get_position` returns, as far as the sell rule reads it. */
  datatype Position = Position(openPriceAvg: real, available: real, marginMode: Option<string>, holdSide: Option<string>)

  /** The closing order: limit price, size, and the position's side and margin mode in lower case. */
  datatype CloseOrder = CloseOrder(price: real, size: real, holdSide: string, marginMode: string)

  datatype SellDecision = NoPosition | NoSize | Hold | PartialClose(order: CloseOrder)

  /** The latest `n` candles (`candles[-n:]`), or all of them when there are fewer. */
  function Latest(candles: seq<Candle>, n: nat): (r: seq<Candle>)
    ensures |r| == if |candles| < n then |candles| else n
    ensures r == candles[|candles| - |r|..]
  {
    if |candles| <= n then candles else candles[|candles| - n..]
  }

  function SumChangeRates(candles: seq<Candle>): real {
    if candles == [] then 0.0 else SumChangeRates(candles[..|candles| - 1]) + candles[|candles| - 1].ChangeRate()
  }

  /** The sum of the latest 20 change rates over 20, even when fewer candles are given. */
  function AvgChangeRate(candles: seq<Candle>): real {
    SumChangeRates(Latest(candles, SELL_WINDOW)) / (SELL_WINDOW as real)
  }

  lemma {:induction false} SumOfEqualRates(candles: seq<Candle>, c: real)
    requires forall i :: 0 <= i < |candles| ==> candles[i].ChangeRate() == c
    ensures SumChangeRates(candles) == |candles| as real * c
  {
    if candles != [] {
      SumOfEqualRates(candles[..|candles| - 1], c);
    }
  }

  /**
   * The divisor is always 20: with a shorter history of equal change rates
   * `c`, the average comes out as `n * c / 20`, not `c`.
   */
  lemma ShortHistoryDilutesAverage(candles: seq<Candle>, c: real)
    requires |candles| < SELL_WINDOW
    requires forall i :: 0 <= i < |candles| ==> candles[i].ChangeRate() == c
    ensures AvgChangeRate(candles) == |candles| as real * c / 20.0
  {
    SumOfEqualRates(candles, c);
  }

  /** `(x or default).lower()`: a missing or empty string falls back to the default. */
  function LowerOr(x: Option<string>, default: string): (r: string)
    ensures x.None? || x.value == [] ==> r == Lower(default)
    ensures x.Some? && x.value != [] ==> r == Lower(x.value)
    ensures forall i :: 0 <= i < |r| ==> !('A' <= r[i] <= 'Z')
  {
    if x.None? || x.value == [] then Lower(default) else Lower(x.value)
  }

  /** `_execute_partial_close`'s order: half the size down to the size step, at the ask down to the tick. */
  function PartialCloseOrder(position: Position, ask: real, size: real, specs: TradingSpecs): (o: CloseOrder)
    ensures o.price == RoundToStep(ask, specs.tick)
    ensures o.size == RoundToStep(size * PARTIAL_CLOSE_RATIO, specs.qtyStep)
    ensures o.holdSide == LowerOr(position.holdSide, "long")
    ensures o.marginMode == LowerOr(position.marginMode, "crossed")
  {
    CloseOrder(RoundToStep(ask, specs.tick), RoundToStep(size * PARTIAL_CLOSE_RATIO, specs.qtyStep),
               LowerOr(position.holdSide, "long"), LowerOr(position.marginMode, "crossed"))
  }

  /**
   * A position that reports neither side nor margin mode (or empty ones) is
   * closed as a long position in crossed margin; reported values are passed
   * on lower-cased.
   */
  lemma CloseOrderDefaults(position: Position, ask: real, size: real, specs: TradingSpecs)
    requires position.holdSide.None? || position.holdSide.value == []
    requires position.marginMode.None? || position.marginMode.value == []
    ensures PartialCloseOrder(position, ask, size, specs).holdSide == "long"
    ensures PartialCloseOrder(position, ask, size, specs).marginMode == "crossed"
  {
    assert LowerOr(position.holdSide, "long") == "long" by {
      LowerOfLowerCase("long");
    }
    assert LowerOr(position.marginMode, "crossed") == "crossed" by {
      LowerOfLowerCase("crossed");
    }
  }

  /** The gain of the ask over the average entry price, in percent. */
  function GainRate(ask: real, avgPrice: real): real
    requires avgPrice != 0.0
  {
    (ask - avgPrice) / avgPrice * 100.0
  }

  predicate SellSignal(candles: seq<Candle>, ask: real, avgPrice: real)
    requires avgPrice != 0.0
  {
    GainRate(ask, avgPrice) >= AvgChangeRate(candles) && GainRate(ask, avgPrice) >= MIN_PROFIT_RATE
  }

  /** `check_sell_conditions`: the decision it takes from the positions, candles and ask. */
  function CheckSellConditions(candles: seq<Candle>, ask: real, positions: seq<Position>, specs: TradingSpecs)
    : (r: Result<SellDecision, ArithmeticError>)
    ensures positions == [] ==> r == Ok(NoPosition)
    ensures positions != [] && positions[0].available <= 0.0 ==> r == Ok(NoSize)
    ensures r.Err? <==> positions != [] && positions[0].available > 0.0 && positions[0].openPriceAvg == 0.0
    ensures r.Err? ==> (r.error == DivisionUndefined <==> ask == 0.0)
    ensures r.Ok? && r.value.PartialClose? <==>
      positions != [] && positions[0].available > 0.0 && positions[0].openPriceAvg != 0.0 &&
      SellSignal(candles, ask, positions[0].openPriceAvg)
    ensures r.Ok? && r.value.PartialClose? ==> r.value.order == PartialCloseOrder(positions[0], ask, positions[0].available, specs)
  {
    if positions == [] then Ok(NoPosition)
    else
      var position := positions[0];
      if position.available <= 0.0 then Ok(NoSize)
      else if position.openPriceAvg == 0.0 then Err(if ask == 0.0 then DivisionUndefined else DivisionByZero)
      else if SellSignal(candles, ask, position.openPriceAvg) then
        Ok(PartialClose(PartialCloseOrder(position, ask, position.available, specs)))
      else Ok(Hold)
  }

  /** A partial close from a long position bought at a positive price happens only at least 0.3% above that price. */
  lemma SellOnlyAtProfit(candles: seq<Candle>, ask: real, positions: seq<Position>, specs: TradingSpecs)
    requires positions != [] && positions[0].openPriceAvg > 0.0
    requires var r := CheckSellConditions(candles, ask, positions, specs); r.Ok? && r.value.PartialClose?
    ensures ask * 1000.0 >= positions[0].openPriceAvg * 1003.0
  {
    assert GainRate(ask, positions[0].openPriceAvg) >= MIN_PROFIT_RATE;
    GainAtLeastMinimum(ask, positions[0].openPriceAvg);
  }

  lemma GainAtLeastMinimum(ask: real, avg: real)
    requires avg > 0.0 && GainRate(ask, avg) >= MIN_PROFIT_RATE
    ensures ask * 1000.0 >= avg * 1003.0
  {
    var d := (ask - avg) / avg;
    assert d * 100.0 >= 0.3;
    assert d * avg == ask - avg;
    MulLe(0.003, d, avg);
  }

  /** The close size is at most half the available size, and the close price at most the ask. */
  lemma PartialCloseBounded(position: Position, ask: real, size: real, specs: TradingSpecs)
    requires ask >= 0.0 && size > 0.0 && specs.tick > 0.0 && specs.qtyStep > 0.0
    ensures var o := PartialCloseOrder(position, ask, size, specs);
      0.0 <= o.size <= size * PARTIAL_CLOSE_RATIO && size * PARTIAL_CLOSE_RATIO < o.size + specs.qtyStep &&
      0.0 <= o.price <= ask
  {
    RoundToStepBounds(size * PARTIAL_CLOSE_RATIO, specs.qtyStep);
    RoundToStepBounds(ask, specs.tick);
  }

  /** What one run of `execute_strategy` does, given the outcome of each call it makes. */
  datatype StrategyOutcome =
    | CancelFailed
    | TooFewCandles
    | Bought(order: Result<Order, ArithmeticError>)
    | SellChecked(decision: Result<SellDecision, ArithmeticError>)
    | Waited

  /** `execute_strategy`: cancel, fetch, then buy, or else check for a sell on a bullish candle. */
  function ExecuteStrategy(cancelled: bool, candles: seq<Candle>, bid: real, ask: real,
                           positions: seq<Position>, specs: TradingSpecs): (r: StrategyOutcome)
    ensures !cancelled ==> r == CancelFailed
    ensures cancelled && |candles| < MIN_CANDLES ==> r == TooFewCandles
    ensures r.Bought? <==> cancelled && CheckBuyConditions(candles)
    ensures r.Bought? ==> r.order == BuySizing(bid, specs)
    ensures r.SellChecked? ==> r.decision == CheckSellConditions(candles, ask, positions, specs)
  {
    if !cancelled then CancelFailed
    else if |candles| < MIN_CANDLES then TooFewCandles
    else if CheckBuyConditions(candles) then Bought(BuySizing(bid, specs))
    else if candles[|candles| - 1].IsBullish() then SellChecked(CheckSellConditions(candles, ask, positions, specs))
    else Waited
  }

  /**
   * The sell check runs exactly when the orders were cancelled, there are
   * enough candles and the last one is bullish: a buy needs a bearish last
   * candle, so it never pre-empts a sell check.
   */
  lemma SellCheckedIffBullish(cancelled: bool, candles: seq<Candle>, bid: real, ask: real,
                              positions: seq<Position>, specs: TradingSpecs)
    ensures ExecuteStrategy(cancelled, candles, bid, ask, positions, specs).SellChecked? <==>
      cancelled && |candles| >= MIN_CANDLES && candles[|candles| - 1].IsBullish()
  {
    if cancelled && |candles| >= MIN_CANDLES && candles[|candles| - 1].IsBullish() {
      CandleDirections(candles[|candles| - 1]);
    }
  }
}
