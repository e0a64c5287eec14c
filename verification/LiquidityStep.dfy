/** One swap step inside a single liquidity range, shared by the Raydium CLMM and
    Orca Whirlpool engines: token amounts between two prices with directed
    rounding, the furthest price an input reaches, and the fee. */
module LiquidityStep {
  import opened Results
  import opened Rounding

  /** A fee rate in millionths, below one. */
  type FeeRate = n: int | 0 <= n < FEE_SCALE

  datatype Step = Step(sqrtPrice: int, amountIn: int, amountOut: int, fee: int)

  /** The token amount that moves `liquidity` between two prices, as a fraction. */
  function Numerator(liquidity: nat, low: int, high: int, token0: bool): (n: int)
    requires low <= high
    ensures 0 <= n
  {
    MulMono(0, high - low, liquidity);
    liquidity * (high - low) * (if token0 then Q64 else 1)
  }

  function Denominator(low: int, high: int, token0: bool): (d: int)
    requires 0 < low <= high
    ensures 0 < d
  {
    MulStrict(0, high, low);
    if token0 then high * low else Q64
  }

  function Amount(liquidity: nat, low: int, high: int, token0: bool, roundUp: bool): (amount: nat)
    requires 0 < low <= high
  {
    var n, d := Numerator(liquidity, low, high, token0), Denominator(low, high, token0);
    FloorGe(n, d, 0);
    FloorGe(n + d - 1, d, 0);
    if roundUp then Ceil(n, d) else n / d
  }

  function Delta(a: int, b: int, liquidity: nat, token0: bool, roundUp: bool): Result<nat> {
    var low, high := Min(a, b), Max(a, b);
    if low <= 0 then Err(PriceOutsideRange) else Ok(Amount(liquidity, low, high, token0, roundUp))
  }

  /** What is left of an input once the fee rate is taken, rounded down. */
  function NetOfFee(amount: nat, feeRate: nat): (net: nat)
    requires feeRate < FEE_SCALE
  {
    MulMono(0, amount, FEE_SCALE - feeRate);
    amount * (FEE_SCALE - feeRate) / FEE_SCALE
  }

  /** The fee on top of an input that was fully used, rounded up. */
  function FeeOnTop(amount: nat, feeRate: nat): (fee: nat)
    requires feeRate < FEE_SCALE
  {
    MulMono(0, amount, feeRate);
    FloorGe(amount * feeRate + (FEE_SCALE - feeRate) - 1, FEE_SCALE - feeRate, 0);
    Ceil(amount * feeRate, FEE_SCALE - feeRate)
  }

  /** The price `net` input tokens reach when they do not exhaust the range. */
  function Reach(current: int, liquidity: nat, net: nat, down: bool): int
    requires 0 < current && 0 < liquidity
  {
    if down then
      MulMono(0, net, current);
      Ceil(liquidity * Q64 * current, liquidity * Q64 + net * current)
    else
      current + net * Q64 / liquidity
  }

  predicate StepArguments(current: int, target: int, down: bool) {
    0 < current && 0 < target && if down then target <= current else current <= target
  }

  function SwapStep(current: int, target: int, liquidity: int, remaining: int, feeRate: int, down: bool): Result<Step> {
    if !(0 <= current <= U128 && 0 <= target <= U128 && 0 <= liquidity <= U128
         && 0 <= remaining <= U64 && 0 <= feeRate <= 999999) then Err(OutsideUnsignedRange)
    else if !StepArguments(current, target, down) then Err(InvalidStep)
    else
      var net := NetOfFee(remaining, feeRate);
      var needed :- Delta(current, target, liquidity, down, true);
      var next :-
        if needed <= net then Ok(target)
        else if liquidity == 0 then Err(ZeroLiquidity)
        else Ok(Reach(current, liquidity, net, down));
      var amountIn :- if next == target then Ok(needed) else Delta(current, next, liquidity, down, true);
      var amountOut :- Delta(current, next, liquidity, !down, false);
      var fee := if next != target then remaining - amountIn else FeeOnTop(amountIn, feeRate);
      var price' :- Unsigned(next, U128);
      var in' :- Unsigned(amountIn, U64);
      var out' :- Unsigned(amountOut, U64);
      var fee' :- Unsigned(fee, U64);
      Ok(Step(price', in', out', fee'))
  }

  /** The input cost of moving from `current` to `price`, rounded against the trader. */
  function Cost(current: int, price: int, liquidity: nat, down: bool): nat
    requires 0 < current && 0 < price
  {
    Amount(liquidity, Min(current, price), Max(current, price), down, true)
  }

  /** The output of moving from `current` to `price`, rounded against the trader. */
  function Yield(current: int, price: int, liquidity: nat, down: bool): nat
    requires 0 < current && 0 < price
  {
    Amount(liquidity, Min(current, price), Max(current, price), !down, false)
  }

  /** `price` is no further from `current` than `limit` in the trade direction. */
  predicate Within(price: int, limit: int, down: bool) {
    if down then limit <= price else price <= limit
  }

  /** The nearer of two prices in the trade direction. */
  function Toward(a: int, b: int, down: bool): int {
    if down then Max(a, b) else Min(a, b)
  }

  lemma CostDown(current: int, price: int, liquidity: nat, net: nat)
    requires 0 < price <= current
    ensures Cost(current, price, liquidity, true) <= net
       <==> liquidity * Q64 * (current - price) <= net * (current * price)
  {
    CeilLe(Numerator(liquidity, price, current, true), Denominator(price, current, true), net);
  }

  lemma CostUp(current: int, price: int, liquidity: nat, net: nat)
    requires 0 < current <= price
    ensures Cost(current, price, liquidity, false) <= net
       <==> liquidity * (price - current) <= net * Q64
  {
    CeilLe(Numerator(liquidity, current, price, false), Denominator(current, price, false), net);
  }

  lemma ReachDown(current: int, price: int, liquidity: nat, net: nat)
    requires 0 < current && 0 < liquidity
    ensures Reach(current, liquidity, net, true) <= price
       <==> liquidity * Q64 * current <= price * (liquidity * Q64 + net * current)
  {
    MulMono(0, net, current);
    CeilLe(liquidity * Q64 * current, liquidity * Q64 + net * current, price);
  }

  lemma ReachUp(current: int, price: int, liquidity: nat, net: nat)
    requires 0 < current && 0 < liquidity
    ensures price <= Reach(current, liquidity, net, false)
       <==> liquidity * (price - current) <= net * Q64
  {
    FloorGe(net * Q64, liquidity, price - current);
  }

  /** `Reach` is exactly the furthest affordable price. */
  lemma ReachIsFurthest(current: int, price: int, liquidity: nat, net: nat, down: bool)
    requires 0 < current && 0 < liquidity && 0 < price && Within(current, price, down)
    ensures Cost(current, price, liquidity, down) <= net
       <==> Within(price, Reach(current, liquidity, net, down), down)
  {
    hide Cost, Reach;
    if down {
      CostDown(current, price, liquidity, net);
      ReachDown(current, price, liquidity, net);
      assert price * (liquidity * Q64 + net * current) == liquidity * Q64 * price + net * (current * price);
    } else {
      CostUp(current, price, liquidity, net);
      ReachUp(current, price, liquidity, net);
    }
  }

  /** Where a step ends: the target when it is affordable, else as far as the input reaches. */
  function EndPrice(current: int, target: int, liquidity: nat, net: nat, down: bool): int
    requires StepArguments(current, target, down)
  {
    if Cost(current, target, liquidity, down) <= net then target
    else if liquidity == 0 then target
    else Reach(current, liquidity, net, down)
  }

  /** No liquidity costs nothing, so the zero-liquidity refusal never fires. */
  lemma NoLiquidityNoCost(current: int, price: int, down: bool)
    requires StepArguments(current, price, down)
    ensures Cost(current, price, 0, down) == 0
  {
    if down {
      CostDown(current, price, 0, 0);
    } else {
      CostUp(current, price, 0, 0);
    }
  }

  lemma NoMoveNoCost(current: int, liquidity: nat, down: bool)
    requires 0 < current
    ensures Cost(current, current, liquidity, down) == 0
  {
    if down {
      CostDown(current, current, liquidity, 0);
    } else {
      CostUp(current, current, liquidity, 0);
    }
  }

  lemma YieldNothing(current: int, liquidity: nat, down: bool)
    requires 0 < current
    ensures Yield(current, current, liquidity, down) == 0
  {
    FloorGe(0, Denominator(current, current, !down), 1);
    FloorGe(0, Denominator(current, current, !down), 0);
    hide Denominator;
  }

  /** The end price lies between the current price and the target, its cost fits
      the net input, and no affordable price lies beyond it. */
  lemma EndPriceIsFurthest(current: int, target: int, price: int, liquidity: nat, net: nat, down: bool)
    requires StepArguments(current, target, down)
    requires Within(current, price, down) && Within(price, target, down) && 0 < price
    ensures
      var end := EndPrice(current, target, liquidity, net, down);
      && 0 < end && Within(current, end, down) && Within(end, target, down)
      && Cost(current, end, liquidity, down) <= net
      && (Cost(current, price, liquidity, down) <= net <==> Within(price, end, down))
  {
    hide Cost, Reach;
    if liquidity == 0 {
      NoLiquidityNoCost(current, target, down);
      NoLiquidityNoCost(current, price, down);
    } else {
      ReachIsFurthest(current, target, liquidity, net, down);
      ReachIsFurthest(current, price, liquidity, net, down);
      NoMoveNoCost(current, liquidity, down);
      ReachIsFurthest(current, current, liquidity, net, down);
      if Cost(current, target, liquidity, down) > net {
        var end := Reach(current, liquidity, net, down);
        if down {
          assert target < end;
        }
        ReachIsFurthest(current, end, liquidity, net, down);
      }
    }
  }

  /** What a successful step returns, independently of how it branches. */
  lemma StepMeaning(current: int, target: int, liquidity: int, remaining: int, feeRate: int, down: bool)
    requires SwapStep(current, target, liquidity, remaining, feeRate, down).Ok?
    ensures 0 <= liquidity && 0 <= remaining <= U64 && 0 <= feeRate < FEE_SCALE
    ensures StepArguments(current, target, down)
    ensures
      var s := SwapStep(current, target, liquidity, remaining, feeRate, down).value;
      && s.sqrtPrice == EndPrice(current, target, liquidity, NetOfFee(remaining, feeRate), down)
      && 0 < s.sqrtPrice
      && s.amountIn == Cost(current, s.sqrtPrice, liquidity, down)
      && s.amountOut == Yield(current, s.sqrtPrice, liquidity, down) <= U64
      && s.fee == if s.sqrtPrice == target then FeeOnTop(s.amountIn, feeRate) else remaining - s.amountIn
  {
    EndPriceIsFurthest(current, target, target, liquidity, NetOfFee(remaining, feeRate), down);
    hide NetOfFee, FeeOnTop, Amount, Reach;
    if liquidity == 0 {
      NoLiquidityNoCost(current, target, down);
    }
  }

  /** A step with valid arguments succeeds exactly when its output fits u64. */
  lemma StepSucceeds(current: int, target: int, liquidity: int, remaining: int, feeRate: int, down: bool)
    requires 0 <= current <= U128 && 0 <= target <= U128 && 0 <= liquidity <= U128
    requires 0 <= remaining <= U64 && 0 <= feeRate < FEE_SCALE
    requires StepArguments(current, target, down)
    ensures
      var end := EndPrice(current, target, liquidity, NetOfFee(remaining, feeRate), down);
      && 0 < end
      && (SwapStep(current, target, liquidity, remaining, feeRate, down).Ok?
          <==> Yield(current, end, liquidity, down) <= U64)
  {
    EndPriceIsFurthest(current, target, target, liquidity, NetOfFee(remaining, feeRate), down);
    NetOfFeeGe(remaining, feeRate, remaining + 1);
    var end := EndPrice(current, target, liquidity, NetOfFee(remaining, feeRate), down);
    var cost := Cost(current, end, liquidity, down);
    NetOfFeeGe(remaining, feeRate, cost);
    FeeFits(remaining, feeRate, cost);
    if liquidity == 0 {
      NoLiquidityNoCost(current, target, down);
    }
    hide NetOfFee, FeeOnTop, Amount, Reach;
  }

  lemma NetOfFeeGe(amount: nat, feeRate: nat, k: int)
    requires feeRate < FEE_SCALE
    ensures k <= NetOfFee(amount, feeRate) <==> k * FEE_SCALE <= amount * (FEE_SCALE - feeRate)
    ensures NetOfFee(amount, feeRate) <= amount
  {
    FloorGe(amount * (FEE_SCALE - feeRate), FEE_SCALE, k);
    FloorGe(amount * (FEE_SCALE - feeRate), FEE_SCALE, amount + 1);
    MulMono(0, feeRate, amount);
  }

  lemma FeeOnTopLe(amount: nat, feeRate: nat, k: int)
    requires feeRate < FEE_SCALE
    ensures FeeOnTop(amount, feeRate) <= k <==> amount * feeRate <= k * (FEE_SCALE - feeRate)
  {
    CeilLe(amount * feeRate, FEE_SCALE - feeRate, k);
  }

  /** An input part within the net amount leaves room for its own fee, and that
      fee is at least the rate of the gross amount. */
  lemma FeeFits(remaining: nat, feeRate: nat, amountIn: nat)
    requires feeRate < FEE_SCALE && amountIn <= NetOfFee(remaining, feeRate)
    ensures amountIn + FeeOnTop(amountIn, feeRate) <= remaining
    ensures FeeOnTop(amountIn, feeRate) * FEE_SCALE >= feeRate * (amountIn + FeeOnTop(amountIn, feeRate))
    ensures (remaining - amountIn) * FEE_SCALE >= feeRate * remaining
  {
    NetOfFeeGe(remaining, feeRate, amountIn);
    FeeOnTopLe(amountIn, feeRate, remaining - amountIn);
    FeeOnTopLe(amountIn, feeRate, FeeOnTop(amountIn, feeRate));
    hide NetOfFee, FeeOnTop;
  }

  /** A step stays between its prices, never spends more than it has, spends
      everything when it misses the target, and charges at least its rate. */
  lemma StepBudget(current: int, target: int, liquidity: int, remaining: int, feeRate: int, down: bool)
    requires SwapStep(current, target, liquidity, remaining, feeRate, down).Ok?
    ensures
      var s := SwapStep(current, target, liquidity, remaining, feeRate, down).value;
      && Within(current, s.sqrtPrice, down) && Within(s.sqrtPrice, target, down) && 0 < s.sqrtPrice
      && 0 <= s.amountIn && 0 <= s.amountOut && 0 <= s.fee
      && s.amountIn + s.fee <= remaining
      && (s.sqrtPrice != target ==> s.amountIn + s.fee == remaining)
      && s.fee * FEE_SCALE >= feeRate * (s.amountIn + s.fee)
  {
    StepMeaning(current, target, liquidity, remaining, feeRate, down);
    hide SwapStep;
    EndPriceIsFurthest(current, target, target, liquidity, NetOfFee(remaining, feeRate), down);
    var s := SwapStep(current, target, liquidity, remaining, feeRate, down).value;
    hide EndPrice, Cost, Yield;
    FeeFits(remaining, feeRate, s.amountIn);
    hide NetOfFee, FeeOnTop;
  }

  /** An exchange of `input` for `output` is no better for the trader than the
      square-root price `spot`: token 0 is worth `spot^2 / 2^128` of token 1. */
  predicate NoBetter(input: int, output: int, spot: int, down: bool) {
    if down then output * (Q64 * Q64) <= input * (spot * spot)
    else output * (spot * spot) <= input * (Q64 * Q64)
  }

  lemma NoBetterAdds(input: int, output: int, input': int, output': int, spot: int, down: bool)
    requires NoBetter(input, output, spot, down) && NoBetter(input', output', spot, down)
    ensures NoBetter(input + input', output + output', spot, down)
  {
  }

  /** Paying more for less is still no better. */
  lemma NoBetterWeakens(input: int, output: int, input': int, output': int, spot: int, down: bool)
    requires 0 <= spot && NoBetter(input, output, spot, down)
    requires input <= input' && output' <= output
    ensures NoBetter(input', output', spot, down)
  {
    MulMono(0, spot, spot);
    MulMono(input, input', spot * spot);
    MulMono(output', output, spot * spot);
  }

  lemma SpotDown(current: int, price: int, liquidity: nat)
    requires 0 < price <= current
    ensures Yield(current, price, liquidity, true) * (Q64 * Q64)
         <= Cost(current, price, liquidity, true) * (current * price)
  {
    FloorBounds(Numerator(liquidity, price, current, false), Q64);
    CostDown(current, price, liquidity, Cost(current, price, liquidity, true));
    hide Cost, Amount;
  }

  lemma SpotUp(current: int, price: int, liquidity: nat)
    requires 0 < current <= price
    ensures Yield(current, price, liquidity, false) * (current * price)
         <= Cost(current, price, liquidity, false) * (Q64 * Q64)
  {
    FloorBounds(Numerator(liquidity, current, price, true), Denominator(current, price, true));
    CostUp(current, price, liquidity, Cost(current, price, liquidity, false));
    hide Cost, Amount;
  }

  /** No step beats any price at least as good as the one it starts from. */
  lemma StepNoBetter(
      current: int, target: int, liquidity: int, remaining: int, feeRate: int, down: bool, spot: int)
    requires SwapStep(current, target, liquidity, remaining, feeRate, down).Ok?
    requires 0 < spot && Within(spot, current, down)
    ensures
      var s := SwapStep(current, target, liquidity, remaining, feeRate, down).value;
      NoBetter(s.amountIn, s.amountOut, spot, down)
  {
    StepMeaning(current, target, liquidity, remaining, feeRate, down);
    hide SwapStep;
    EndPriceIsFurthest(current, target, target, liquidity, NetOfFee(remaining, feeRate), down);
    var s := SwapStep(current, target, liquidity, remaining, feeRate, down).value;
    hide NetOfFee, EndPrice, Cost, Yield, FeeOnTop;
    if down {
      SpotDown(current, s.sqrtPrice, liquidity);
      Squares(s.sqrtPrice, current, spot);
      MulMono(current * s.sqrtPrice, spot * spot, s.amountIn);
    } else {
      SpotUp(current, s.sqrtPrice, liquidity);
      Squares(spot, current, s.sqrtPrice);
      MulMono(spot * spot, current * s.sqrtPrice, s.amountOut);
    }
  }

  lemma Squares(a: int, b: int, c: int)
    requires 0 <= a <= b <= c
    ensures a * a <= b * c && b * a <= c * c
  {
    MulMono(a, b, a);
    MulMono(a, c, b);
    MulMono(b, c, a);
    MulMono(a, c, c);
  }

  /** The output grows with the distance moved. */
  lemma YieldMonotone(current: int, near: int, far: int, liquidity: nat, down: bool)
    requires 0 < current && 0 < near && 0 < far
    requires Within(current, near, down) && Within(near, far, down)
    ensures Yield(current, near, liquidity, down) <= Yield(current, far, liquidity, down)
  {
    var k := Yield(current, near, liquidity, down);
    if down {
      FloorBounds(Numerator(liquidity, near, current, false), Q64);
      MulMono(current - near, current - far, liquidity);
      FloorGe(Numerator(liquidity, far, current, false), Q64, k);
    } else {
      YieldUpGe(current, near, liquidity, k);
      YieldUpGe(current, far, liquidity, k);
      hide Yield;
      FurtherUp(current, near, far, liquidity, k);
    }
  }

  lemma YieldUpGe(current: int, price: int, liquidity: nat, k: nat)
    requires 0 < current <= price
    ensures k <= Yield(current, price, liquidity, false)
       <==> k * (price * current) <= liquidity * (price - current) * Q64
  {
    FloorGe(Numerator(liquidity, current, price, true), Denominator(current, price, true), k);
  }

  lemma FurtherUp(current: int, near: int, far: int, liquidity: nat, k: nat)
    requires 0 < current <= near <= far
    requires k * (near * current) <= liquidity * (near - current) * Q64
    ensures k * (far * current) <= liquidity * (far - current) * Q64
  {
    // (near - current) * far <= (far - current) * near
    var q := liquidity * Q64;
    MulMono(near, far, current);
    MulMono((near - current) * far, (far - current) * near, q);
    MulMono(k * (near * current), q * (near - current), far);
    assert k * (far * current) * near <= q * (far - current) * near;
    MulCancel(k * (far * current), q * (far - current), near);
  }

  /** More input moves a step at least as far and yields at least as much; a step
      that reaches its target with less reaches it in the same way with more. */
  lemma StepMonotone(
      current: int, target: int, liquidity: int, less: int, more: int, feeRate: int, down: bool)
    requires less <= more
    requires SwapStep(current, target, liquidity, less, feeRate, down).Ok?
    requires SwapStep(current, target, liquidity, more, feeRate, down).Ok?
    ensures
      var s := SwapStep(current, target, liquidity, less, feeRate, down).value;
      var s' := SwapStep(current, target, liquidity, more, feeRate, down).value;
      && s.amountOut <= s'.amountOut
      && (s.sqrtPrice == target ==> s' == s)
  {
    StepMeaning(current, target, liquidity, less, feeRate, down);
    StepMeaning(current, target, liquidity, more, feeRate, down);
    var s := SwapStep(current, target, liquidity, less, feeRate, down).value;
    var s' := SwapStep(current, target, liquidity, more, feeRate, down).value;
    hide SwapStep;
    var net, net' := NetOfFee(less, feeRate), NetOfFee(more, feeRate);
    NetOfFeeGe(less, feeRate, net);
    MulMono(less, more, FEE_SCALE - feeRate);
    NetOfFeeGe(more, feeRate, net);
    hide NetOfFee, FeeOnTop;
    EndPriceIsFurthest(current, target, target, liquidity, net, down);
    EndPriceIsFurthest(current, target, s.sqrtPrice, liquidity, net', down);
    hide EndPrice, Cost, Yield;
    YieldMonotone(current, s.sqrtPrice, s'.sqrtPrice, liquidity, down);
  }

  /** Moving in two parts costs no less than moving at once. */
  lemma CostSubadditive(current: int, middle: int, far: int, liquidity: nat, down: bool)
    requires 0 < current && 0 < middle && 0 < far
    requires Within(current, middle, down) && Within(middle, far, down)
    ensures Cost(current, far, liquidity, down)
         <= Cost(current, middle, liquidity, down) + Cost(middle, far, liquidity, down)
  {
    var a, b := Cost(current, middle, liquidity, down), Cost(middle, far, liquidity, down);
    if down {
      CostDown(current, middle, liquidity, a);
      CostDown(middle, far, liquidity, b);
      CostDown(current, far, liquidity, a + b);
      hide Cost;
      SplitMove(current, middle, far, liquidity * Q64, a, b);
    } else {
      CostUp(current, middle, liquidity, a);
      CostUp(middle, far, liquidity, b);
      CostUp(current, far, liquidity, a + b);
      hide Cost;
    }
  }

  lemma SplitMove(current: Pos, middle: Pos, far: Pos, scaled: nat, a: nat, b: nat)
    requires scaled * (current - middle) <= a * (current * middle)
    requires scaled * (middle - far) <= b * (middle * far)
    ensures scaled * (current - far) <= (a + b) * (current * far)
  {
    MulMono(scaled * (current - middle), a * (current * middle), far);
    MulMono(scaled * (middle - far), b * (middle * far), current);
    var left, right := scaled * (current - far), (a + b) * (current * far);
    assert left * middle == scaled * (current - middle) * far + scaled * (middle - far) * current;
    assert right * middle == a * (current * middle) * far + b * (middle * far) * current;
    MulCancel(left, right, middle);
  }

  /** What a missed target leaves over cannot move the price any further. */
  lemma ReachIsFinal(current: int, liquidity: nat, net: nat, down: bool)
    requires 0 < current && 0 < liquidity
    ensures
      var end := Reach(current, liquidity, net, down);
      && 0 < end && Within(current, end, down)
      && Cost(current, end, liquidity, down) <= net
      && Reach(end, liquidity, net - Cost(current, end, liquidity, down), down) == end
  {
    hide Cost, Reach;
    var end := Reach(current, liquidity, net, down);
    ReachPositive(current, liquidity, net, down);
    ReachIsFurthest(current, end, liquidity, net, down);
    var left := net - Cost(current, end, liquidity, down);
    ReachPositive(end, liquidity, left, down);
    var beyond := Reach(end, liquidity, left, down);
    ReachIsFurthest(end, beyond, liquidity, left, down);
    CostSubadditive(current, end, beyond, liquidity, down);
    ReachIsFurthest(current, beyond, liquidity, net, down);
  }

  lemma ReachPositive(current: int, liquidity: nat, net: nat, down: bool)
    requires 0 < current && 0 < liquidity
    ensures 0 < Reach(current, liquidity, net, down) && Within(current, Reach(current, liquidity, net, down), down)
  {
    hide Cost;
    NoMoveNoCost(current, liquidity, down);
    ReachIsFurthest(current, current, liquidity, net, down);
    if down {
      ReachDown(current, 0, liquidity, net);
      MulStrict(0, liquidity * Q64, current);
    }
    hide Reach;
  }
}
