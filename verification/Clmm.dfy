/** The Raydium CLMM exact-in traversal: validation, the dynamic fee, limit-order
    fills and the functions that specify one pass of the loop. */
module Clmm {
  import opened Results
  import opened Rounding
  import opened TickPrice
  import opened LiquidityStep
  import opened TickBook

  const BUDGET: nat := 8192
  const FEE_CAP := 100000

  /** The decoded dynamic-fee account; a swap without a dynamic fee has none. */
  datatype DynamicFee = DynamicFee(
    filterPeriod: int, decayPeriod: int, reductionFactor: int, control: int, maximum: int,
    reference: int, volatilityReference: int, volatility: int, lastUpdate: int)

  datatype SwapResult = SwapResult(consumed: int, amountOut: int, sqrtPrice: int, tickCurrent: int, liquidity: int)

  datatype FeeRule =
    | Static
    | Dynamic(reference: int, volatilityReference: int, maximum: int, control: nat)

  /** What a swap keeps fixed. `inputFee` says on which side the fee is taken. */
  datatype Config = Config(
    spacing: Pos, feeRate: FeeRate, ticks: seq<Tick>, limit: int, down: bool, inputFee: bool, rule: FeeRule)

  /** What the loop updates; `orders[i]` is the unfilled order amount at `ticks[i]`. */
  datatype State = State(
    current: int, tick: int, liquidity: int, remaining: int, output: int, orders: seq<int>, group: int)

  // ----- validation -----

  predicate ValidPool(pool: Pool, amount: int, timestamp: int, feeOn: int) {
    && 0 <= amount <= U64 && 0 <= timestamp <= U64
    && 0 <= pool.liquidity <= U128
    && MIN_SQRT_PRICE <= pool.sqrtPrice <= MaxSqrtPrice(Engine.Clmm)
    && InRange(pool.tickCurrent)
    && 1 <= pool.tickSpacing <= 65535 && 0 <= pool.feeRate < FEE_SCALE
    && 0 <= feeOn <= 2
  }

  predicate ValidLimit(pool: Pool, limit: int, down: bool) {
    && MIN_SQRT_PRICE <= limit <= MaxSqrtPrice(Engine.Clmm)
    && if down then limit < pool.sqrtPrice else pool.sqrtPrice < limit
  }

  predicate ValidTick(t: Tick, spacing: Pos) {
    && InRange(t.tick) && t.tick % spacing == 0
    && -0x8000_0000_0000_0000_0000_0000_0000_0000 <= t.liquidityNet < 0x8000_0000_0000_0000_0000_0000_0000_0000
    && 0 <= t.liquidityGross <= U128
  }

  predicate ValidOrders(t: Tick) {
    0 <= t.orders <= U64 && 0 <= t.partialOrders <= U64 && t.orders + t.partialOrders <= U64
  }

  /** The fee is taken on the input for `feeOn` 0, else on token 0 (1) or token 1 (2). */
  function FeeOnInput(feeOn: int, down: bool): bool {
    feeOn == 0 || (feeOn == 1 && down) || (feeOn == 2 && !down)
  }

  function SettleRule(d: DynamicFee, spacing: int, group: int, timestamp: int): Result<FeeRule> {
    if !(0 < d.filterPeriod < d.decayPeriod && 1 <= d.reductionFactor < 10000 && 1 <= d.control < 100000
         && d.maximum * spacing <= 0xFFFF_FFFF) then Err(InvalidFee)
    else
      var elapsed := Max(0, timestamp - d.lastUpdate);
      if elapsed < d.filterPeriod then Ok(Dynamic(d.reference, d.volatilityReference, d.maximum, d.control))
      else
        var decayed := if elapsed < d.decayPeriod then d.volatility * d.reductionFactor / 10000 else 0;
        Ok(Dynamic(group, decayed, d.maximum, d.control))
  }

  predicate NoDuplicates(ticks: seq<Tick>) {
    forall i, j :: 0 <= i < j < |ticks| ==> ticks[i].tick != ticks[j].tick
  }

  function InitialOrders(ticks: seq<Tick>): seq<int> {
    seq(|ticks|, i requires 0 <= i < |ticks| => ticks[i].orders + ticks[i].partialOrders)
  }

  function Prepare(
      pool: Pool, ticks: seq<Tick>, amount: int, limit: int, feeOn: int, dynamic: Option<DynamicFee>,
      timestamp: int, down: bool): (r: Result<(Config, State)>)
    ensures r.Ok? ==> r.value.0.ticks == ticks && |r.value.1.orders| == |ticks|
  {
    if !ValidPool(pool, amount, timestamp, feeOn) then Err(InvalidPool)
    else if !ValidLimit(pool, limit, down) then Err(InvalidLimit)
    else
      var group := pool.tickCurrent / pool.tickSpacing;
      var rule :- if dynamic.None? then Ok(Static) else SettleRule(dynamic.value, pool.tickSpacing, group, timestamp);
      if !NoDuplicates(ticks) then Err(DuplicateTick)
      else if exists t :: t in ticks && !ValidTick(t, pool.tickSpacing) then Err(InvalidTick)
      else if exists t :: t in ticks && !ValidOrders(t) then Err(OutsideUnsignedRange)
      else
        Ok((
          Config(pool.tickSpacing, pool.feeRate, ticks, limit, down, FeeOnInput(feeOn, down), rule),
          State(pool.sqrtPrice, pool.tickCurrent, pool.liquidity, amount, 0, InitialOrders(ticks), group)))
  }

  // ----- limit orders -----

  /** The price orders at a tick trade at: token 1 per token 0, rounded against the trader. */
  function OrderPrice(sqrtPrice: int, down: bool): int {
    if down then sqrtPrice * sqrtPrice / Q64 else Ceil(sqrtPrice * sqrtPrice, Q64)
  }

  /** How much of the orders an input buys, rounded down. */
  function Buys(input: int, price: Pos, down: bool): int {
    if down then input * price / Q64 else input * Q64 / price
  }

  /** What an order amount costs, rounded up. */
  function OrderCost(amount: int, price: Pos, down: bool): int {
    if down then Ceil(amount * Q64, price) else Ceil(amount * price, Q64)
  }

  /** The fee on a gross amount, rounded up. */
  function GrossFee(amount: int, feeRate: int): int {
    Ceil(amount * feeRate, FEE_SCALE)
  }

  datatype Fill = Fill(spent: int, filled: int, received: int)

  /** Matches what is left of the input against the orders at the current price. */
  function MatchOrders(
      order: int, remaining: int, sqrtPrice: int, feeRate: FeeRate, inputFee: bool, down: bool): Result<Fill>
  {
    var price := OrderPrice(sqrtPrice, down);
    if price <= 0 then Err(ZeroOrderPrice)
    else
      var fee := if inputFee then GrossFee(remaining, feeRate) else 0;
      var available := remaining - fee;
      var matched := Buys(available, price, down);
      var filled := Min(matched, order);
      var consumed :- if matched > order then Unsigned(OrderCost(filled, price, down), U64) else Ok(available);
      var charged :=
        if matched > order then (if inputFee then Ceil(consumed * feeRate, FEE_SCALE - feeRate) else 0) else fee;
      var spent :- Unsigned(consumed + charged, U64);
      Ok(Fill(spent, filled, filled - if inputFee then 0 else GrossFee(filled, feeRate)))
  }

  // ----- one pass of the loop -----

  /** Ticks with liquidity or unfilled orders, in the trade direction. */
  predicate Candidate(cfg: Config, orders: seq<int>, tick: int, i: nat)
    requires i < |cfg.ticks| == |orders|
  {
    (cfg.ticks[i].liquidityGross != 0 || orders[i] != 0) && Ahead(cfg.ticks[i], tick, cfg.down)
  }

  /** The nearest candidate among the first `n` ticks. */
  function Nearest(cfg: Config, orders: seq<int>, tick: int, n: nat): (best: Option<nat>)
    requires n <= |cfg.ticks| == |orders|
    ensures best.Some? ==> best.value < n && Candidate(cfg, orders, tick, best.value)
  {
    if n == 0 then None
    else
      var best := Nearest(cfg, orders, tick, n - 1);
      if !Candidate(cfg, orders, tick, n - 1) then best
      else if best.None? then Some(n - 1)
      else if (if cfg.down then cfg.ticks[best.value].tick < cfg.ticks[n - 1].tick
               else cfg.ticks[n - 1].tick < cfg.ticks[best.value].tick) then Some(n - 1)
      else best
  }

  function Next(cfg: Config, s: State): (best: Option<nat>)
    requires |cfg.ticks| == |s.orders|
    ensures best.Some? ==> best.value < |cfg.ticks| && Candidate(cfg, s.orders, s.tick, best.value)
  {
    Nearest(cfg, s.orders, s.tick, |cfg.ticks|)
  }

  /** The tick a pass heads for: the nearest candidate, else the end of the tick range. */
  function NextTick(cfg: Config, s: State): int
    requires |cfg.ticks| == |s.orders|
  {
    var best := Next(cfg, s);
    if best.Some? then cfg.ticks[best.value].tick else if cfg.down then MIN_TICK else MAX_TICK
  }

  function Volatility(rule: FeeRule, group: int): int
    requires rule.Dynamic?
  {
    Min(rule.volatilityReference + Abs(rule.reference - group) * 10000, rule.maximum)
  }

  /** The fee rate of a group of ticks. */
  function FeeAt(cfg: Config, group: int): FeeRate {
    match cfg.rule
    case Static => cfg.feeRate
    case Dynamic(_, _, _, control) =>
      var crossed := Volatility(cfg.rule, group) * cfg.spacing;
      VariableFeeNonNegative(control, crossed);
      Min(cfg.feeRate + VariableFee(control, crossed), FEE_CAP)
  }

  function VariableFee(control: nat, crossed: int): int {
    Ceil(control * crossed * crossed, 10000000000000)
  }

  lemma VariableFeeNonNegative(control: nat, crossed: int)
    ensures 0 <= VariableFee(control, crossed)
  {
    if crossed < 0 {
      MulMono(0, -crossed, -crossed);
    } else {
      MulMono(0, crossed, crossed);
    }
    MulMono(0, crossed * crossed, control);
    assert control * crossed * crossed == control * (crossed * crossed);
  }

  /** A pass may leave its group when nothing is traded or volatility is at its maximum. */
  predicate Skips(cfg: Config, group: int, liquidity: int) {
    cfg.rule.Dynamic? ==> liquidity == 0 || Volatility(cfg.rule, group) == cfg.rule.maximum
  }

  /** The price a pass may move to. */
  function Bound(cfg: Config, group: int, liquidity: int, target: int): int {
    if Skips(cfg, group, liquidity) then target
    else
      var boundary := Max(MIN_TICK, Min(MAX_TICK, (if cfg.down then group else group + 1) * cfg.spacing));
      Toward(target, Price(Engine.Clmm, boundary), cfg.down)
  }

  /** Moves the price within the current liquidity and settles the fee side. */
  function Move(cfg: Config, s: State, bound: int, fee: FeeRate): Result<State> {
    if s.current == bound then Ok(s)
    else
      var step :- SwapStep(s.current, bound, s.liquidity, s.remaining, if cfg.inputFee then fee else 0, cfg.down);
      var remaining :- Unsigned(s.remaining - step.amountIn - (if cfg.inputFee then step.fee else 0), U64);
      var output :- Unsigned(s.output + step.amountOut - (if cfg.inputFee then 0 else GrossFee(step.amountOut, fee)), U64);
      Ok(s.(current := step.sqrtPrice, remaining := remaining, output := output))
  }

  /** Fills orders at the reached tick `i`, then crosses it unless orders are left. */
  function Arrive(cfg: Config, s: State, i: nat, fee: FeeRate): Result<State>
    requires i < |cfg.ticks| == |s.orders|
  {
    var t := cfg.ticks[i];
    var filled :-
      if s.orders[i] == 0 || s.remaining == 0 then Ok(s)
      else
        var fill :- MatchOrders(s.orders[i], s.remaining, s.current, fee, cfg.inputFee, cfg.down);
        var remaining :- Unsigned(s.remaining - fill.spent, U64);
        var output :- Unsigned(s.output + fill.received, U64);
        Ok(s.(remaining := remaining, output := output, orders := s.orders[i := s.orders[i] - fill.filled]));
    var open := filled.orders[i] != 0;
    var liquidity :-
      if t.liquidityGross != 0 && !open
      then Unsigned(s.liquidity + (if cfg.down then -t.liquidityNet else t.liquidityNet), U128)
      else Ok(s.liquidity);
    Ok(filled.(liquidity := liquidity, tick := if (cfg.down && !open) || (!cfg.down && open) then t.tick - 1 else t.tick))
  }

  /** The group the next pass is charged in. */
  function NextGroup(cfg: Config, group: int, skipped: bool, boundaryTick: int): int {
    if cfg.rule.Static? then group
    else
      var reached :=
        if !skipped then group
        else boundaryTick / cfg.spacing - if !cfg.down && boundaryTick % cfg.spacing == 0 then 1 else 0;
      reached + if cfg.down then -1 else 1
  }

  predicate Finished(cfg: Config, s: State) {
    s.remaining == 0 || s.current == cfg.limit
  }

  /** A pass ends the loop early when it reaches the end of the tick range. */
  datatype Pass = Pass(state: State, stopped: bool)

  /** One pass of the loop from an unfinished state. */
  function Iterate(cfg: Config, s: State): (r: Result<Pass>)
    requires |cfg.ticks| == |s.orders|
    ensures r.Ok? ==> |cfg.ticks| == |r.value.state.orders|
  {
    hide Next, Price, SwapStep, TickAt, MatchOrders, FeeAt;
    var best, nextTick, fee := Next(cfg, s), NextTick(cfg, s), FeeAt(cfg, s.group);
    var nextPrice :- PriceAt(Engine.Clmm, nextTick);
    var bound := Bound(cfg, s.group, s.liquidity, Toward(nextPrice, cfg.limit, cfg.down));
    var moved :- Move(cfg, s, bound, fee);
    if moved.current == nextPrice && best.None? then Ok(Pass(moved, true))
    else
      var landed :-
        if moved.current == nextPrice then Arrive(cfg, moved, best.value, fee)
        else if moved.current != s.current then
          var tick :- TickAt(Engine.Clmm, moved.current);
          Ok(moved.(tick := tick))
        else Ok(moved);
      var boundaryTick := if landed.current == nextPrice then nextTick else landed.tick;
      Ok(Pass(landed.(group := NextGroup(cfg, s.group, Skips(cfg, s.group, s.liquidity), boundaryTick)), false))
  }

  /** Leaving the loop with input left over and the limit not reached is a refusal. */
  function Settle(cfg: Config, s: State): Result<State> {
    if Finished(cfg, s) then Ok(s) else Err(BudgetExhausted)
  }

  function Run(cfg: Config, s: State, budget: nat): Result<State>
    requires |cfg.ticks| == |s.orders|
    decreases budget
  {
    hide Iterate;
    if budget == 0 || Finished(cfg, s) then Settle(cfg, s)
    else
      var pass :- Iterate(cfg, s);
      if pass.stopped then Settle(cfg, pass.state) else Run(cfg, pass.state, budget - 1)
  }

  function Finish(s: State, amount: int): SwapResult {
    SwapResult(amount - s.remaining, s.output, s.current, s.tick, s.liquidity)
  }

  function Swap(
      pool: Pool, ticks: seq<Tick>, amount: int, limit: int, feeOn: int, dynamic: Option<DynamicFee>,
      timestamp: int, down: bool): Result<SwapResult>
  {
    hide Run;
    var start :- Prepare(pool, ticks, amount, limit, feeOn, dynamic, timestamp, down);
    var end :- Run(start.0, start.1, BUDGET);
    Ok(Finish(end, amount))
  }
}
