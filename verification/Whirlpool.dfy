/** The Orca Whirlpool exact-in traversal with adaptive fees: validation, the
    tick-by-tick loop, and the functions that specify one pass of that loop. */
module Whirlpool {
  import opened Results
  import opened Rounding
  import opened Sorting
  import opened TickPrice
  import opened LiquidityStep
  import opened TickBook

  const BUDGET: nat := 8192
  const ARRAY_TICKS := 88

  datatype AdaptiveFee = AdaptiveFee(
    filterPeriod: int, decayPeriod: int, reductionFactor: int, controlFactor: int, maximumVolatility: int,
    tickGroupSize: int, lastReferenceTimestamp: int, lastMajorSwapTimestamp: int,
    volatilityReference: int, referenceGroup: int, volatility: int)

  datatype SwapResult = SwapResult(
    consumed: int, amountOut: int, fee: int, minimumFeeRate: int, maximumFeeRate: int,
    sqrtPrice: int, tickCurrent: int, liquidity: int)

  /** The fee rule a swap runs under, once the adaptive reference is settled. Outside
      `lowerGroup..upperGroup` (the core band) volatility is at its maximum. */
  datatype FeeRule =
    | Static
    | Adaptive(groupSize: Pos, reference: int, volatilityReference: int, maximum: int, control: int,
               lowerGroup: Option<int>, upperGroup: Option<int>)

  /** What a swap keeps fixed. */
  datatype Config = Config(
    feeRate: int, ticks: seq<Tick>, lower: int, upper: int, limit: int, down: bool, rule: FeeRule)

  /** What the loop updates. */
  datatype State = State(
    current: int, tick: int, liquidity: int, remaining: int, output: int, fees: int,
    group: int, minimumFee: int, maximumFee: int, first: bool)

  // ----- validation -----

  predicate Consecutive(starts: seq<int>, step: int) {
    forall i :: 0 < i < |starts| ==> starts[i] - starts[i - 1] == step
  }

  predicate ValidPool(pool: Pool, amount: int, timestamp: int) {
    && 0 < amount <= U64 && 0 <= timestamp <= U64
    && 0 <= pool.liquidity <= U128
    && 0 < pool.tickSpacing <= 65535 && 0 <= pool.feeRate <= 65535
    && InRange(pool.tickCurrent)
    && MIN_SQRT_PRICE <= pool.sqrtPrice <= MaxSqrtPrice(Engine.Whirlpool)
  }

  /** Between one and six adjacent tick arrays, aligned and touching the tick range. */
  predicate ValidArrays(starts: seq<int>, step: int)
    requires step > 0
  {
    && 1 <= |starts| <= 6
    && (forall s :: s in starts ==> s % step == 0 && s <= MAX_TICK && MIN_TICK < s + step)
    && Consecutive(starts, step)
  }

  predicate ValidTick(t: Tick, lower: int, upper: int, spacing: int)
    requires spacing > 0
  {
    && lower <= t.tick <= upper && t.tick % spacing == 0
    && -0x8000_0000_0000_0000_0000_0000_0000_0000 <= t.liquidityNet < 0x8000_0000_0000_0000_0000_0000_0000_0000
  }

  predicate ValidLimit(pool: Pool, limit: int, down: bool) {
    && MIN_SQRT_PRICE <= limit <= MaxSqrtPrice(Engine.Whirlpool)
    && if down then limit < pool.sqrtPrice else pool.sqrtPrice < limit
  }

  predicate ValidAdaptive(a: AdaptiveFee) {
    && 0 <= a.filterPeriod <= 65535 && 0 <= a.decayPeriod <= 65535
    && 0 <= a.reductionFactor <= 10000 && 0 < a.tickGroupSize <= 65535
    && 0 <= a.controlFactor <= 0xFFFF_FFFF && 0 <= a.maximumVolatility <= 0xFFFF_FFFF
    && 0 <= a.volatilityReference <= a.maximumVolatility && 0 <= a.volatility <= 0xFFFF_FFFF
    && 0 <= a.lastReferenceTimestamp <= U64 && 0 <= a.lastMajorSwapTimestamp <= U64
    && a.maximumVolatility * a.tickGroupSize <= 0xFFFF_FFFF
    && -0x8000_0000 <= a.referenceGroup < 0x8000_0000
  }

  /** Settles the adaptive reference for a swap at `timestamp` and derives the core band. */
  function SettleRule(a: AdaptiveFee, tick: int, timestamp: int): Result<FeeRule> {
    if !ValidAdaptive(a) then Err(InvalidFee)
    else
      var last := Max(a.lastReferenceTimestamp, a.lastMajorSwapTimestamp);
      if timestamp < last then Err(InvalidFee)
      else
        var group := tick / a.tickGroupSize;
        var stale := timestamp - a.lastReferenceTimestamp > 3600 || timestamp - last >= a.decayPeriod;
        var moved := stale || timestamp - last >= a.filterPeriod;
        var reference := if moved then group else a.referenceGroup;
        var volatilityReference :=
          if stale then 0
          else if moved then a.volatility * a.reductionFactor / 10000
          else a.volatilityReference;
        if volatilityReference > a.maximumVolatility then Err(InvalidFee)
        else
          var distance := Ceil(a.maximumVolatility - volatilityReference, 10000);
          Ok(Adaptive(
            a.tickGroupSize, reference, volatilityReference, a.maximumVolatility, a.controlFactor,
            if (reference - distance) * a.tickGroupSize > MIN_TICK then Some(reference - distance) else None,
            if (reference + distance + 1) * a.tickGroupSize < MAX_TICK then Some(reference + distance) else None))
  }

  function Ordered(ticks: seq<Tick>): seq<Tick> {
    if Increasing(ticks) then ticks else Sort(ticks, TickOf)
  }

  /** The price a swap may move to at most; zero asks for the end of the price range. */
  function EffectiveLimit(limit: int, down: bool): int {
    if limit != 0 then limit else if down then MIN_SQRT_PRICE else MaxSqrtPrice(Engine.Whirlpool)
  }

  /** Checks every argument and sets up the loop; `limit == 0` means no limit. */
  function Prepare(
      pool: Pool, ticks: seq<Tick>, arrayStarts: seq<int>, amount: int, timestamp: int, down: bool,
      adaptive: Option<AdaptiveFee>, limit: int): Result<(Config, State)>
  {
    if !ValidPool(pool, amount, timestamp) then Err(InvalidPool)
    else
      var starts := Sort(arrayStarts, Itself);
      var step := ARRAY_TICKS * pool.tickSpacing;
      if !ValidArrays(starts, step) then Err(InvalidTick)
      else
        var lower, upper := Max(starts[0], MIN_TICK), Min(starts[|starts| - 1] + step - 1, MAX_TICK);
        var bound := EffectiveLimit(limit, down);
        if !ValidLimit(pool, bound, down) then Err(InvalidLimit)
        else if exists t :: t in ticks && !ValidTick(t, lower, upper, pool.tickSpacing) then Err(InvalidTick)
        else if !Increasing(Ordered(ticks)) then Err(DuplicateTick)
        else
          var rule :-
            if adaptive.None? then Ok(Static) else SettleRule(adaptive.value, pool.tickCurrent, timestamp);
          var group := if rule.Static? then 0 else pool.tickCurrent / adaptive.value.tickGroupSize;
          Ok((
            Config(pool.feeRate, Ordered(ticks), lower, upper, bound, down, rule),
            State(pool.sqrtPrice, pool.tickCurrent, pool.liquidity, amount, 0, 0, group, pool.feeRate, pool.feeRate, true)))
  }

  // ----- one pass of the loop -----

  /** The initialized tick ahead of `tick`, if any. */
  function NextTick(ticks: seq<Tick>, tick: int, down: bool): Option<Tick> {
    var position := CountUpTo(ticks, TickOf, tick) - if down then 1 else 0;
    if 0 <= position < |ticks| then Some(ticks[position]) else None
  }

  /** The tick the pass heads for: the next initialized one, else the edge of the arrays. */
  function NextIndex(cfg: Config, tick: int): int {
    var next := NextTick(cfg.ticks, tick, cfg.down);
    if next.Some? then next.value.tick else if cfg.down then cfg.lower else cfg.upper
  }

  function Volatility(rule: FeeRule, group: int): int
    requires rule.Adaptive?
  {
    Min(rule.volatilityReference + Abs(rule.reference - group) * 10000, rule.maximum)
  }

  /** The fee rate of a group of ticks. */
  function FeeAt(cfg: Config, group: int): int {
    match cfg.rule
    case Static => cfg.feeRate
    case Adaptive(groupSize, _, _, _, control, _, _) =>
      var crossed := Volatility(cfg.rule, group) * groupSize;
      Min(cfg.feeRate + Min(Ceil(control * crossed * crossed, 10000000000000), 100000), 100000)
  }

  /** The fee of one pass, the price it may move to, and whether it may leave its group. */
  datatype Charge = Charge(fee: int, bound: int, skipped: bool)

  function ChargeFor(cfg: Config, group: int, liquidity: int, target: int): Result<Charge> {
    match cfg.rule
    case Static => Ok(Charge(cfg.feeRate, target, false))
    case Adaptive(size, _, _, _, control, lowerGroup, upperGroup) =>
      var fee := FeeAt(cfg, group);
      if control == 0 || liquidity == 0 then Ok(Charge(fee, target, true))
      else if lowerGroup.Some? && group < lowerGroup.value then
        if cfg.down then Ok(Charge(fee, target, true))
        else
          var price :- PriceAt(Engine.Whirlpool, lowerGroup.value * size);
          Ok(Charge(fee, Min(target, price), true))
      else if upperGroup.Some? && group > upperGroup.value then
        if !cfg.down then Ok(Charge(fee, target, true))
        else
          var price :- PriceAt(Engine.Whirlpool, (upperGroup.value + 1) * size);
          Ok(Charge(fee, Max(target, price), true))
      else
        var boundary := Max(MIN_TICK, Min(MAX_TICK, (if cfg.down then group else group + 1) * size));
        var price :- PriceAt(Engine.Whirlpool, boundary);
        Ok(Charge(fee, Toward(target, price, cfg.down), false))
  }

  /** The tick and liquidity after moving to `price`. */
  function Cross(cfg: Config, s: State, next: Option<Tick>, nextIndex: int, nextPrice: int, price: int)
    : Result<(int, int)>
  {
    if price == nextPrice then
      var liquidity :-
        if next.Some? then
          Unsigned(s.liquidity + (if cfg.down then -next.value.liquidityNet else next.value.liquidityNet), U128)
        else Ok(s.liquidity);
      Ok((if cfg.down then nextIndex - 1 else nextIndex, liquidity))
    else if price != s.current then
      var tick :- TickAt(Engine.Whirlpool, price);
      Ok((tick, s.liquidity))
    else Ok((s.tick, s.liquidity))
  }

  /** The group the next pass is charged in. */
  function NextGroup(cfg: Config, group: int, nextIndex: int, nextPrice: int, price: int, skipped: bool): Result<int> {
    match cfg.rule
    case Static => Ok(group)
    case Adaptive(size, _, _, _, _, _, _) =>
      var reached :-
        if !skipped then Ok(group)
        else
          var tick :- if price == nextPrice then Ok(nextIndex) else TickAt(Engine.Whirlpool, price);
          var tickPrice :- PriceAt(Engine.Whirlpool, tick);
          var onBoundary := tick % size == 0 && price == tickPrice;
          var last := tick / size - if !cfg.down && onBoundary then 1 else 0;
          Ok(if cfg.down then Min(group, last) else Max(group, last));
      Ok(reached + if cfg.down then -1 else 1)
  }

  predicate Finished(cfg: Config, s: State) {
    s.remaining == 0 || s.current == cfg.limit
  }

  /** The supplied arrays reach beyond `tick`. */
  predicate Loaded(cfg: Config, tick: int) {
    if cfg.down then cfg.lower <= tick else tick < cfg.upper
  }

  /** One pass of the loop from an unfinished state. */
  function Iterate(cfg: Config, s: State): Result<State> {
    if !Loaded(cfg, s.tick) then Err(MissingArrays)
    else
      var next := NextTick(cfg.ticks, s.tick, cfg.down);
      var nextIndex := NextIndex(cfg, s.tick);
      var nextPrice :- PriceAt(Engine.Whirlpool, nextIndex);
      var charge :- ChargeFor(cfg, s.group, s.liquidity, Toward(nextPrice, cfg.limit, cfg.down));
      var step :- SwapStep(s.current, charge.bound, s.liquidity, s.remaining, charge.fee, cfg.down);
      var remaining :- Unsigned(s.remaining - step.amountIn - step.fee, U64);
      var output :- Unsigned(s.output + step.amountOut, U64);
      var fees :- Unsigned(s.fees + step.fee, U64);
      var crossed :- Cross(cfg, s, next, nextIndex, nextPrice, step.sqrtPrice);
      var group :- NextGroup(cfg, s.group, nextIndex, nextPrice, step.sqrtPrice, charge.skipped);
      Ok(State(
        step.sqrtPrice, crossed.0, crossed.1, remaining, output, fees, group,
        if s.first then charge.fee else Min(s.minimumFee, charge.fee),
        if s.first then charge.fee else Max(s.maximumFee, charge.fee),
        false))
  }

  function Finish(s: State, amount: int): SwapResult {
    SwapResult(amount - s.remaining, s.output, s.fees, s.minimumFee, s.maximumFee, s.current, s.tick, s.liquidity)
  }

  /** At most `budget` passes, stopping at the first finished state. */
  function Run(cfg: Config, s: State, budget: nat): Result<State>
    decreases budget
  {
    hide Iterate;
    if budget == 0 then Err(BudgetExhausted)
    else if Finished(cfg, s) then Ok(s)
    else
      var s' :- Iterate(cfg, s);
      Run(cfg, s', budget - 1)
  }

  function Swap(
      pool: Pool, ticks: seq<Tick>, arrayStarts: seq<int>, amount: int, timestamp: int, down: bool,
      adaptive: Option<AdaptiveFee>, limit: int): Result<SwapResult>
  {
    hide Prepare, Run;
    var start :- Prepare(pool, ticks, arrayStarts, amount, timestamp, down, adaptive, limit);
    var end :- Run(start.0, start.1, BUDGET);
    Ok(Finish(end, amount))
  }
}
