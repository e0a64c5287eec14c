/** The Whirlpool loop itself, updating its variables in place, proved to compute
    what `Whirlpool.Swap` specifies. */
module WhirlpoolSwap {
  import opened Results
  import opened Rounding
  import opened Sorting
  import opened TickPrice
  import opened LiquidityStep
  import opened TickBook
  import opened Whirlpool
  import opened WhirlpoolLedger

  /** The initialized tick ahead of `tick`, looked up by bisection. */
  method FindNext(ticks: seq<Tick>, tick: int, down: bool) returns (next: Option<Tick>)
    requires Increasing(ticks)
    ensures next == NextTick(ticks, tick, down)
  {
    var count := BisectRight(ticks, TickOf, tick);
    var position := count - if down then 1 else 0;
    next := if 0 <= position < |ticks| then Some(ticks[position]) else None;
  }

  /** Updates tick and liquidity for a move to `price`. */
  method Land(
      cfg: Config, s: State, next: Option<Tick>, nextIndex: int, nextPrice: int, price: int)
    returns (r: Result<(int, int)>)
    ensures r == Cross(cfg, s, next, nextIndex, nextPrice, price)
  {
    hide TickAt;
    var tick, liquidity := s.tick, s.liquidity;
    if price == nextPrice {
      if next.Some? {
        liquidity :- Unsigned(liquidity + (if cfg.down then -next.value.liquidityNet else next.value.liquidityNet), U128);
      }
      tick := if cfg.down then nextIndex - 1 else nextIndex;
    } else if price != s.current {
      var found := TickAtSqrtPrice(Engine.Whirlpool, price);
      if found.Err? {
        return Err(found.error);
      }
      tick := found.value;
    }
    return Ok((tick, liquidity));
  }

  /** One pass, with the last looked-up price cached. */
  method Pass(cfg: Config, at: State, cachedIndex: Option<int>, cachedPrice: nat)
    returns (r: Result<State>, index: Option<int>, price: nat)
    requires Increasing(cfg.ticks)
    requires cachedIndex.Some? ==> PriceAt(Engine.Whirlpool, cachedIndex.value) == Ok(cachedPrice)
    ensures r == Iterate(cfg, at)
    ensures index.Some? ==> PriceAt(Engine.Whirlpool, index.value) == Ok(price)
  {
    hide Price, SwapStep, ChargeFor, NextGroup, NextTick, Cross, Increasing;
    index, price := cachedIndex, cachedPrice;
    if if cfg.down then at.tick < cfg.lower else cfg.upper <= at.tick {
      return Err(MissingArrays), index, price;
    }
    var next := FindNext(cfg.ticks, at.tick, cfg.down);
    var nextIndex := if next.Some? then next.value.tick else if cfg.down then cfg.lower else cfg.upper;
    if index != Some(nextIndex) {
      var fetched := SqrtPriceAtTick(Engine.Whirlpool, nextIndex);
      if fetched.Err? {
        return Err(fetched.error), index, price;
      }
      index, price := Some(nextIndex), fetched.value;
    }
    var target := if cfg.down then Max(price, cfg.limit) else Min(price, cfg.limit);
    r := MoveAndLand(cfg, at, next, nextIndex, price, ChargeFor(cfg, at.group, at.liquidity, target));
  }

  /** The rest of a pass, once its charge is known. */
  method MoveAndLand(cfg: Config, at: State, next: Option<Tick>, nextIndex: int, nextPrice: nat, charge: Result<Charge>)
    returns (r: Result<State>)
    requires Loaded(cfg, at.tick) && next == NextTick(cfg.ticks, at.tick, cfg.down) && nextIndex == NextIndex(cfg, at.tick)
    requires PriceAt(Engine.Whirlpool, nextIndex) == Ok(nextPrice)
    requires charge == ChargeFor(cfg, at.group, at.liquidity, Toward(nextPrice, cfg.limit, cfg.down))
    ensures r == Iterate(cfg, at)
  {
    hide Price, SwapStep, ChargeFor, NextGroup, NextTick, NextIndex, Cross, Toward;
    if charge.Err? {
      return Err(charge.error);
    }
    var fee := charge.value.fee;
    var minimumFee := if at.first then fee else Min(at.minimumFee, fee);
    var maximumFee := if at.first then fee else Max(at.maximumFee, fee);
    var result :- SwapStep(at.current, charge.value.bound, at.liquidity, at.remaining, fee, cfg.down);
    var remaining :- Unsigned(at.remaining - result.amountIn - result.fee, U64);
    var output :- Unsigned(at.output + result.amountOut, U64);
    var fees :- Unsigned(at.fees + result.fee, U64);
    var landed := Land(cfg, at, next, nextIndex, nextPrice, result.sqrtPrice);
    if landed.Err? {
      return Err(landed.error);
    }
    var group :- NextGroup(cfg, at.group, nextIndex, nextPrice, result.sqrtPrice, charge.value.skipped);
    return Ok(State(result.sqrtPrice, landed.value.0, landed.value.1, remaining, output, fees, group,
                    minimumFee, maximumFee, false));
  }

  /** The loop: at most 8192 passes, stopping at the first finished state. */
  method Traverse(cfg: Config, start: State) returns (r: Result<State>)
    requires Increasing(cfg.ticks)
    ensures r == Run(cfg, start, BUDGET)
  {
    hide Iterate, PriceAt, Increasing, BUDGET;
    var s := start;
    var cachedIndex: Option<int>, cachedPrice := None, 0;
    for i := 0 to BUDGET
      invariant Run(cfg, start, BUDGET) == Run(cfg, s, BUDGET - i)
      invariant cachedIndex.Some? ==> PriceAt(Engine.Whirlpool, cachedIndex.value) == Ok(cachedPrice)
    {
      if s.remaining == 0 || s.current == cfg.limit {
        return Ok(s);
      }
      var next: Result<State>;
      next, cachedIndex, cachedPrice := Pass(cfg, s, cachedIndex, cachedPrice);
      if next.Err? {
        return Err(next.error);
      }
      s := next.value;
    }
    return Err(BudgetExhausted);
  }

  /** The whole swap. */
  method SwapExactIn(
      pool: Pool, ticks: seq<Tick>, arrayStarts: seq<int>, amount: int, timestamp: int, down: bool,
      adaptive: Option<AdaptiveFee>, limit: int) returns (r: Result<SwapResult>)
    ensures r == Swap(pool, ticks, arrayStarts, amount, timestamp, down, adaptive, limit)
  {
    hide Prepare, Run, Increasing;
    var start := Prepare(pool, ticks, arrayStarts, amount, timestamp, down, adaptive, limit);
    if start.Err? {
      return Err(start.error);
    }
    StartMeaning(pool, ticks, arrayStarts, amount, timestamp, down, adaptive, limit);
    var end := Traverse(start.value.0, start.value.1);
    if end.Err? {
      return Err(end.error);
    }
    var s := end.value;
    return Ok(SwapResult(
      amount - s.remaining, s.output, s.fees, s.minimumFee, s.maximumFee, s.current, s.tick, s.liquidity));
  }
}
