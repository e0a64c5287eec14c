/** The CLMM loop itself, filling the order list in place, proved to compute what
    `ClmmDynamic.SwapEncoded` specifies. */
module ClmmSwap {
  import opened Results
  import opened Rounding
  import opened TickPrice
  import opened LiquidityStep
  import opened TickBook
  import opened Bytes
  import opened Clmm
  import opened ClmmDynamic

  /** Scans for the nearest tick with liquidity or orders in the trade direction. */
  method FindNearest(cfg: Config, orders: array<int>, tick: int) returns (best: Option<nat>)
    requires |cfg.ticks| == orders.Length
    ensures best == Nearest(cfg, orders[..], tick, |cfg.ticks|)
  {
    best := None;
    for n := 0 to |cfg.ticks|
      invariant best == Nearest(cfg, orders[..], tick, n)
    {
      var t := cfg.ticks[n];
      if (t.liquidityGross != 0 || orders[n] != 0) && Ahead(t, tick, cfg.down) {
        if best.None? || (if cfg.down then cfg.ticks[best.value].tick < t.tick else t.tick < cfg.ticks[best.value].tick) {
          best := Some(n);
        }
      }
    }
  }

  /** The loop's variables beside the order list. */
  datatype Vars = Vars(current: int, tick: int, liquidity: int, remaining: int, output: int, group: int) {
    function With(orders: seq<int>): State {
      State(current, tick, liquidity, remaining, output, orders, group)
    }
  }

  /** Fills the orders at the reached tick `i` in place and crosses it once none are left. */
  method FillAndCross(cfg: Config, orders: array<int>, i: nat, fee: FeeRate, v: Vars) returns (r: Result<Vars>)
    requires i < |cfg.ticks| == orders.Length
    modifies orders
    ensures r.Err? ==> Arrive(cfg, v.With(old(orders[..])), i, fee) == Err(r.error)
    ensures r.Ok? ==> Arrive(cfg, v.With(old(orders[..])), i, fee) == Ok(r.value.With(orders[..]))
    ensures r.Ok? ==> r.value.group == v.group
  {
    hide MatchOrders;
    var t := cfg.ticks[i];
    var remaining, output, liquidity := v.remaining, v.output, v.liquidity;
    if orders[i] != 0 && remaining != 0 {
      var fill :- MatchOrders(orders[i], remaining, v.current, fee, cfg.inputFee, cfg.down);
      remaining :- Unsigned(remaining - fill.spent, U64);
      output :- Unsigned(output + fill.received, U64);
      orders[i] := orders[i] - fill.filled;
    }
    if t.liquidityGross != 0 && orders[i] == 0 {
      liquidity :- Unsigned(liquidity + (if cfg.down then -t.liquidityNet else t.liquidityNet), U128);
    }
    var tick := if (cfg.down && orders[i] == 0) || (!cfg.down && orders[i] != 0) then t.tick - 1 else t.tick;
    return Ok(v.(tick := tick, liquidity := liquidity, remaining := remaining, output := output));
  }

  /** Moves the price within the current liquidity, settling the fee side. */
  method MoveWithin(cfg: Config, ghost orders: seq<int>, bound: int, fee: FeeRate, v: Vars) returns (r: Result<Vars>)
    ensures r.Err? ==> Move(cfg, v.With(orders), bound, fee) == Err(r.error)
    ensures r.Ok? ==> Move(cfg, v.With(orders), bound, fee) == Ok(r.value.With(orders)) && r.value.group == v.group
  {
    hide SwapStep, GrossFee;
    if v.current == bound {
      return Ok(v);
    }
    var step :- SwapStep(v.current, bound, v.liquidity, v.remaining, if cfg.inputFee then fee else 0, cfg.down);
    var remaining :- Unsigned(v.remaining - step.amountIn - (if cfg.inputFee then step.fee else 0), U64);
    var net := if cfg.inputFee then step.amountOut else step.amountOut - GrossFee(step.amountOut, fee);
    var output :- Unsigned(v.output + net, U64);
    return Ok(v.(current := step.sqrtPrice, remaining := remaining, output := output));
  }

  /** One pass over the variables and the order list. */
  method OnePass(cfg: Config, orders: array<int>, v: Vars) returns (r: Result<Vars>, stopped: bool)
    requires orders.Length == |cfg.ticks|
    modifies orders
    ensures r.Err? ==> Iterate(cfg, v.With(old(orders[..]))) == Err(r.error)
    ensures r.Ok? ==> Iterate(cfg, v.With(old(orders[..]))) == Ok(Pass(r.value.With(orders[..]), stopped))
  {
    hide Price, Move, Arrive, TickAt, FeeAt, Bound, NextGroup, Nearest, Skips;
    stopped := false;
    var index := FindNearest(cfg, orders, v.tick);
    var nextTick := if index.Some? then cfg.ticks[index.value].tick else if cfg.down then MIN_TICK else MAX_TICK;
    var fetched := SqrtPriceAtTick(Engine.Clmm, nextTick);
    if fetched.Err? {
      return Err(fetched.error), stopped;
    }
    var nextPrice := fetched.value;
    var fee := FeeAt(cfg, v.group);
    var target := if cfg.down then Max(nextPrice, cfg.limit) else Min(nextPrice, cfg.limit);
    r := MoveWithin(cfg, orders[..], Bound(cfg, v.group, v.liquidity, target), fee, v);
    if r.Err? {
      return;
    }
    if r.value.current == nextPrice {
      if index.None? {
        stopped := true;
        return;
      }
      r := FillAndCross(cfg, orders, index.value, fee, r.value);
      if r.Err? {
        return;
      }
    } else if r.value.current != v.current {
      var found := TickAtSqrtPrice(Engine.Clmm, r.value.current);
      if found.Err? {
        return Err(found.error), stopped;
      }
      r := Ok(r.value.(tick := found.value));
    }
    var boundaryTick := if r.value.current == nextPrice then nextTick else r.value.tick;
    r := Ok(r.value.(group := NextGroup(cfg, v.group, Skips(cfg, v.group, v.liquidity), boundaryTick)));
  }

  /** The whole swap: at most 8192 passes over the variables and the order list. */
  method SwapExactIn(
      pool: Pool, ticks: seq<Tick>, amount: int, limit: int, feeOn: int, bytes: seq<Byte>,
      timestamp: int, down: bool) returns (r: Result<SwapResult>)
    ensures r == SwapEncoded(pool, ticks, amount, limit, feeOn, bytes, timestamp, down)
  {
    hide Prepare, Iterate, BUDGET, DecodeDynamic;
    var dynamic :- DecodeDynamic(bytes);
    var start := Prepare(pool, ticks, amount, limit, feeOn, dynamic, timestamp, down);
    if start.Err? {
      return Err(start.error);
    }
    var cfg, s := start.value.0, start.value.1;
    var orders := new int[|ticks|](i requires 0 <= i < |s.orders| => s.orders[i]);
    assert orders[..] == s.orders;
    var v := Vars(s.current, s.tick, s.liquidity, s.remaining, s.output, s.group);
    for i := 0 to BUDGET
      invariant orders.Length == |cfg.ticks|
      invariant Run(cfg, s, BUDGET) == Run(cfg, v.With(orders[..]), BUDGET - i)
    {
      if v.remaining == 0 || v.current == cfg.limit {
        return Ok(SwapResult(amount - v.remaining, v.output, v.current, v.tick, v.liquidity));
      }
      var pass, stopped := OnePass(cfg, orders, v);
      if pass.Err? {
        return Err(pass.error);
      }
      v := pass.value;
      if stopped {
        break;
      }
    }
    if v.remaining != 0 && v.current != cfg.limit {
      return Err(BudgetExhausted);
    }
    return Ok(SwapResult(amount - v.remaining, v.output, v.current, v.tick, v.liquidity));
  }
}
