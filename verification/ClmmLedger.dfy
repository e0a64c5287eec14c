/** Limit-order fills and conservation over whole CLMM runs, with the fee on
    either side. */
module ClmmLedger {
  import opened Results
  import opened Rounding
  import opened TickPrice
  import opened LiquidityStep
  import opened TickBook
  import opened Clmm
  import opened ClmmPass

  // ----- one fill -----

  /** `input` pays for `order` at an order price. */
  predicate Pays(input: int, order: int, price: int, down: bool) {
    if down then order * Q64 <= input * price else order * price <= input * Q64
  }

  /** What an input buys and what an order costs are adjoint. */
  lemma BuysAndCost(input: int, order: int, price: Pos, down: bool)
    ensures order <= Buys(input, price, down) <==> Pays(input, order, price, down)
    ensures OrderCost(order, price, down) <= input <==> Pays(input, order, price, down)
  {
    if down {
      FloorGe(input * price, Q64, order);
      CeilLe(order * Q64, price, input);
    } else {
      FloorGe(input * Q64, price, order);
      CeilLe(order * price, Q64, input);
    }
  }

  lemma OrderPriceBounds(sqrtPrice: int, down: bool)
    ensures
      var price := OrderPrice(sqrtPrice, down);
      if down then price * Q64 <= sqrtPrice * sqrtPrice else sqrtPrice * sqrtPrice <= price * Q64
  {
    FloorBounds(sqrtPrice * sqrtPrice, Q64);
    CeilBounds(sqrtPrice * sqrtPrice, Q64);
  }

  /** Paying the rounded order price is no better than the pool price. */
  lemma PaysNoBetter(input: int, order: int, sqrtPrice: int, down: bool)
    requires 0 <= input && 0 <= order && Pays(input, order, OrderPrice(sqrtPrice, down), down)
    ensures NoBetter(input, order, sqrtPrice, down)
  {
    var price := OrderPrice(sqrtPrice, down);
    OrderPriceBounds(sqrtPrice, down);
    hide OrderPrice;
    if down {
      MulMono(price * Q64, sqrtPrice * sqrtPrice, input);
      MulMono(order * Q64, input * price, Q64);
    } else {
      MulMono(sqrtPrice * sqrtPrice, price * Q64, order);
      MulMono(order * price, input * Q64, Q64);
    }
  }

  /** Taking a rounded-up fee off is keeping the rounded-down net. */
  lemma GrossFeeNet(amount: int, feeRate: FeeRate)
    requires 0 <= amount
    ensures amount - GrossFee(amount, feeRate) == NetOfFee(amount, feeRate)
    ensures 0 <= GrossFee(amount, feeRate) <= amount
  {
    MulMono(0, feeRate, amount);
    MulMono(feeRate, FEE_SCALE, amount);
    CeilLe(amount * feeRate, FEE_SCALE, amount);
    CeilLe(amount * feeRate, FEE_SCALE, -1);
    CeilBounds(amount * feeRate, FEE_SCALE);
    var fee := GrossFee(amount, feeRate);
    NetOfFeeGe(amount, feeRate, amount - fee);
    NetOfFeeGe(amount, feeRate, amount - fee + 1);
    hide GrossFee, NetOfFee;
  }

  lemma OrderCostNonNegative(order: int, price: Pos, down: bool)
    requires 0 <= order
    ensures 0 <= OrderCost(order, price, down)
  {
    if down {
      CeilLe(order * Q64, price, -1);
    } else {
      MulMono(0, order, price);
      CeilLe(order * price, Q64, -1);
    }
  }

  /** What the two branches of a fill share: the part spent on orders. */
  lemma FillParts(order: int, available: int, price: Pos, down: bool)
    requires 0 < order && 0 <= available
    ensures
      var matched := Buys(available, price, down);
      && 0 <= matched && Pays(available, Min(matched, order), price, down)
      && (matched > order ==>
            0 <= OrderCost(order, price, down) <= available
            && Pays(OrderCost(order, price, down), order, price, down))
  {
    var matched := Buys(available, price, down);
    BuysAndCost(available, 0, price, down);
    BuysAndCost(available, Min(matched, order), price, down);
    BuysAndCost(available, order, price, down);
    BuysAndCost(OrderCost(order, price, down), order, price, down);
    OrderCostNonNegative(order, price, down);
    if down {
      MulMono(0, available, price);
    }
    hide Buys, OrderCost;
  }

  /** A fill completes the orders or exhausts the input, spends no more than there is,
      and pays at least the pool's own price. */
  lemma FillMeaning(order: int, remaining: int, sqrtPrice: int, feeRate: FeeRate, inputFee: bool, down: bool)
    requires 0 < order && 0 <= remaining && 0 < sqrtPrice
    requires MatchOrders(order, remaining, sqrtPrice, feeRate, inputFee, down).Ok?
    ensures
      var f := MatchOrders(order, remaining, sqrtPrice, feeRate, inputFee, down).value;
      && 0 <= f.spent <= remaining
      && 0 <= f.received <= f.filled <= order
      && (f.filled == order || f.spent == remaining)
      && NoBetter(f.spent, f.received, sqrtPrice, down)
  {
    var f := MatchOrders(order, remaining, sqrtPrice, feeRate, inputFee, down).value;
    var price: Pos := OrderPrice(sqrtPrice, down);
    GrossFeeNet(remaining, feeRate);
    var available := if inputFee then NetOfFee(remaining, feeRate) else remaining;
    FillParts(order, available, price, down);
    var matched := Buys(available, price, down);
    var consumed := if matched > order then OrderCost(order, price, down) else available;
    if inputFee {
      FeeFits(remaining, feeRate, consumed);
    }
    GrossFeeNet(f.filled, feeRate);
    FillSpends(order, remaining, sqrtPrice, feeRate, inputFee, down, available);
    hide MatchOrders, Buys, OrderCost, GrossFee, NetOfFee, FeeOnTop, Pays, NoBetter;
    PaysNoBetter(consumed, f.filled, sqrtPrice, down);
    hide OrderPrice;
    NoBetterWeakens(consumed, f.filled, f.spent, f.received, sqrtPrice, down);
  }

  /** A fill takes exactly the orders the fee-free part of the input pays for. */
  lemma FillIsGreedy(
      order: int, remaining: int, sqrtPrice: int, feeRate: FeeRate, inputFee: bool, down: bool, part: int)
    requires 0 < order && 0 <= remaining && part <= order
    requires MatchOrders(order, remaining, sqrtPrice, feeRate, inputFee, down).Ok?
    ensures
      var f := MatchOrders(order, remaining, sqrtPrice, feeRate, inputFee, down).value;
      var available := if inputFee then NetOfFee(remaining, feeRate) else remaining;
      part <= f.filled <==> Pays(available, part, OrderPrice(sqrtPrice, down), down)
  {
    var available := if inputFee then NetOfFee(remaining, feeRate) else remaining;
    GrossFeeNet(remaining, feeRate);
    FillSpends(order, remaining, sqrtPrice, feeRate, inputFee, down, available);
    BuysAndCost(available, part, OrderPrice(sqrtPrice, down), down);
    hide MatchOrders, Buys, OrderCost, OrderPrice, Pays, NetOfFee;
  }

  /** The amounts of a fill, named. */
  lemma FillSpends(
      order: int, remaining: int, sqrtPrice: int, feeRate: FeeRate, inputFee: bool, down: bool, available: int)
    requires 0 < order && 0 <= remaining
    requires MatchOrders(order, remaining, sqrtPrice, feeRate, inputFee, down).Ok?
    requires available == remaining - if inputFee then GrossFee(remaining, feeRate) else 0
    ensures OrderPrice(sqrtPrice, down) > 0
    ensures
      var f := MatchOrders(order, remaining, sqrtPrice, feeRate, inputFee, down).value;
      var price := OrderPrice(sqrtPrice, down);
      var matched := Buys(available, price, down);
      && f.filled == Min(matched, order)
      && f.received == f.filled - (if inputFee then 0 else GrossFee(f.filled, feeRate))
      && f.spent == (if matched > order
                     then OrderCost(order, price, down)
                       + if inputFee then FeeOnTop(OrderCost(order, price, down), feeRate) else 0
                     else remaining)
      && (matched > order ==> 0 <= OrderCost(order, price, down))
  {
    hide Buys, OrderCost, OrderPrice, GrossFee;
  }

  // ----- whole runs -----

  /** What holds of the running totals at every loop head. */
  ghost predicate Ledger(cfg: Config, spot: int, amount: int, s: State) {
    && |cfg.ticks| == |s.orders|
    && 0 < spot && 0 < s.current && Within(spot, s.current, cfg.down) && Within(s.current, cfg.limit, cfg.down)
    && 0 <= s.remaining <= amount && 0 <= s.output
    && (forall i :: 0 <= i < |s.orders| ==> 0 <= s.orders[i])
    && NoBetter(amount - s.remaining, s.output, spot, cfg.down)
  }

  /** A price at least as good for the trader as a no-better one is no better either. */
  lemma NoBetterThanSpot(input: int, output: int, price: int, spot: int, down: bool)
    requires 0 <= input && 0 <= output && 0 < spot && 0 < price && Within(spot, price, down)
    requires NoBetter(input, output, price, down)
    ensures NoBetter(input, output, spot, down)
  {
    if down {
      Squares(price, spot, spot);
      MulMono(price * price, spot * spot, input);
    } else {
      Squares(spot, price, price);
      MulMono(spot * spot, price * price, output);
    }
  }

  /** One move, as the ledger sees it, whichever side the fee is on. */
  lemma MoveMeaning(cfg: Config, s: State, bound: int, fee: FeeRate, spot: int, amount: int)
    requires Ledger(cfg, spot, amount, s) && Within(bound, cfg.limit, cfg.down)
    requires Move(cfg, s, bound, fee).Ok?
    ensures
      var m := Move(cfg, s, bound, fee).value;
      && Ledger(cfg, spot, amount, m)
      && m == s.(current := m.current, remaining := m.remaining, output := m.output)
      && Within(s.current, m.current, cfg.down) && Within(m.current, bound, cfg.down)
      && m.remaining <= s.remaining
  {
    var m := Move(cfg, s, bound, fee).value;
    if s.current != bound {
      var rate := if cfg.inputFee then fee else 0;
      StepBudget(s.current, bound, s.liquidity, s.remaining, rate, cfg.down);
      StepNoBetter(s.current, bound, s.liquidity, s.remaining, rate, cfg.down, spot);
      var step := SwapStep(s.current, bound, s.liquidity, s.remaining, rate, cfg.down).value;
      GrossFeeNet(step.amountOut, fee);
      hide SwapStep, GrossFee;
      var spent, received := s.remaining - m.remaining, m.output - s.output;
      NoBetterWeakens(step.amountIn, step.amountOut, spent, received, spot, cfg.down);
      NoBetterAdds(amount - s.remaining, s.output, spent, received, spot, cfg.down);
      hide NoBetter;
    }
  }

  /** What arriving at tick `i` does to the totals and the orders. */
  lemma ArriveMeaning(cfg: Config, s: State, i: nat, fee: FeeRate, spot: int, amount: int)
    requires Ledger(cfg, spot, amount, s) && i < |cfg.ticks|
    requires Arrive(cfg, s, i, fee).Ok?
    ensures
      var a := Arrive(cfg, s, i, fee).value;
      && Ledger(cfg, spot, amount, a)
      && a.current == s.current && a.remaining <= s.remaining
      && a.orders == s.orders[i := a.orders[i]] && a.orders[i] <= s.orders[i]
      && (a.orders[i] == 0 || a.remaining == 0)
  {
    hide MatchOrders, NoBetter;
    if s.orders[i] != 0 && s.remaining != 0 {
      FillMeaning(s.orders[i], s.remaining, s.current, fee, cfg.inputFee, cfg.down);
      var f := MatchOrders(s.orders[i], s.remaining, s.current, fee, cfg.inputFee, cfg.down).value;
      NoBetterThanSpot(f.spent, f.received, s.current, spot, cfg.down);
      NoBetterAdds(amount - s.remaining, s.output, f.spent, f.received, spot, cfg.down);
    }
  }

  /** Every pass keeps the ledger, and any orders it matches are filled completely
      unless the input is exhausted. */
  lemma PassKeepsLedger(cfg: Config, spot: int, amount: int, s: State)
    requires Ledger(cfg, spot, amount, s) && Iterate(cfg, s).Ok?
    ensures
      var s' := Iterate(cfg, s).value.state;
      && Ledger(cfg, spot, amount, s') && s'.remaining <= s.remaining
      && forall i :: 0 <= i < |s.orders| && s'.orders[i] != s.orders[i] ==>
        s'.orders[i] < s.orders[i] && (s'.orders[i] == 0 || s'.remaining == 0)
  {
    hide Iterate, Next, NextTick, Price, SwapStep, TickAt, FeeAt, Bound, Arrive, Move, NoBetter;
    var best, nextTick, nextPrice, bound, moved, landed := PassMeaning(cfg, s);
    BoundWithinTarget(cfg, s.group, s.liquidity, Toward(nextPrice, cfg.limit, cfg.down));
    MoveMeaning(cfg, s, bound, FeeAt(cfg, s.group), spot, amount);
    if moved.current == nextPrice && best.Some? {
      ArriveMeaning(cfg, moved, best.value, FeeAt(cfg, s.group), spot, amount);
    }
  }

  lemma {:induction false} VisitedKeepsLedger(cfg: Config, spot: int, amount: int, start: State, k: nat)
    requires Ledger(cfg, spot, amount, start) && Visited(cfg, start, k).Ok?
    ensures Ledger(cfg, spot, amount, Visited(cfg, start, k).value)
  {
    hide Iterate, NoBetter;
    if k > 0 {
      VisitedKeepsLedger(cfg, spot, amount, start, k - 1);
      PassKeepsLedger(cfg, spot, amount, Visited(cfg, start, k - 1).value);
    }
  }

  /** The state a swap starts from. */
  lemma StartMeaning(
      pool: Pool, ticks: seq<Tick>, amount: int, limit: int, feeOn: int, dynamic: Option<DynamicFee>,
      timestamp: int, down: bool)
    requires Prepare(pool, ticks, amount, limit, feeOn, dynamic, timestamp, down).Ok?
    ensures
      var (cfg, s) := Prepare(pool, ticks, amount, limit, feeOn, dynamic, timestamp, down).value;
      && ValidPool(pool, amount, timestamp, feeOn) && ValidLimit(pool, limit, down)
      && s.current == pool.sqrtPrice && s.tick == pool.tickCurrent && s.liquidity == pool.liquidity
      && s.remaining == amount && s.output == 0
      && cfg.down == down && cfg.limit == limit && cfg.ticks == ticks && NoDuplicates(ticks)
      && cfg.inputFee == FeeOnInput(feeOn, down)
      && |s.orders| == |ticks|
      && forall i :: 0 <= i < |ticks| ==> s.orders[i] == ticks[i].orders + ticks[i].partialOrders >= 0
  {
    hide SettleRule, NoDuplicates, ValidTick;
    var (cfg, s) := Prepare(pool, ticks, amount, limit, feeOn, dynamic, timestamp, down).value;
    forall i | 0 <= i < |ticks|
      ensures s.orders[i] == ticks[i].orders + ticks[i].partialOrders >= 0
    {
      assert ValidOrders(ticks[i]);
    }
  }

  lemma StartLedger(
      pool: Pool, ticks: seq<Tick>, amount: int, limit: int, feeOn: int, dynamic: Option<DynamicFee>,
      timestamp: int, down: bool)
    requires Prepare(pool, ticks, amount, limit, feeOn, dynamic, timestamp, down).Ok?
    ensures
      var (cfg, s) := Prepare(pool, ticks, amount, limit, feeOn, dynamic, timestamp, down).value;
      Ledger(cfg, pool.sqrtPrice, amount, s)
  {
    hide Prepare, NoDuplicates;
    StartMeaning(pool, ticks, amount, limit, feeOn, dynamic, timestamp, down);
  }

  /** Between consecutive loop heads of a swap, orders are only ever filled, never
      below zero, and a tick whose orders change is either completely filled or has
      exhausted the input, which itself never grows or goes negative. */
  lemma OrdersFillInTurn(
      pool: Pool, ticks: seq<Tick>, amount: int, limit: int, feeOn: int, dynamic: Option<DynamicFee>,
      timestamp: int, down: bool, k: nat)
    requires Prepare(pool, ticks, amount, limit, feeOn, dynamic, timestamp, down).Ok?
    requires
      var (cfg, start) := Prepare(pool, ticks, amount, limit, feeOn, dynamic, timestamp, down).value;
      Visited(cfg, start, k).Ok? && Visited(cfg, start, k + 1).Ok?
    ensures
      var (cfg, start) := Prepare(pool, ticks, amount, limit, feeOn, dynamic, timestamp, down).value;
      var s, s' := Visited(cfg, start, k).value, Visited(cfg, start, k + 1).value;
      && 0 <= s'.remaining <= s.remaining <= amount
      && forall i :: 0 <= i < |ticks| ==>
        && 0 <= s'.orders[i] <= s.orders[i]
        && (s'.orders[i] != s.orders[i] ==> s'.orders[i] == 0 || s'.remaining == 0)
  {
    hide Prepare, Iterate, NoBetter;
    StartMeaning(pool, ticks, amount, limit, feeOn, dynamic, timestamp, down);
    StartLedger(pool, ticks, amount, limit, feeOn, dynamic, timestamp, down);
    var (cfg, start) := Prepare(pool, ticks, amount, limit, feeOn, dynamic, timestamp, down).value;
    VisitedKeepsLedger(cfg, pool.sqrtPrice, amount, start, k);
    PassKeepsLedger(cfg, pool.sqrtPrice, amount, Visited(cfg, start, k).value);
  }

  /** The ledger at the end of a run, whether at a loop head or stopped in a pass. */
  lemma EndLedger(cfg: Config, spot: int, amount: int, start: State, j: nat, end: State)
    requires Ledger(cfg, spot, amount, start)
    requires Visited(cfg, start, j).Ok? && EndsAt(cfg, Visited(cfg, start, j).value, end)
    ensures Ledger(cfg, spot, amount, end)
  {
    hide Iterate, NoBetter, Visited;
    VisitedKeepsLedger(cfg, spot, amount, start, j);
    var s := Visited(cfg, start, j).value;
    if s != end {
      PassKeepsLedger(cfg, spot, amount, s);
    }
  }

  /** No successful swap spends more than its input or beats the pool's starting spot
      price, limit-order fills and either fee side included. */
  lemma SwapConserves(
      pool: Pool, ticks: seq<Tick>, amount: int, limit: int, feeOn: int, dynamic: Option<DynamicFee>,
      timestamp: int, down: bool)
    requires Swap(pool, ticks, amount, limit, feeOn, dynamic, timestamp, down).Ok?
    ensures
      var r := Swap(pool, ticks, amount, limit, feeOn, dynamic, timestamp, down).value;
      && 0 <= r.consumed <= amount && 0 <= r.amountOut
      && (r.consumed == amount || r.sqrtPrice == limit)
      && NoBetter(r.consumed, r.amountOut, pool.sqrtPrice, down)
  {
    hide Prepare, Iterate, NoBetter, Run, Visited, EndsAt;
    StartMeaning(pool, ticks, amount, limit, feeOn, dynamic, timestamp, down);
    StartLedger(pool, ticks, amount, limit, feeOn, dynamic, timestamp, down);
    var (cfg, start) := Prepare(pool, ticks, amount, limit, feeOn, dynamic, timestamp, down).value;
    VisitedStart(cfg, start);
    var j := RunVisits(cfg, start, 0, start, BUDGET);
    EndLedger(cfg, pool.sqrtPrice, amount, start, j, Run(cfg, start, BUDGET).value);
  }
}
