/** In which modes a larger CLMM input never returns less, whatever the pool: in all but
    one. Downwards with the fee on the output it takes a coherent pool: from a stale tick, an input that stops short with some left over may still meet orders, in a
    cheaper fee group, that one more unit of input moves past. */
module ClmmIncoherent {
  import opened Results
  import opened Rounding
  import opened TickPrice
  import opened LiquidityStep
  import opened TickBook
  import opened Clmm
  import opened ClmmMonotone

  const LIQUIDITY: int := 0x10_0000_0000_0000_0000_0000_0000
  const UNIT: int := 0x10_0000_0000
  const POOL := Pool(Q64 + 1, LIQUIDITY, -1000, 1, 0)
  const TICKS := [Tick(0, 0, 0, 0x100_0000_0000, 0)]
  const DYNAMIC := DynamicFee(10, 100, 5000, 99999, 5000000, -1, 0, 0, 0)
  const CFG := Config(1, 0, TICKS, MIN_SQRT_PRICE, true, false, Dynamic(-1, 0, 5000000, 99999))

  function Start(amount: int): State {
    State(Q64 + 1, -1000, LIQUIDITY, amount, 0, [0x100_0000_0000], -1000)
  }

  lemma Starts(amount: int)
    requires 0 <= amount <= U64
    ensures Prepare(POOL, TICKS, amount, MIN_SQRT_PRICE, 2, Some(DYNAMIC), 0, true) == Ok((CFG, Start(amount)))
    ensures !FeeOnInput(2, true)
  {
    assert SettleRule(DYNAMIC, 1, -1000, 0) == Ok(CFG.rule);
    assert InitialOrders(TICKS) == [0x100_0000_0000];
    hide SettleRule, InitialOrders;
  }

  lemma Costs()
    ensures Delta(Q64 + 1, Q64, LIQUIDITY, true, true) == Ok(UNIT)
    ensures Delta(Q64 + 1, Q64 - 1, LIQUIDITY, true, true) == Ok(2 * UNIT + 1)
  {
    assert Numerator(LIQUIDITY, Q64, Q64 + 1, true) == LIQUIDITY * Q64;
    assert Numerator(LIQUIDITY, Q64 - 1, Q64 + 1, true) == 2 * LIQUIDITY * Q64;
    hide Numerator;
    CeilIs(LIQUIDITY * Q64, Denominator(Q64, Q64 + 1, true), UNIT);
    CeilIs(2 * LIQUIDITY * Q64, Denominator(Q64 - 1, Q64 + 1, true), 2 * UNIT + 1);
    hide Ceil, Denominator;
  }

  lemma CeilIs(n: int, d: int, k: int)
    requires d > 0 && (k - 1) * d < n <= k * d
    ensures Ceil(n, d) == k
  {
    CeilLe(n, d, k);
    CeilLe(n, d, k - 1);
    hide Ceil;
  }

  lemma FarCost()
    ensures
      var cost := Delta(Q64 + 1, MIN_SQRT_PRICE, LIQUIDITY, true, true);
      cost.Ok? && 2 * UNIT + 1 < cost.value
  {
    CeilLe(Numerator(LIQUIDITY, MIN_SQRT_PRICE, Q64 + 1, true), Denominator(MIN_SQRT_PRICE, Q64 + 1, true), 2 * UNIT + 1);
    hide Ceil;
  }

  lemma Yields()
    ensures Delta(Q64 + 1, Q64, LIQUIDITY, false, false) == Ok(UNIT)
    ensures Delta(Q64 + 1, Q64 - 1, LIQUIDITY, false, false) == Ok(2 * UNIT)
  {
  }

  lemma Reaches()
    ensures Reach(Q64 + 1, LIQUIDITY, 2 * UNIT, true) == Q64
    ensures Reach(Q64 + 1, LIQUIDITY, 2 * UNIT + 1, true) == Q64 - 1
    ensures NetOfFee(2 * UNIT, 0) == 2 * UNIT && NetOfFee(2 * UNIT + 1, 0) == 2 * UNIT + 1
  {
  }

  /** One unit of price costs and yields `UNIT`; two cost one more than twice that. */
  lemma Steps()
    ensures SwapStep(Q64 + 1, MIN_SQRT_PRICE, LIQUIDITY, 2 * UNIT, 0, true) == Ok(Step(Q64, UNIT, UNIT, UNIT))
    ensures SwapStep(Q64 + 1, MIN_SQRT_PRICE, LIQUIDITY, 2 * UNIT + 1, 0, true)
         == Ok(Step(Q64 - 1, 2 * UNIT + 1, 2 * UNIT, 0))
  {
    hide Delta, Reach, NetOfFee, FeeOnTop;
    Costs();
    FarCost();
    Yields();
    Reaches();
  }

  lemma Fees()
    ensures FeeAt(CFG, -1000) == 100000 && Skips(CFG, -1000, LIQUIDITY)
    ensures FeeAt(CFG, -1) == 0 && !Skips(CFG, -1, LIQUIDITY)
  {
  }

  lemma Prices()
    ensures PriceAt(Engine.Clmm, 0) == Ok(Q64) && PriceAt(Engine.Clmm, MIN_TICK) == Ok(MIN_SQRT_PRICE)
    ensures Price(Engine.Clmm, -1) < Q64 < MaxSqrtPrice(Engine.Clmm) && Price(Engine.Clmm, MIN_TICK) <= Price(Engine.Clmm, -1)
    ensures TickAt(Engine.Clmm, Q64) == Ok(0) && TickAt(Engine.Clmm, Q64 - 1).Ok?
  {
    RatiosAtZero();
    assert Price(Engine.Clmm, 0) == Q64;
    hide Price;
    PriceBounds(Engine.Clmm);
    PriceIncreases(Engine.Clmm, -1, 0);
    PriceIncreases(Engine.Clmm, MIN_TICK, -1);
    TickAtInvertsPrice(Engine.Clmm, 0);
  }

  /** No tick is ahead of the stale one; the orders are ahead of tick 0. */
  lemma NextTicks(amount: int, s: State)
    requires s.tick == 0 && s.orders == [0x100_0000_0000]
    ensures Next(CFG, Start(amount)) == None && Next(CFG, s) == Some(0)
  {
  }

  function Net(amount: int): int {
    amount - GrossFee(amount, 100000)
  }

  lemma FirstMoves()
    ensures Bound(CFG, -1000, LIQUIDITY, MIN_SQRT_PRICE) == MIN_SQRT_PRICE
    ensures 0 <= Net(UNIT) <= UNIT && 0 <= Net(2 * UNIT) <= 2 * UNIT
    ensures Move(CFG, Start(2 * UNIT), MIN_SQRT_PRICE, 100000)
         == Ok(Start(2 * UNIT).(current := Q64, remaining := UNIT, output := Net(UNIT)))
    ensures Move(CFG, Start(2 * UNIT + 1), MIN_SQRT_PRICE, 100000)
         == Ok(Start(2 * UNIT + 1).(current := Q64 - 1, remaining := 0, output := Net(2 * UNIT)))
  {
    hide SwapStep, Skips, FeeAt;
    Fees();
    Steps();
  }

  /** The smaller input stops on tick 0 with half of it left, in the reference group. */
  lemma FirstPassOfLess()
    ensures Iterate(CFG, Start(2 * UNIT))
         == Ok(Pass(State(Q64, 0, LIQUIDITY, UNIT, Net(UNIT), [0x100_0000_0000], -1), false))
  {
    hide Price, PriceAt, TickAt, SwapStep, FeeAt, Skips, Next, Move, Bound, GrossFee, Net, MaxSqrtPrice;
    Prices();
    Fees();
    FirstMoves();
    NextTicks(2 * UNIT, State(Q64, 0, LIQUIDITY, UNIT, Net(UNIT), [0x100_0000_0000], -1));
  }

  /** The larger one moves past it and is used up. */
  lemma FirstPassOfMore() returns (s: State)
    ensures Iterate(CFG, Start(2 * UNIT + 1)) == Ok(Pass(s, false))
    ensures s.remaining == 0 && s.output == Net(2 * UNIT)
  {
    hide Price, PriceAt, TickAt, SwapStep, FeeAt, Skips, Next, Move, Bound, GrossFee, Net, MaxSqrtPrice, NextGroup;
    Prices();
    Fees();
    FirstMoves();
    NextTicks(2 * UNIT + 1, State(Q64, 0, LIQUIDITY, UNIT, Net(UNIT), [0x100_0000_0000], -1));
    s := Iterate(CFG, Start(2 * UNIT + 1)).value.state;
  }

  lemma Fills()
    ensures MatchOrders(0x100_0000_0000, UNIT, Q64, 0, false, true) == Ok(Fill(UNIT, UNIT, UNIT))
  {
  }

  /** The rest of the smaller input buys orders without a fee. */
  lemma SecondPassOfLess() returns (s: State)
    ensures Iterate(CFG, State(Q64, 0, LIQUIDITY, UNIT, Net(UNIT), [0x100_0000_0000], -1)) == Ok(Pass(s, false))
    ensures s.remaining == 0 && s.output == Net(UNIT) + UNIT
  {
    hide Price, PriceAt, TickAt, SwapStep, FeeAt, Skips, Next, MatchOrders, GrossFee, Net, MaxSqrtPrice, NextGroup, Bound;
    var at := State(Q64, 0, LIQUIDITY, UNIT, Net(UNIT), [0x100_0000_0000], -1);
    Prices();
    Fees();
    FirstMoves();
    Fills();
    NextTicks(0, at);
    assert Bound(CFG, -1, LIQUIDITY, Q64) == Q64 by {
      BoundAtZero();
    }
    s := Iterate(CFG, at).value.state;
  }

  lemma BoundAtZero()
    ensures Bound(CFG, -1, LIQUIDITY, Q64) == Q64
  {
    hide Price, Skips;
    Prices();
    Fees();
  }

  /** Two accepted swaps from one incoherent pool, the larger input with the smaller output. */
  lemma LargerInputReturnsLess()
    ensures !Coherent(Engine.Clmm, POOL.sqrtPrice, POOL.tickCurrent) && !FeeOnInput(2, true)
    ensures
      var less := Swap(POOL, TICKS, 2 * UNIT, MIN_SQRT_PRICE, 2, Some(DYNAMIC), 0, true);
      var more := Swap(POOL, TICKS, 2 * UNIT + 1, MIN_SQRT_PRICE, 2, Some(DYNAMIC), 0, true);
      less.Ok? && more.Ok? && more.value.amountOut < less.value.amountOut
  {
    assert Net(UNIT) + UNIT > Net(2 * UNIT);
    hide Prepare, Iterate, Price, Net;
    Starts(2 * UNIT);
    Starts(2 * UNIT + 1);
    FirstPassOfLess();
    var less := SecondPassOfLess();
    var more := FirstPassOfMore();
    OneMorePass(Start(2 * UNIT), State(Q64, 0, LIQUIDITY, UNIT, Net(UNIT), [0x100_0000_0000], -1), BUDGET);
    OneMorePass(State(Q64, 0, LIQUIDITY, UNIT, Net(UNIT), [0x100_0000_0000], -1), less, BUDGET - 1);
    OneMorePass(Start(2 * UNIT + 1), more, BUDGET);
    PriceIncreases(Engine.Clmm, -999, 0);
    Prices();
  }

  /** In this mode a larger input never returns less, whatever the pool, its ticks, the limit
      and the fee account. */
  ghost predicate NeverReturnsLess(feeOn: int, down: bool) {
    forall pool: Pool, ticks: seq<Tick>, less: int, more: int, limit: int, dynamic: Option<DynamicFee>, timestamp: int ::
      && less <= more
      && Swap(pool, ticks, less, limit, feeOn, dynamic, timestamp, down).Ok?
      && Swap(pool, ticks, more, limit, feeOn, dynamic, timestamp, down).Ok?
      ==> Swap(pool, ticks, less, limit, feeOn, dynamic, timestamp, down).value.amountOut
          <= Swap(pool, ticks, more, limit, feeOn, dynamic, timestamp, down).value.amountOut
  }

  /** That is every mode but downwards with the fee on the output. */
  lemma NeverReturnsLessExactly(feeOn: int, down: bool)
    requires 0 <= feeOn <= 2
    ensures NeverReturnsLess(feeOn, down) <==> FeeOnInput(feeOn, down) || !down
  {
    hide Swap, Coherent;
    if FeeOnInput(feeOn, down) || !down {
      forall pool: Pool, ticks: seq<Tick>, less: int, more: int, limit: int, dynamic: Option<DynamicFee>, timestamp: int
        | && less <= more
          && Swap(pool, ticks, less, limit, feeOn, dynamic, timestamp, down).Ok?
          && Swap(pool, ticks, more, limit, feeOn, dynamic, timestamp, down).Ok?
        ensures Swap(pool, ticks, less, limit, feeOn, dynamic, timestamp, down).value.amountOut
             <= Swap(pool, ticks, more, limit, feeOn, dynamic, timestamp, down).value.amountOut
      {
        SwapMonotone(pool, ticks, less, more, limit, feeOn, dynamic, timestamp, down);
      }
    } else {
      LargerInputReturnsLess();
    }
  }

  lemma OneMorePass(s: State, s': State, budget: nat)
    requires |s.orders| == |s'.orders| == 1 && 2 <= budget && !Finished(CFG, s) && Iterate(CFG, s) == Ok(Pass(s', false))
    ensures Run(CFG, s, budget) == Run(CFG, s', budget - 1)
    ensures Finished(CFG, s') ==> Run(CFG, s', budget - 1) == Ok(s')
  {
    hide Iterate;
  }
}
