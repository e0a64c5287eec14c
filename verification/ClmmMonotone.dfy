/** A larger CLMM input never buys less. With the fee on the input the two runs stay in
    lockstep until the smaller one runs out. With the fee on the output a missed target
    may leave input over, but then the run is stalled and never succeeds: always upwards,
    and downwards from a coherent pool. */
module ClmmMonotone {
  import opened Results
  import opened Rounding
  import opened TickPrice
  import opened LiquidityStep
  import opened TickBook
  import opened Clmm
  import opened ClmmPass
  import opened ClmmLedger
  import opened ClmmBook

  // ----- output only grows -----

  lemma PassGrowsOutput(cfg: Config, spot: int, amount: int, s: State)
    requires Ledger(cfg, spot, amount, s) && Iterate(cfg, s).Ok?
    ensures s.output <= Iterate(cfg, s).value.state.output
  {
    hide Iterate, Next, NextTick, Price, SwapStep, TickAt, FeeAt, Bound, Arrive, Move, NoBetter;
    var best, nextTick, nextPrice, bound, moved, landed := PassMeaning(cfg, s);
    var fee := FeeAt(cfg, s.group);
    BoundWithinTarget(cfg, s.group, s.liquidity, Toward(nextPrice, cfg.limit, cfg.down));
    MoveMeaning(cfg, s, bound, fee, spot, amount);
    MoveMonotone(cfg, s, s.remaining, bound, fee);
    if moved.current == nextPrice && best.Some? {
      ArriveGrowsOutput(cfg, moved, best.value, fee);
    }
  }

  lemma ArriveGrowsOutput(cfg: Config, s: State, i: nat, fee: FeeRate)
    requires i < |cfg.ticks| == |s.orders| && 0 <= s.orders[i] && 0 <= s.remaining && 0 < s.current
    requires Arrive(cfg, s, i, fee).Ok?
    ensures s.output <= Arrive(cfg, s, i, fee).value.output
  {
    hide MatchOrders;
    if s.orders[i] != 0 && s.remaining != 0 {
      FillMeaning(s.orders[i], s.remaining, s.current, fee, cfg.inputFee, cfg.down);
    }
  }

  lemma {:induction false} RunGrowsOutput(cfg: Config, spot: int, amount: int, s: State, budget: nat)
    requires Ledger(cfg, spot, amount, s) && Run(cfg, s, budget).Ok?
    ensures s.output <= Run(cfg, s, budget).value.output
    decreases budget
  {
    hide Iterate, NoBetter;
    if budget != 0 && !Finished(cfg, s) {
      PassGrowsOutput(cfg, spot, amount, s);
      PassKeepsLedger(cfg, spot, amount, s);
      var pass := Iterate(cfg, s).value;
      if !pass.stopped {
        RunGrowsOutput(cfg, spot, amount, pass.state, budget - 1);
      }
    }
  }

  // ----- one move and one fill, with less and with more -----

  lemma NetOfFeeMonotone(less: nat, more: nat, feeRate: FeeRate)
    requires less <= more
    ensures NetOfFee(less, feeRate) <= NetOfFee(more, feeRate)
  {
    NetOfFeeGe(less, feeRate, NetOfFee(less, feeRate));
    NetOfFeeGe(more, feeRate, NetOfFee(less, feeRate));
    MulMono(less, more, FEE_SCALE - feeRate);
    hide NetOfFee;
  }

  /** A move that reaches its bound is the same with more; one that misses it is used up
      when the fee is on the input, and ends where its input reaches otherwise. */
  lemma MoveMonotone(cfg: Config, s: State, more: int, bound: int, fee: FeeRate)
    requires 0 <= s.remaining <= more && 0 < s.current
    requires Move(cfg, s, bound, fee).Ok? && Move(cfg, s.(remaining := more), bound, fee).Ok?
    ensures
      var m, m' := Move(cfg, s, bound, fee).value, Move(cfg, s.(remaining := more), bound, fee).value;
      && s.output <= m.output <= m'.output && m'.orders == m.orders && 0 <= m'.remaining && 0 < m'.current
      && if m.current == bound then m.remaining <= m'.remaining && m' == m.(remaining := m'.remaining)
         else if cfg.inputFee then m.remaining == 0
         else
           && 0 < s.liquidity && m.current == Reach(s.current, s.liquidity, s.remaining, cfg.down)
           && m.remaining == s.remaining - Cost(s.current, m.current, s.liquidity, cfg.down)
  {
    hide SwapStep, Reach, Cost, Yield, GrossFee, NetOfFee, FeeOnTop;
    if s.current != bound {
      var rate := if cfg.inputFee then fee else 0;
      StepMonotone(s.current, bound, s.liquidity, s.remaining, more, rate, cfg.down);
      StepBudget(s.current, bound, s.liquidity, s.remaining, rate, cfg.down);
      StepBudget(s.current, bound, s.liquidity, more, rate, cfg.down);
      StepMeaning(s.current, bound, s.liquidity, s.remaining, rate, cfg.down);
      NetOfNoFee(s.remaining);
      var step := SwapStep(s.current, bound, s.liquidity, s.remaining, rate, cfg.down).value;
      var step' := SwapStep(s.current, bound, s.liquidity, more, rate, cfg.down).value;
      GrossFeeNet(step.amountOut, fee);
      GrossFeeNet(step'.amountOut, fee);
      NetOfFeeMonotone(step.amountOut, step'.amountOut, fee);
    }
  }

  lemma NetOfNoFee(amount: nat)
    ensures NetOfFee(amount, 0) == amount
  {
  }

  /** A fill with less either fills the orders for the same price as with more, or uses up
      its input for no more. */
  lemma FillMonotone(
      order: int, less: int, more: int, sqrtPrice: int, feeRate: FeeRate, inputFee: bool, down: bool)
    requires 0 < order && 0 < less <= more && 0 < sqrtPrice
    requires MatchOrders(order, less, sqrtPrice, feeRate, inputFee, down).Ok?
    requires MatchOrders(order, more, sqrtPrice, feeRate, inputFee, down).Ok?
    ensures
      var f := MatchOrders(order, less, sqrtPrice, feeRate, inputFee, down).value;
      var g := MatchOrders(order, more, sqrtPrice, feeRate, inputFee, down).value;
      && f.received <= g.received
      && (f.spent < less ==> g == f)
  {
    GrossFeeNet(less, feeRate);
    GrossFeeNet(more, feeRate);
    var a := if inputFee then NetOfFee(less, feeRate) else less;
    var b := if inputFee then NetOfFee(more, feeRate) else more;
    NetOfFeeMonotone(less, more, feeRate);
    FillSpends(order, less, sqrtPrice, feeRate, inputFee, down, a);
    FillSpends(order, more, sqrtPrice, feeRate, inputFee, down, b);
    var price: Pos := OrderPrice(sqrtPrice, down);
    BuysMonotone(a, b, price, down);
    var f := MatchOrders(order, less, sqrtPrice, feeRate, inputFee, down).value;
    var g := MatchOrders(order, more, sqrtPrice, feeRate, inputFee, down).value;
    FillMeaning(order, less, sqrtPrice, feeRate, inputFee, down);
    GrossFeeNet(f.filled, feeRate);
    GrossFeeNet(g.filled, feeRate);
    NetOfFeeMonotone(f.filled, g.filled, feeRate);
    hide MatchOrders, Buys, OrderCost, GrossFee, NetOfFee, FeeOnTop, OrderPrice;
  }

  lemma BuysMonotone(less: nat, more: nat, price: Pos, down: bool)
    requires less <= more
    ensures Buys(less, price, down) <= Buys(more, price, down)
  {
    MulMono(less, more, price);
    if down {
      FloorMono(less * price, more * price, Q64);
    } else {
      FloorMono(less * Q64, more * Q64, price);
    }
  }

  lemma ArriveMonotone(cfg: Config, s: State, more: int, i: nat, fee: FeeRate)
    requires i < |cfg.ticks| == |s.orders| && 0 <= s.orders[i] && 0 < s.remaining <= more && 0 < s.current
    requires Arrive(cfg, s, i, fee).Ok? && Arrive(cfg, s.(remaining := more), i, fee).Ok?
    ensures
      var a, b := Arrive(cfg, s, i, fee).value, Arrive(cfg, s.(remaining := more), i, fee).value;
      || (a.remaining <= b.remaining && b == a.(remaining := b.remaining))
      || (a.remaining == 0 && a.output <= b.output)
  {
    hide MatchOrders;
    if s.orders[i] != 0 {
      FillMonotone(s.orders[i], s.remaining, more, s.current, fee, cfg.inputFee, cfg.down);
      FillMeaning(s.orders[i], s.remaining, s.current, fee, cfg.inputFee, cfg.down);
    }
  }

  // ----- a stalled run -----

  /** Input is left over that cannot move the price, short of the next tick and the limit. */
  ghost predicate Stalled(cfg: Config, s: State)
    requires |cfg.ticks| == |s.orders|
  {
    && !cfg.inputFee && 0 < s.current && 0 < s.liquidity && 0 < s.remaining && s.current != cfg.limit
    && Reach(s.current, s.liquidity, s.remaining, cfg.down) == s.current
    && PriceAt(Engine.Clmm, NextTick(cfg, s)) != Ok(s.current)
  }

  lemma StalledMove(cfg: Config, s: State, bound: int, fee: FeeRate)
    requires |cfg.ticks| == |s.orders| && Stalled(cfg, s)
    requires Move(cfg, s, bound, fee).Ok?
    ensures Move(cfg, s, bound, fee).value == s
  {
    if s.current != bound {
      StepMeaning(s.current, bound, s.liquidity, s.remaining, 0, cfg.down);
      var step := SwapStep(s.current, bound, s.liquidity, s.remaining, 0, cfg.down).value;
      hide SwapStep;
      ReachIsFurthest(s.current, bound, s.liquidity, s.remaining, cfg.down);
      NoMoveNoCost(s.current, s.liquidity, cfg.down);
      assert NetOfFee(s.remaining, 0) == s.remaining;
      assert step.sqrtPrice == s.current;
      YieldNothing(s.current, s.liquidity, cfg.down);
      GrossFeeNet(0, fee);
      hide Cost, Yield, Reach, GrossFee;
    }
  }

  /** A pass leaves a stalled run where it is. */
  lemma StallPersists(cfg: Config, s: State)
    requires |cfg.ticks| == |s.orders| && Stalled(cfg, s) && Iterate(cfg, s).Ok?
    ensures !Iterate(cfg, s).value.stopped && Stalled(cfg, Iterate(cfg, s).value.state)
    ensures Iterate(cfg, s).value.state == s.(group := Iterate(cfg, s).value.state.group)
  {
    hide Iterate, Nearest, Price, TickAt, FeeAt, Bound, Arrive, Move, Reach;
    var best, nextTick, nextPrice, bound, moved, landed := PassMeaning(cfg, s);
    StalledMove(cfg, s, bound, FeeAt(cfg, s.group));
  }

  /** A stalled run uses up its budget of passes and is refused. */
  lemma {:induction false} StalledNeverSucceeds(cfg: Config, s: State, budget: nat)
    requires |cfg.ticks| == |s.orders| && Stalled(cfg, s)
    ensures Run(cfg, s, budget).Err?
    decreases budget
  {
    hide Iterate, Reach, PriceAt, NextTick;
    if budget > 0 && Iterate(cfg, s).Ok? {
      StallPersists(cfg, s);
      StalledNeverSucceeds(cfg, Iterate(cfg, s).value.state, budget - 1);
    }
  }

  /** Upwards, a price inside the interval of its tick has not reached any tick ahead. */
  lemma NextIsAbove(cfg: Config, s: State)
    requires |cfg.ticks| == |s.orders| && !cfg.down && TickAt(Engine.Clmm, s.current) == Ok(s.tick)
    ensures PriceAt(Engine.Clmm, NextTick(cfg, s)) != Ok(s.current)
  {
    hide Price, TickAt;
    var next := NextTick(cfg, s);
    hide Nearest, NextTick;
    PriceBounds(Engine.Clmm);
    if InRange(next) && s.tick < MAX_TICK {
      assert s.tick < next;
      PriceOrder(Engine.Clmm, s.tick + 1, next);
    }
  }

  /** From a tick further on, the next tick is no nearer. */
  lemma NextStaysAhead(cfg: Config, s: State, landed: State, nextPrice: nat)
    requires |cfg.ticks| == |s.orders| && NoDuplicates(cfg.ticks) && landed.orders == s.orders
    requires PriceAt(Engine.Clmm, NextTick(cfg, s)) == Ok(nextPrice)
    requires if cfg.down then landed.tick <= s.tick else s.tick <= landed.tick
    ensures PriceAt(Engine.Clmm, NextTick(cfg, landed)).Ok? ==>
      Within(nextPrice, PriceAt(Engine.Clmm, NextTick(cfg, landed)).value, cfg.down)
  {
    hide Nearest, Price, NoDuplicates;
    var before, after := NextTick(cfg, s), NextTick(cfg, landed);
    NextMeaning(cfg, s);
    NextMeaning(cfg, landed);
    if InRange(after) {
      var best := Next(cfg, landed);
      if best.Some? {
        assert Candidate(cfg, s.orders, s.tick, best.value);
      }
      PriceOrder(Engine.Clmm, after, before);
      PriceOrder(Engine.Clmm, before, after);
    }
  }

  /** A price part of the way to the next tick has a tick on the way. */
  lemma LandsAhead(cfg: Config, s: State, nextPrice: nat, price: int, tick: int)
    requires |cfg.ticks| == |s.orders| && NoDuplicates(cfg.ticks) && LimitInRange(cfg)
    requires Coherent(Engine.Clmm, s.current, s.tick)
    requires Within(s.current, cfg.limit, cfg.down) && s.current != cfg.limit
    requires PriceAt(Engine.Clmm, NextTick(cfg, s)) == Ok(nextPrice) && TickAt(Engine.Clmm, price) == Ok(tick)
    requires Within(s.current, price, cfg.down) && s.current != price
    requires Within(price, nextPrice, cfg.down) && price != nextPrice
    ensures if cfg.down then tick <= s.tick else s.tick <= tick
  {
    hide NextTick, Price, TickAt, Coherent, NoDuplicates, LimitInRange;
    RoomAhead(cfg, s);
    NextIsAhead(cfg, s);
    CoherentOnTheWay(Engine.Clmm, s.current, s.tick, price, tick, NextTick(cfg, s), cfg.down);
  }

  /** Missing the target with input left over stalls the run: upwards always, downwards from
      a coherent state. */
  lemma MissStalls(cfg: Config, s: State, nextPrice: nat, bound: int, moved: State, landed: State)
    requires |cfg.ticks| == |s.orders| && NoDuplicates(cfg.ticks) && LimitInRange(cfg)
    requires (cfg.down ==> Coherent(Engine.Clmm, s.current, s.tick)) && !cfg.inputFee && 0 < s.current
    requires Within(s.current, cfg.limit, cfg.down) && s.current != cfg.limit
    requires PriceAt(Engine.Clmm, NextTick(cfg, s)) == Ok(nextPrice)
    requires Within(bound, nextPrice, cfg.down) && Within(bound, cfg.limit, cfg.down)
    requires moved == s.(current := moved.current, remaining := moved.remaining, output := moved.output)
    requires Within(s.current, moved.current, cfg.down)
    requires Within(moved.current, bound, cfg.down) && moved.current != bound && 0 < moved.remaining
    requires 0 <= s.remaining && 0 < s.liquidity
    requires moved.current == Reach(s.current, s.liquidity, s.remaining, cfg.down)
    requires moved.remaining == s.remaining - Cost(s.current, moved.current, s.liquidity, cfg.down)
    requires if moved.current != s.current
             then TickAt(Engine.Clmm, moved.current).Ok?
               && landed == moved.(tick := TickAt(Engine.Clmm, moved.current).value)
             else landed == moved
    ensures Stalled(cfg, landed)
  {
    hide Reach, Cost, PriceAt, NextTick, TickAt, Coherent, NoDuplicates, LimitInRange;
    ReachIsFinal(s.current, s.liquidity, s.remaining, cfg.down);
    if cfg.down {
      if moved.current != s.current {
        LandsAhead(cfg, s, nextPrice, moved.current, landed.tick);
      }
      NextStaysAhead(cfg, s, landed, nextPrice);
    } else if moved.current != s.current {
      NextIsAbove(cfg, landed);
    } else {
      SameNext(cfg, s, landed);
    }
  }

  // ----- whole runs -----

  lemma SameNext(cfg: Config, s: State, t: State)
    requires |cfg.ticks| == |s.orders| && t.orders == s.orders && t.tick == s.tick
    ensures Next(cfg, t) == Next(cfg, s) && NextTick(cfg, t) == NextTick(cfg, s)
  {
    hide Nearest;
  }

  lemma StallIgnoresGroup(cfg: Config, s: State, group: int)
    requires |cfg.ticks| == |s.orders| && Stalled(cfg, s)
    ensures Stalled(cfg, s.(group := group))
  {
    hide Nearest, Reach;
  }

  lemma ArriveWithNothing(cfg: Config, s: State, i: nat, fee: FeeRate)
    requires i < |cfg.ticks| == |s.orders| && s.remaining == 0 && Arrive(cfg, s, i, fee).Ok?
    ensures Arrive(cfg, s, i, fee).value.output == s.output
  {
  }

  /** Two states that differ only in the input left, the first with no more of it. */
  predicate Lockstep(s: State, t: State) {
    s.remaining <= t.remaining && t == s.(remaining := t.remaining)
  }

  /** One pass with less and one with more: they do the same, or the smaller input is
      used up and has bought no more, or the smaller run is stalled. */
  lemma PassMonotone(cfg: Config, spot: int, amount: int, s: State, more: int)
    requires Ledger(cfg, spot, amount, s) && s.remaining <= more
    requires NoDuplicates(cfg.ticks) && LimitInRange(cfg) && !Finished(cfg, s)
    requires cfg.inputFee || !cfg.down || Coherent(Engine.Clmm, s.current, s.tick)
    requires Iterate(cfg, s).Ok? && Iterate(cfg, s.(remaining := more)).Ok?
    ensures
      var p, q := Iterate(cfg, s).value, Iterate(cfg, s.(remaining := more)).value;
      || (p.stopped == q.stopped && Lockstep(p.state, q.state))
      || (p.state.remaining == 0 && p.state.output <= q.state.output)
      || (!p.stopped && Stalled(cfg, p.state))
  {
    hide Iterate, PriceAt, TickAt, FeeAt, Bound, Arrive, Move, Reach, Cost, Coherent, NoDuplicates, NoBetter, Nearest,
      NextTick, Skips, NextGroup, LimitInRange;
    var t := s.(remaining := more);
    var best, nextTick, nextPrice, bound, moved, landed := PassMeaning(cfg, s);
    var best', nextTick', nextPrice', bound', moved', landed' := PassMeaning(cfg, t);
    SameNext(cfg, s, t);
    var fee := FeeAt(cfg, s.group);
    BoundWithinTarget(cfg, s.group, s.liquidity, Toward(nextPrice, cfg.limit, cfg.down));
    MoveMeaning(cfg, s, bound, fee, spot, amount);
    MoveMonotone(cfg, s, more, bound, fee);
    if moved'.current == nextPrice && best.Some? {
      ArriveGrowsOutput(cfg, moved', best.value, fee);
    }
    if moved.current != bound {
      if moved.remaining != 0 {
        MissStalls(cfg, s, nextPrice, bound, moved, landed);
        StallIgnoresGroup(cfg, landed, Iterate(cfg, s).value.state.group);
      }
    } else if moved.current == nextPrice && best.Some? {
      if moved.remaining != 0 {
        ArriveMonotone(cfg, moved, moved'.remaining, best.value, fee);
      } else {
        ArriveMeaning(cfg, moved, best.value, fee, spot, amount);
        ArriveWithNothing(cfg, moved, best.value, fee);
      }
    }
    hide Ledger;
  }

  lemma {:induction false} RunMonotone(
      cfg: Config, from: int, liquidity: int, spot: int, amount: int, amount': int, s: State, more: int, budget: nat)
    requires Ledger(cfg, spot, amount, s) && Ledger(cfg, spot, amount', s.(remaining := more)) && s.remaining <= more
    requires NoDuplicates(cfg.ticks) && LimitInRange(cfg) && (cfg.inputFee || !cfg.down || Book(cfg, from, liquidity, s))
    requires Run(cfg, s, budget).Ok? && Run(cfg, s.(remaining := more), budget).Ok?
    ensures Run(cfg, s, budget).value.output <= Run(cfg, s.(remaining := more), budget).value.output
    decreases budget
  {
    hide Iterate, NoBetter, Expected, Coherent, NoDuplicates, LimitInRange, Stalled;
    var t := s.(remaining := more);
    if budget == 0 || Finished(cfg, s) {
      RunGrowsOutput(cfg, spot, amount', t, budget);
    } else {
      PassMonotone(cfg, spot, amount, s, more);
      PassKeepsLedger(cfg, spot, amount, s);
      PassKeepsLedger(cfg, spot, amount', t);
      var p, q := Iterate(cfg, s).value, Iterate(cfg, t).value;
      if !p.stopped && Stalled(cfg, p.state) {
        StalledNeverSucceeds(cfg, p.state, budget - 1);
      } else if p.stopped == q.stopped && Lockstep(p.state, q.state) {
        if !p.stopped {
          if !cfg.inputFee && cfg.down {
            PassKeepsBook(cfg, from, liquidity, spot, amount, s);
          }
          RunMonotone(cfg, from, liquidity, spot, amount, amount', p.state, q.state.remaining, budget - 1);
        }
      } else if !q.stopped {
        RunGrowsOutput(cfg, spot, amount', q.state, budget - 1);
      }
    }
  }

  /** The input amount enters a swap only as the amount left to spend. */
  lemma PrepareIgnoresAmount(
      pool: Pool, ticks: seq<Tick>, less: int, more: int, limit: int, feeOn: int, dynamic: Option<DynamicFee>,
      timestamp: int, down: bool)
    requires Prepare(pool, ticks, less, limit, feeOn, dynamic, timestamp, down).Ok?
    requires Prepare(pool, ticks, more, limit, feeOn, dynamic, timestamp, down).Ok?
    ensures
      var (cfg, s) := Prepare(pool, ticks, less, limit, feeOn, dynamic, timestamp, down).value;
      && s.remaining == less >= 0
      && Prepare(pool, ticks, more, limit, feeOn, dynamic, timestamp, down).value == (cfg, s.(remaining := more))
  {
    hide SettleRule, NoDuplicates, ValidTick, ValidOrders, ValidLimit, InitialOrders;
  }

  /** For the same pool, ticks, fee state and limit, a larger input never returns less:
      always upwards or with the fee on the input, and downwards from a coherent pool with
      the fee on the output. */
  lemma SwapMonotone(
      pool: Pool, ticks: seq<Tick>, less: int, more: int, limit: int, feeOn: int, dynamic: Option<DynamicFee>,
      timestamp: int, down: bool)
    requires less <= more
    requires FeeOnInput(feeOn, down) || !down || Coherent(Engine.Clmm, pool.sqrtPrice, pool.tickCurrent)
    requires Swap(pool, ticks, less, limit, feeOn, dynamic, timestamp, down).Ok?
    requires Swap(pool, ticks, more, limit, feeOn, dynamic, timestamp, down).Ok?
    ensures Swap(pool, ticks, less, limit, feeOn, dynamic, timestamp, down).value.amountOut
         <= Swap(pool, ticks, more, limit, feeOn, dynamic, timestamp, down).value.amountOut
  {
    hide Prepare, Run, Ledger, Coherent, NoDuplicates;
    PrepareIgnoresAmount(pool, ticks, less, more, limit, feeOn, dynamic, timestamp, down);
    StartMeaning(pool, ticks, less, limit, feeOn, dynamic, timestamp, down);
    StartLedger(pool, ticks, less, limit, feeOn, dynamic, timestamp, down);
    StartLedger(pool, ticks, more, limit, feeOn, dynamic, timestamp, down);
    var (cfg, start) := Prepare(pool, ticks, less, limit, feeOn, dynamic, timestamp, down).value;
    if !cfg.inputFee && down {
      StartBook(cfg, start);
    }
    RunMonotone(cfg, pool.tickCurrent, pool.liquidity, pool.sqrtPrice, less, more, start, more, BUDGET);
  }
}
