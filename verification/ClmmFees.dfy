/** What a CLMM swap charges: the fee side of every move and fill to the unit, and over whole
    swaps a price that is never better than the starting one less the fee. */
module ClmmFees {
  import opened Results
  import opened Rounding
  import opened LiquidityStep
  import opened TickBook
  import opened Clmm
  import opened ClmmPass
  import opened ClmmLedger

  // ----- one move and one fill, to the unit -----

  /** `received` is what a fee on the output leaves of `gross`: the greatest amount that is at
      most its share. */
  predicate LeftOfOutput(received: int, gross: int, fee: FeeRate) {
    received * FEE_SCALE <= gross * (FEE_SCALE - fee) < (received + 1) * FEE_SCALE
  }

  /** `spent` is an input part together with the fee on it: the least amount that covers both. */
  predicate GrossOfInput(spent: int, part: int, fee: FeeRate) {
    (spent - 1) * (FEE_SCALE - fee) < part * FEE_SCALE <= spent * (FEE_SCALE - fee)
  }

  lemma NetIsLeft(gross: nat, fee: FeeRate)
    ensures LeftOfOutput(gross - GrossFee(gross, fee), gross, fee)
  {
    GrossFeeNet(gross, fee);
    NetOfFeeGe(gross, fee, NetOfFee(gross, fee));
    NetOfFeeGe(gross, fee, NetOfFee(gross, fee) + 1);
    hide NetOfFee, GrossFee;
  }

  lemma FeeOnTopIsGross(part: nat, fee: FeeRate)
    ensures GrossOfInput(part + FeeOnTop(part, fee), part, fee)
  {
    FeeOnTopLe(part, fee, FeeOnTop(part, fee));
    FeeOnTopLe(part, fee, FeeOnTop(part, fee) - 1);
    var onTop := FeeOnTop(part, fee);
    hide FeeOnTop;
    assert (part + onTop) * (FEE_SCALE - fee) == part * FEE_SCALE - part * fee + onTop * (FEE_SCALE - fee);
    assert (part + onTop - 1) * (FEE_SCALE - fee) == part * FEE_SCALE - part * fee + (onTop - 1) * (FEE_SCALE - fee);
  }

  /** A move goes as far as the input it may use reaches. With the fee on the input it adds the
      whole yield and spends the cost with its fee, or everything short of its bound; with the
      fee on the output it spends the cost and adds what the fee leaves of the yield. */
  lemma MoveAccounts(cfg: Config, s: State, bound: int, fee: FeeRate)
    requires 0 <= s.remaining && Move(cfg, s, bound, fee).Ok? && s.current != bound
    ensures 0 <= s.liquidity && StepArguments(s.current, bound, cfg.down)
    ensures
      var m := Move(cfg, s, bound, fee).value;
      var net := if cfg.inputFee then NetOfFee(s.remaining, fee) else s.remaining;
      && m == s.(current := m.current, remaining := m.remaining, output := m.output)
      && 0 < m.current == EndPrice(s.current, bound, s.liquidity, net, cfg.down)
      && var cost, gross := Cost(s.current, m.current, s.liquidity, cfg.down), Yield(s.current, m.current, s.liquidity, cfg.down);
      if cfg.inputFee then
        && m.output == s.output + gross
        && if m.current == bound then GrossOfInput(s.remaining - m.remaining, cost, fee) else m.remaining == 0
      else
        && LeftOfOutput(m.output - s.output, gross, fee)
        && s.remaining - m.remaining == cost
  {
    hide SwapStep, EndPrice, Cost, Yield, NetOfFee, FeeOnTop, GrossFee, GrossOfInput, LeftOfOutput;
    var rate := if cfg.inputFee then fee else 0;
    var step := SwapStep(s.current, bound, s.liquidity, s.remaining, rate, cfg.down).value;
    StepMeaning(s.current, bound, s.liquidity, s.remaining, rate, cfg.down);
    NetIsLeft(step.amountOut, fee);
    FeeOnTopIsGross(step.amountIn, fee);
    assert NetOfFee(s.remaining, 0) == s.remaining by {
      NetOfFeeGe(s.remaining, 0, s.remaining);
    }
  }

  /** Arriving at a tick fills its orders if there are any and input is left. The filled part
      is the greatest the input without its fee pays for, and what is spent and received are
      that part's cost and worth on the fee's side. */
  lemma ArriveAccounts(cfg: Config, s: State, i: nat, fee: FeeRate)
    requires i < |cfg.ticks| == |s.orders| && 0 <= s.orders[i] && 0 <= s.remaining && Arrive(cfg, s, i, fee).Ok?
    ensures
      var a := Arrive(cfg, s, i, fee).value;
      && a == s.(remaining := a.remaining, output := a.output, orders := s.orders[i := a.orders[i]],
                 liquidity := a.liquidity, tick := a.tick)
      && if s.orders[i] == 0 || s.remaining == 0 then a.remaining == s.remaining && a.output == s.output && a.orders == s.orders
         else
           var price, filled := OrderPrice(s.current, cfg.down), s.orders[i] - a.orders[i];
           var net := if cfg.inputFee then NetOfFee(s.remaining, fee) else s.remaining;
           && 0 < price
           && (forall part: int :: part <= s.orders[i] ==> (part <= filled <==> Pays(net, part, price, cfg.down)))
           && (if cfg.inputFee then a.output == s.output + filled else LeftOfOutput(a.output - s.output, filled, fee))
           && (a.remaining != 0 ==>
                 && filled == s.orders[i]
                 && var cost := OrderCost(filled, price, cfg.down);
                 if cfg.inputFee then GrossOfInput(s.remaining - a.remaining, cost, fee)
                 else a.remaining == s.remaining - cost)
  {
    if s.orders[i] != 0 && s.remaining != 0 {
      FillAccounts(s.orders[i], s.remaining, s.current, fee, cfg.inputFee, cfg.down);
    }
    hide MatchOrders, Pays, LeftOfOutput, GrossOfInput, OrderPrice, OrderCost, NetOfFee;
  }

  lemma FillAccounts(order: int, remaining: int, sqrtPrice: int, fee: FeeRate, inputFee: bool, down: bool)
    requires 0 < order && 0 < remaining && MatchOrders(order, remaining, sqrtPrice, fee, inputFee, down).Ok?
    ensures
      var f := MatchOrders(order, remaining, sqrtPrice, fee, inputFee, down).value;
      var price, net := OrderPrice(sqrtPrice, down), if inputFee then NetOfFee(remaining, fee) else remaining;
      && 0 < price
      && (forall part: int :: part <= order ==> (part <= f.filled <==> Pays(net, part, price, down)))
      && (if inputFee then f.received == f.filled else LeftOfOutput(f.received, f.filled, fee))
      && (f.spent != remaining ==>
            && f.filled == order
            && if inputFee then GrossOfInput(f.spent, OrderCost(order, price, down), fee)
               else f.spent == OrderCost(order, price, down))
  {
    hide MatchOrders, Buys, OrderPrice, OrderCost, GrossFee, NetOfFee, FeeOnTop, Pays, LeftOfOutput, GrossOfInput;
    GrossFeeNet(remaining, fee);
    var net := if inputFee then NetOfFee(remaining, fee) else remaining;
    FillSpends(order, remaining, sqrtPrice, fee, inputFee, down, net);
    var f := MatchOrders(order, remaining, sqrtPrice, fee, inputFee, down).value;
    FillParts(order, net, OrderPrice(sqrtPrice, down), down);
    NetIsLeft(f.filled, fee);
    if f.spent != remaining {
      FeeOnTopIsGross(OrderCost(order, OrderPrice(sqrtPrice, down), down), fee);
    }
    forall part: int | part <= order
      ensures part <= f.filled <==> Pays(net, part, OrderPrice(sqrtPrice, down), down)
    {
      FillIsGreedy(order, remaining, sqrtPrice, fee, inputFee, down, part);
    }
  }

  // ----- prices, fee included -----

  /** An exchange is no better for the trader than the square-root price `spot` less a fee of
      `rate` millionths. */
  predicate NoBetterAfterFee(input: int, output: int, spot: int, down: bool, rate: FeeRate) {
    if down then output * (Q64 * Q64) * FEE_SCALE <= input * (spot * spot) * (FEE_SCALE - rate)
    else output * (spot * spot) * FEE_SCALE <= input * (Q64 * Q64) * (FEE_SCALE - rate)
  }

  lemma AfterFeeAdds(input: int, output: int, input': int, output': int, spot: int, down: bool, rate: FeeRate)
    requires NoBetterAfterFee(input, output, spot, down, rate) && NoBetterAfterFee(input', output', spot, down, rate)
    ensures NoBetterAfterFee(input + input', output + output', spot, down, rate)
  {
    var give, take := if down then Q64 * Q64 else spot * spot, if down then spot * spot else Q64 * Q64;
    assert (output + output') * give * FEE_SCALE == output * give * FEE_SCALE + output' * give * FEE_SCALE;
    assert (input + input') * take * (FEE_SCALE - rate)
        == input * take * (FEE_SCALE - rate) + input' * take * (FEE_SCALE - rate);
  }

  /** Fee on the input: `part` is traded of the `spent`. */
  lemma AfterInputFee(part: int, spent: int, output: int, spot: int, down: bool, rate: FeeRate)
    requires NoBetter(part, output, spot, down) && part * FEE_SCALE <= spent * (FEE_SCALE - rate)
    ensures NoBetterAfterFee(spent, output, spot, down, rate)
  {
    var give, take := if down then Q64 * Q64 else spot * spot, if down then spot * spot else Q64 * Q64;
    SquareIsNat(spot);
    MulMono(output * give, part * take, FEE_SCALE);
    MulMono(part * FEE_SCALE, spent * (FEE_SCALE - rate), take);
    assert part * take * FEE_SCALE == part * FEE_SCALE * take;
    assert spent * (FEE_SCALE - rate) * take == spent * take * (FEE_SCALE - rate);
  }

  lemma SquareIsNat(n: int)
    ensures 0 <= n * n
  {
  }

  /** Fee on the output: `received` is left of `gross`. */
  lemma AfterOutputFee(spent: int, gross: int, received: int, spot: int, down: bool, rate: FeeRate)
    requires NoBetter(spent, gross, spot, down) && received * FEE_SCALE <= gross * (FEE_SCALE - rate)
    ensures NoBetterAfterFee(spent, received, spot, down, rate)
  {
    var give, take := if down then Q64 * Q64 else spot * spot, if down then spot * spot else Q64 * Q64;
    SquareIsNat(spot);
    MulMono(received * FEE_SCALE, gross * (FEE_SCALE - rate), give);
    MulMono(gross * give, spent * take, FEE_SCALE - rate);
    assert received * give * FEE_SCALE == received * FEE_SCALE * give;
    assert gross * (FEE_SCALE - rate) * give == gross * give * (FEE_SCALE - rate);
  }

  /** A fee at least the rate leaves at most the rate's share. */
  lemma AtLeastRate(part: int, whole: int, fee: FeeRate, rate: FeeRate)
    requires part * FEE_SCALE <= whole * (FEE_SCALE - fee) && 0 <= whole && rate <= fee
    ensures part * FEE_SCALE <= whole * (FEE_SCALE - rate)
  {
    MulMono(FEE_SCALE - fee, FEE_SCALE - rate, whole);
  }

  lemma MovePaysFee(cfg: Config, s: State, bound: int, fee: FeeRate, spot: int, rate: FeeRate)
    requires 0 <= s.remaining && 0 < spot && Within(spot, s.current, cfg.down) && rate <= fee
    requires Move(cfg, s, bound, fee).Ok?
    ensures
      var m := Move(cfg, s, bound, fee).value;
      NoBetterAfterFee(s.remaining - m.remaining, m.output - s.output, spot, cfg.down, rate)
  {
    hide SwapStep, NoBetter, NoBetterAfterFee, GrossFee, NetOfFee, FeeOnTop, Cost, Yield, EndPrice;
    if s.current == bound {
      assert NoBetterAfterFee(0, 0, spot, cfg.down, rate) by {
        NothingIsFair(spot, cfg.down, rate);
      }
    } else {
      var charged := if cfg.inputFee then fee else 0;
      StepNoBetter(s.current, bound, s.liquidity, s.remaining, charged, cfg.down, spot);
      StepBudget(s.current, bound, s.liquidity, s.remaining, charged, cfg.down);
      var step := SwapStep(s.current, bound, s.liquidity, s.remaining, charged, cfg.down).value;
      if cfg.inputFee {
        var spent := step.amountIn + step.fee;
        assert spent * (FEE_SCALE - fee) == spent * FEE_SCALE - fee * spent;
        AtLeastRate(step.amountIn, spent, fee, rate);
        AfterInputFee(step.amountIn, spent, step.amountOut, spot, cfg.down, rate);
      } else {
        NetIsLeft(step.amountOut, fee);
        AtLeastRate(step.amountOut - GrossFee(step.amountOut, fee), step.amountOut, fee, rate);
        AfterOutputFee(step.amountIn, step.amountOut, step.amountOut - GrossFee(step.amountOut, fee), spot, cfg.down, rate);
      }
    }
  }

  lemma NothingIsFair(spot: int, down: bool, rate: FeeRate)
    ensures NoBetterAfterFee(0, 0, spot, down, rate)
  {
  }

  lemma FillPaysFee(order: int, remaining: int, sqrtPrice: int, fee: FeeRate, inputFee: bool, down: bool, rate: FeeRate)
    requires 0 < order && 0 < remaining && 0 < sqrtPrice && rate <= fee
    requires MatchOrders(order, remaining, sqrtPrice, fee, inputFee, down).Ok?
    ensures
      var f := MatchOrders(order, remaining, sqrtPrice, fee, inputFee, down).value;
      NoBetterAfterFee(f.spent, f.received, sqrtPrice, down, rate)
  {
    hide MatchOrders, Buys, OrderPrice, OrderCost, GrossFee, NetOfFee, FeeOnTop, Pays, NoBetter, NoBetterAfterFee;
    GrossFeeNet(remaining, fee);
    FillMeaning(order, remaining, sqrtPrice, fee, inputFee, down);
    var f := MatchOrders(order, remaining, sqrtPrice, fee, inputFee, down).value;
    var net := if inputFee then NetOfFee(remaining, fee) else remaining;
    FillSpends(order, remaining, sqrtPrice, fee, inputFee, down, net);
    var price: Pos := OrderPrice(sqrtPrice, down);
    FillParts(order, net, price, down);
    var part := if Buys(net, price, down) > order then OrderCost(order, price, down) else net;
    PaysNoBetter(part, f.filled, sqrtPrice, down);
    if inputFee {
      if Buys(net, price, down) > order {
        FeeOnTopIsGross(part, fee);
      } else {
        NetOfFeeGe(remaining, fee, net);
      }
      AtLeastRate(part, f.spent, fee, rate);
      AfterInputFee(part, f.spent, f.received, sqrtPrice, down, rate);
    } else {
      NetIsLeft(f.filled, fee);
      AtLeastRate(f.received, f.filled, fee, rate);
      AfterOutputFee(f.spent, f.filled, f.received, sqrtPrice, down, rate);
    }
  }

  /** A price further on is worse still. */
  lemma AfterFeeThanSpot(input: int, output: int, price: int, spot: int, down: bool, rate: FeeRate)
    requires 0 <= input && 0 <= output && 0 < spot && 0 < price && Within(spot, price, down)
    requires NoBetterAfterFee(input, output, price, down, rate)
    ensures NoBetterAfterFee(input, output, spot, down, rate)
  {
    if down {
      Squares(price, spot, spot);
      MulMono(price * price, spot * spot, input);
      MulMono(input * (price * price), input * (spot * spot), FEE_SCALE - rate);
    } else {
      Squares(spot, price, price);
      MulMono(spot * spot, price * price, output);
      MulMono(output * (spot * spot), output * (price * price), FEE_SCALE);
    }
  }

  lemma ArrivePaysFee(cfg: Config, s: State, i: nat, fee: FeeRate, spot: int, rate: FeeRate)
    requires i < |cfg.ticks| == |s.orders| && 0 <= s.orders[i] && 0 <= s.remaining && 0 < s.current
    requires 0 < spot && Within(spot, s.current, cfg.down) && rate <= fee && Arrive(cfg, s, i, fee).Ok?
    ensures
      var a := Arrive(cfg, s, i, fee).value;
      NoBetterAfterFee(s.remaining - a.remaining, a.output - s.output, spot, cfg.down, rate)
  {
    hide MatchOrders, NoBetterAfterFee, NoBetter;
    NothingIsFair(spot, cfg.down, rate);
    if s.orders[i] != 0 && s.remaining != 0 {
      FillPaysFee(s.orders[i], s.remaining, s.current, fee, cfg.inputFee, cfg.down, rate);
      FillMeaning(s.orders[i], s.remaining, s.current, fee, cfg.inputFee, cfg.down);
      var f := MatchOrders(s.orders[i], s.remaining, s.current, fee, cfg.inputFee, cfg.down).value;
      AfterFeeThanSpot(f.spent, f.received, s.current, spot, cfg.down, rate);
    }
  }

  // ----- whole swaps -----

  /** One pass pays its own group's fee on whatever it trades. */
  lemma PassPaysFee(cfg: Config, spot: int, amount: int, s: State, rate: FeeRate)
    requires Ledger(cfg, spot, amount, s) && Iterate(cfg, s).Ok? && rate <= FeeAt(cfg, s.group)
    ensures
      var s' := Iterate(cfg, s).value.state;
      NoBetterAfterFee(s.remaining - s'.remaining, s'.output - s.output, spot, cfg.down, rate)
  {
    hide Iterate, Next, NextTick, SwapStep, FeeAt, Bound, Arrive, Move, NoBetter, NoBetterAfterFee;
    var best, nextTick, nextPrice, bound, moved, landed := PassMeaning(cfg, s);
    BoundWithinTarget(cfg, s.group, s.liquidity, Toward(nextPrice, cfg.limit, cfg.down));
    MoveMeaning(cfg, s, bound, FeeAt(cfg, s.group), spot, amount);
    MovePaysFee(cfg, s, bound, FeeAt(cfg, s.group), spot, rate);
    if moved.current == nextPrice && best.Some? {
      ArrivePaysFee(cfg, moved, best.value, FeeAt(cfg, s.group), spot, rate);
      AfterFeeAdds(s.remaining - moved.remaining, moved.output - s.output,
                   moved.remaining - landed.remaining, landed.output - moved.output, spot, cfg.down, rate);
    }
  }

  /** Every pass of the run is charged at least `rate`. */
  ghost predicate ChargesAtLeast(cfg: Config, start: State, rate: FeeRate)
    requires |cfg.ticks| == |start.orders|
  {
    forall k: nat :: Visited(cfg, start, k).Ok? ==> rate <= FeeAt(cfg, Visited(cfg, start, k).value.group)
  }

  lemma {:induction false} VisitedPaysFee(cfg: Config, spot: int, amount: int, start: State, k: nat, rate: FeeRate)
    requires Ledger(cfg, spot, amount, start) && ChargesAtLeast(cfg, start, rate) && Visited(cfg, start, k).Ok?
    ensures
      var s := Visited(cfg, start, k).value;
      NoBetterAfterFee(start.remaining - s.remaining, s.output - start.output, spot, cfg.down, rate)
  {
    hide Iterate, NoBetter, NoBetterAfterFee, FeeAt;
    NothingIsFair(spot, cfg.down, rate);
    if k > 0 {
      VisitedPaysFee(cfg, spot, amount, start, k - 1, rate);
      VisitedKeepsLedger(cfg, spot, amount, start, k - 1);
      var s := Visited(cfg, start, k - 1).value;
      PassPaysFee(cfg, spot, amount, s, rate);
      var s' := Visited(cfg, start, k).value;
      AfterFeeAdds(start.remaining - s.remaining, s.output - start.output,
                   s.remaining - s'.remaining, s'.output - s.output, spot, cfg.down, rate);
    }
  }

  lemma EndPaysFee(cfg: Config, spot: int, amount: int, start: State, j: nat, end: State, rate: FeeRate)
    requires Ledger(cfg, spot, amount, start) && ChargesAtLeast(cfg, start, rate)
    requires Visited(cfg, start, j).Ok? && EndsAt(cfg, Visited(cfg, start, j).value, end)
    ensures NoBetterAfterFee(start.remaining - end.remaining, end.output - start.output, spot, cfg.down, rate)
  {
    hide Iterate, NoBetter, NoBetterAfterFee, FeeAt, Visited;
    VisitedPaysFee(cfg, spot, amount, start, j, rate);
    VisitedKeepsLedger(cfg, spot, amount, start, j);
    var s := Visited(cfg, start, j).value;
    if s != end {
      PassPaysFee(cfg, spot, amount, s, rate);
      AfterFeeAdds(start.remaining - s.remaining, s.output - start.output,
                   s.remaining - end.remaining, end.output - s.output, spot, cfg.down, rate);
    }
  }

  /** The run is over here, or in a pass from here that stops at the end of the tick range. */
  ghost predicate OverAt(cfg: Config, s: State, mayPass: bool)
    requires |cfg.ticks| == |s.orders|
  {
    Finished(cfg, s) || (mayPass && Iterate(cfg, s).Ok? && Iterate(cfg, s).value.stopped && Finished(cfg, Iterate(cfg, s).value.state))
  }

  lemma {:induction false} RunSucceeds(cfg: Config, start: State, k: nat, budget: nat)
    requires |cfg.ticks| == |start.orders| && Visited(cfg, start, k).Ok?
    ensures Run(cfg, Visited(cfg, start, k).value, budget).Ok? <==>
      exists j: nat :: k <= j <= k + budget && Visited(cfg, start, j).Ok?
                       && OverAt(cfg, Visited(cfg, start, j).value, j < k + budget)
    decreases budget
  {
    hide Iterate, Finished;
    var s := Visited(cfg, start, k).value;
    if budget > 0 && !Finished(cfg, s) {
      var next := Visited(cfg, start, k + 1);
      if next.Ok? {
        RunSucceeds(cfg, start, k + 1, budget - 1);
      } else {
        forall j: nat | k < j && Visited(cfg, start, j).Ok?
          ensures false
        {
          NoneAfter(cfg, start, k + 1, j);
        }
      }
    }
  }

  lemma {:induction false} NoneAfter(cfg: Config, start: State, k: nat, j: nat)
    requires |cfg.ticks| == |start.orders| && Visited(cfg, start, k).Err? && k <= j
    ensures Visited(cfg, start, j).Err?
  {
    hide Iterate;
    if k < j {
      NoneAfter(cfg, start, k, j - 1);
    }
  }

  /** A swap succeeds exactly when it is set up and over after at most 8192 passes. */
  lemma SwapSucceeds(
      pool: Pool, ticks: seq<Tick>, amount: int, limit: int, feeOn: int, dynamic: Option<DynamicFee>,
      timestamp: int, down: bool)
    ensures
      var prepared := Prepare(pool, ticks, amount, limit, feeOn, dynamic, timestamp, down);
      Swap(pool, ticks, amount, limit, feeOn, dynamic, timestamp, down).Ok? <==>
        && prepared.Ok?
        && var (cfg, start) := prepared.value;
        exists k: nat :: k <= 8192 && Visited(cfg, start, k).Ok? && OverAt(cfg, Visited(cfg, start, k).value, k < 8192)
  {
    hide Prepare, Iterate, Run, Visited, OverAt;
    var prepared := Prepare(pool, ticks, amount, limit, feeOn, dynamic, timestamp, down);
    if prepared.Ok? {
      var (cfg, start) := prepared.value;
      VisitedStart(cfg, start);
      RunSucceeds(cfg, start, 0, BUDGET);
    }
  }

  /** What a swap reports is the state its run ended in, and it beats no price above the
      starting one less the lowest fee rate its passes were charged, on either fee side and
      with orders. */
  lemma SwapPaysFee(
      pool: Pool, ticks: seq<Tick>, amount: int, limit: int, feeOn: int, dynamic: Option<DynamicFee>,
      timestamp: int, down: bool, rate: FeeRate) returns (j: nat, end: State)
    requires Swap(pool, ticks, amount, limit, feeOn, dynamic, timestamp, down).Ok?
    requires
      var (cfg, start) := Prepare(pool, ticks, amount, limit, feeOn, dynamic, timestamp, down).value;
      ChargesAtLeast(cfg, start, rate)
    ensures
      var (cfg, start) := Prepare(pool, ticks, amount, limit, feeOn, dynamic, timestamp, down).value;
      var r := Swap(pool, ticks, amount, limit, feeOn, dynamic, timestamp, down).value;
      && Visited(cfg, start, j).Ok? && EndsAt(cfg, Visited(cfg, start, j).value, end) && Finished(cfg, end)
      && r.consumed + end.remaining == amount && r.amountOut == end.output
      && r.sqrtPrice == end.current && r.tickCurrent == end.tick && r.liquidity == end.liquidity
      && NoBetterAfterFee(r.consumed, r.amountOut, pool.sqrtPrice, down, rate)
  {
    hide Prepare, Iterate, NoBetter, NoBetterAfterFee, Run, Visited, EndsAt, ChargesAtLeast;
    StartMeaning(pool, ticks, amount, limit, feeOn, dynamic, timestamp, down);
    StartLedger(pool, ticks, amount, limit, feeOn, dynamic, timestamp, down);
    var (cfg, start) := Prepare(pool, ticks, amount, limit, feeOn, dynamic, timestamp, down).value;
    VisitedStart(cfg, start);
    j := RunVisits(cfg, start, 0, start, BUDGET);
    end := Run(cfg, start, BUDGET).value;
    EndPaysFee(cfg, pool.sqrtPrice, amount, start, j, end, rate);
  }
}
