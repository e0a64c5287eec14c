/** Conservation over whole Whirlpool runs: what is spent, what is charged, and
    that no run beats the price it starts from. */
module WhirlpoolLedger {
  import opened Results
  import opened Rounding
  import opened Sorting
  import opened LiquidityStep
  import opened TickBook
  import opened Whirlpool
  import opened WhirlpoolPass

  /** `spent` has paid at least `rate` parts per million of itself in fees. */
  ghost predicate Charged(spent: int, fees: int, rate: int) {
    fees * FEE_SCALE >= rate * spent
  }

  /** What holds of the running totals at every loop head. */
  ghost predicate Ledger(cfg: Config, spot: int, amount: int, s: State) {
    && 0 < spot && 0 < s.current && Within(spot, s.current, cfg.down) && Within(s.current, cfg.limit, cfg.down)
    && 0 <= s.remaining <= amount && 0 <= s.output && 0 <= s.fees <= amount - s.remaining
    && (s.first ==> s.remaining == amount && s.fees == 0)
    && Charged(amount - s.remaining, s.fees, s.minimumFee)
    && NoBetter(amount - s.remaining, s.output, spot, cfg.down)
  }

  lemma ChargedAdds(spent: int, fees: int, rate: int, more: int, fee: int, rate': int)
    requires 0 <= spent && 0 <= more && Charged(spent, fees, rate) && Charged(more, fee, rate')
    ensures Charged(spent + more, fees + fee, Min(rate, rate'))
  {
    MulMono(Min(rate, rate'), rate, spent);
    MulMono(Min(rate, rate'), rate', more);
  }

  /** One step, as the ledger sees it. */
  lemma StepPays(
      current: int, target: int, liquidity: int, remaining: int, feeRate: int, down: bool, spot: int)
    requires SwapStep(current, target, liquidity, remaining, feeRate, down).Ok?
    requires 0 < spot && Within(spot, current, down)
    ensures
      var s := SwapStep(current, target, liquidity, remaining, feeRate, down).value;
      && 0 < s.sqrtPrice && Within(current, s.sqrtPrice, down) && Within(s.sqrtPrice, target, down)
      && 0 <= s.amountIn && 0 <= s.amountOut && 0 <= s.fee && s.amountIn + s.fee <= remaining
      && Charged(s.amountIn + s.fee, s.fee, feeRate)
      && NoBetter(s.amountIn + s.fee, s.amountOut, spot, down)
  {
    StepBudget(current, target, liquidity, remaining, feeRate, down);
    StepNoBetter(current, target, liquidity, remaining, feeRate, down, spot);
    var s := SwapStep(current, target, liquidity, remaining, feeRate, down).value;
    hide SwapStep;
    NoBetterWeakens(s.amountIn, s.amountOut, s.amountIn + s.fee, s.amountOut, spot, down);
    hide NoBetter;
  }

  /** Every pass keeps the ledger. */
  lemma PassKeepsLedger(cfg: Config, spot: int, amount: int, s: State)
    requires Ledger(cfg, spot, amount, s) && Iterate(cfg, s).Ok?
    ensures Ledger(cfg, spot, amount, Iterate(cfg, s).value)
  {
    hide Iterate, SwapStep, ChargeFor, FeeAt, NextTick, NextIndex, PriceAt, Cross, NextGroup, Loaded, Charged, NoBetter;
    var next, index, nextPrice, charge, step := PassMeaning(cfg, s);
    ChargeMeaning(cfg, s.group, s.liquidity, Toward(nextPrice, cfg.limit, cfg.down));
    StepPays(s.current, charge.bound, s.liquidity, s.remaining, charge.fee, cfg.down, spot);
    var spent, more := amount - s.remaining, step.amountIn + step.fee;
    if !s.first {
      ChargedAdds(spent, s.fees, s.minimumFee, more, step.fee, charge.fee);
    }
    NoBetterAdds(spent, s.output, more, step.amountOut, spot, cfg.down);
  }

  lemma {:induction false} VisitedKeepsLedger(cfg: Config, spot: int, amount: int, start: State, k: nat)
    requires Ledger(cfg, spot, amount, start) && Visited(cfg, start, k).Ok?
    ensures Ledger(cfg, spot, amount, Visited(cfg, start, k).value)
  {
    hide Ledger, Iterate;
    if k > 0 {
      VisitedKeepsLedger(cfg, spot, amount, start, k - 1);
      PassKeepsLedger(cfg, spot, amount, Visited(cfg, start, k - 1).value);
    }
  }

  /** The state a swap starts from. */
  lemma StartMeaning(
      pool: Pool, ticks: seq<Tick>, arrayStarts: seq<int>, amount: int, timestamp: int, down: bool,
      adaptive: Option<AdaptiveFee>, limit: int)
    requires Prepare(pool, ticks, arrayStarts, amount, timestamp, down, adaptive, limit).Ok?
    ensures
      var (cfg, s) := Prepare(pool, ticks, arrayStarts, amount, timestamp, down, adaptive, limit).value;
      && ValidPool(pool, amount, timestamp)
      && s.current == pool.sqrtPrice && s.tick == pool.tickCurrent && s.liquidity == pool.liquidity
      && s.remaining == amount && s.output == 0 && s.fees == 0 && s.first
      && cfg.down == down && cfg.feeRate == pool.feeRate && cfg.ticks == Ordered(ticks) && Increasing(cfg.ticks)
      && cfg.limit == EffectiveLimit(limit, down) && ValidLimit(pool, cfg.limit, down)
  {
    hide Sort, ValidArrays, Ordered, SettleRule, Increasing, ValidTick, Min, Max, EffectiveLimit;
  }

  lemma StartLedger(
      pool: Pool, ticks: seq<Tick>, arrayStarts: seq<int>, amount: int, timestamp: int, down: bool,
      adaptive: Option<AdaptiveFee>, limit: int)
    requires Prepare(pool, ticks, arrayStarts, amount, timestamp, down, adaptive, limit).Ok?
    ensures
      var (cfg, s) := Prepare(pool, ticks, arrayStarts, amount, timestamp, down, adaptive, limit).value;
      Ledger(cfg, pool.sqrtPrice, amount, s)
  {
    StartMeaning(pool, ticks, arrayStarts, amount, timestamp, down, adaptive, limit);
    hide Prepare;
  }

  /** No successful swap spends more than its input, leaves input over short of its price
      limit, charges less than its lowest fee rate, or beats the pool's starting spot
      price. */
  lemma SwapConserves(
      pool: Pool, ticks: seq<Tick>, arrayStarts: seq<int>, amount: int, timestamp: int, down: bool,
      adaptive: Option<AdaptiveFee>, limit: int)
    requires Swap(pool, ticks, arrayStarts, amount, timestamp, down, adaptive, limit).Ok?
    ensures
      var r := Swap(pool, ticks, arrayStarts, amount, timestamp, down, adaptive, limit).value;
      && 0 <= r.fee <= r.consumed <= amount && 0 <= r.amountOut
      && (r.consumed == amount || r.sqrtPrice == EffectiveLimit(limit, down))
      && Within(pool.sqrtPrice, r.sqrtPrice, down) && Within(r.sqrtPrice, EffectiveLimit(limit, down), down)
      && Charged(r.consumed, r.fee, r.minimumFeeRate)
      && NoBetter(r.consumed, r.amountOut, pool.sqrtPrice, down)
  {
    hide Prepare, Iterate, Charged, NoBetter, Run, Visited;
    StartMeaning(pool, ticks, arrayStarts, amount, timestamp, down, adaptive, limit);
    StartLedger(pool, ticks, arrayStarts, amount, timestamp, down, adaptive, limit);
    var (cfg, start) := Prepare(pool, ticks, arrayStarts, amount, timestamp, down, adaptive, limit).value;
    VisitedStart(cfg, start);
    var k := RunVisits(cfg, start, 0, start, BUDGET);
    VisitedKeepsLedger(cfg, pool.sqrtPrice, amount, start, k);
  }

  /** The rate of the pass made from the `k`-th loop head. */
  ghost function RateAt(cfg: Config, start: State, k: nat): int {
    match Visited(cfg, start, k)
    case Ok(s) => FeeAt(cfg, s.group)
    case Err(_) => 0
  }

  /** The fee rates a run reports span exactly the rates of the passes it made: every
      pass so far was charged within them, and each of the two was charged. */
  lemma {:induction false} FeeRatesSpan(cfg: Config, start: State, k: nat)
    requires start.first && Visited(cfg, start, k).Ok?
    ensures
      var s := Visited(cfg, start, k).value;
      && (s.first <==> k == 0)
      && (forall j: nat :: j < k ==> Visited(cfg, start, j).Ok? && s.minimumFee <= RateAt(cfg, start, j) <= s.maximumFee)
      && (k > 0 ==>
            && (exists j: nat :: j < k && s.minimumFee == RateAt(cfg, start, j))
            && (exists j: nat :: j < k && s.maximumFee == RateAt(cfg, start, j)))
  {
    hide Iterate, FeeAt, ChargeFor, PriceAt, SwapStep, Cross, NextGroup, NextTick, NextIndex, Loaded;
    if k > 0 {
      FeeRatesSpan(cfg, start, k - 1);
      var s := Visited(cfg, start, k - 1).value;
      var next, index, nextPrice, charge, step := PassMeaning(cfg, s);
      ChargeMeaning(cfg, s.group, s.liquidity, Toward(nextPrice, cfg.limit, cfg.down));
      assert RateAt(cfg, start, k - 1) == charge.fee;
      hide RateAt;
    }
  }
}
