/** A larger input never buys less: two runs that differ only in the amount left
    stay in lockstep until the smaller one runs out. */
module WhirlpoolMonotone {
  import opened Results
  import opened Rounding
  import opened Sorting
  import opened TickPrice
  import opened LiquidityStep
  import opened TickBook
  import opened Whirlpool
  import opened WhirlpoolPass

  lemma PassGrowsOutput(cfg: Config, s: State)
    requires Iterate(cfg, s).Ok?
    ensures s.output <= Iterate(cfg, s).value.output
  {
    hide Iterate, SwapStep, ChargeFor, FeeAt, NextTick, NextIndex, Price, Cross, NextGroup, Loaded;
    var next, index, nextPrice, charge, step := PassMeaning(cfg, s);
    StepBudget(s.current, charge.bound, s.liquidity, s.remaining, charge.fee, cfg.down);
  }

  lemma {:induction false} RunGrowsOutput(cfg: Config, s: State, budget: nat)
    requires Run(cfg, s, budget).Ok?
    ensures s.output <= Run(cfg, s, budget).value.output
    decreases budget
  {
    hide Iterate;
    if !Finished(cfg, s) {
      PassGrowsOutput(cfg, s);
      RunGrowsOutput(cfg, Iterate(cfg, s).value, budget - 1);
    }
  }

  /** One pass with less and one with more input left: either both do the same, or
      the smaller input is used up and has bought no more. */
  lemma PassMonotone(cfg: Config, s: State, more: int)
    requires s.remaining <= more
    requires Iterate(cfg, s).Ok? && Iterate(cfg, s.(remaining := more)).Ok?
    ensures
      var s', t' := Iterate(cfg, s).value, Iterate(cfg, s.(remaining := more)).value;
      || (0 <= s'.remaining <= t'.remaining && t' == s'.(remaining := t'.remaining))
      || (s'.remaining == 0 && s'.output <= t'.output)
  {
    hide Iterate, SwapStep, ChargeFor, FeeAt, NextTick, NextIndex, Price, Cross, NextGroup, Loaded;
    var t := s.(remaining := more);
    var next, index, nextPrice, charge, step := PassMeaning(cfg, s);
    var next', index', nextPrice', charge', step' := PassMeaning(cfg, t);
    CrossIgnoresRemaining(cfg, s, more, next, index, nextPrice, step.sqrtPrice);
    StepMonotone(s.current, charge.bound, s.liquidity, s.remaining, more, charge.fee, cfg.down);
    StepBudget(s.current, charge.bound, s.liquidity, s.remaining, charge.fee, cfg.down);
  }

  lemma CrossIgnoresRemaining(
      cfg: Config, s: State, more: int, next: Option<Tick>, index: int, nextPrice: int, price: int)
    ensures Cross(cfg, s.(remaining := more), next, index, nextPrice, price)
         == Cross(cfg, s, next, index, nextPrice, price)
  {
  }

  lemma {:induction false} RunMonotone(cfg: Config, s: State, more: int, budget: nat)
    requires 0 <= s.remaining <= more
    requires Run(cfg, s, budget).Ok? && Run(cfg, s.(remaining := more), budget).Ok?
    ensures Run(cfg, s, budget).value.output <= Run(cfg, s.(remaining := more), budget).value.output
    decreases budget
  {
    hide Iterate;
    var t := s.(remaining := more);
    if Finished(cfg, s) {
      RunGrowsOutput(cfg, t, budget);
    } else {
      PassMonotone(cfg, s, more);
      var s', t' := Iterate(cfg, s).value, Iterate(cfg, t).value;
      if 0 <= s'.remaining <= t'.remaining && t' == s'.(remaining := t'.remaining) {
        RunMonotone(cfg, s', t'.remaining, budget - 1);
      } else {
        RunGrowsOutput(cfg, t', budget - 1);
      }
    }
  }

  /** The input amount enters a swap only as the amount left to spend. */
  lemma PrepareIgnoresAmount(
      pool: Pool, ticks: seq<Tick>, arrayStarts: seq<int>, less: int, more: int, timestamp: int, down: bool,
      adaptive: Option<AdaptiveFee>, limit: int)
    requires Prepare(pool, ticks, arrayStarts, less, timestamp, down, adaptive, limit).Ok?
    requires Prepare(pool, ticks, arrayStarts, more, timestamp, down, adaptive, limit).Ok?
    ensures
      var (cfg, s) := Prepare(pool, ticks, arrayStarts, less, timestamp, down, adaptive, limit).value;
      && s.remaining == less >= 0
      && Prepare(pool, ticks, arrayStarts, more, timestamp, down, adaptive, limit).value
         == (cfg, s.(remaining := more))
  {
    hide Sort, ValidArrays, Ordered, SettleRule, Increasing, ValidTick, ValidLimit, Min, Max;
  }

  /** For the same pool, ticks, fee state and limit, a larger input never returns less. */
  lemma SwapMonotone(
      pool: Pool, ticks: seq<Tick>, arrayStarts: seq<int>, less: int, more: int, timestamp: int, down: bool,
      adaptive: Option<AdaptiveFee>, limit: int)
    requires less <= more
    requires Swap(pool, ticks, arrayStarts, less, timestamp, down, adaptive, limit).Ok?
    requires Swap(pool, ticks, arrayStarts, more, timestamp, down, adaptive, limit).Ok?
    ensures Swap(pool, ticks, arrayStarts, less, timestamp, down, adaptive, limit).value.amountOut
         <= Swap(pool, ticks, arrayStarts, more, timestamp, down, adaptive, limit).value.amountOut
  {
    hide Prepare, Run;
    PrepareIgnoresAmount(pool, ticks, arrayStarts, less, more, timestamp, down, adaptive, limit);
    var (cfg, start) := Prepare(pool, ticks, arrayStarts, less, timestamp, down, adaptive, limit).value;
    RunMonotone(cfg, start, more, BUDGET);
  }
}
