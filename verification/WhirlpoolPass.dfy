/** One pass of the Whirlpool loop taken apart: its parts, the states a run
    visits, and what the next initialized tick is. */
module WhirlpoolPass {
  import opened Results
  import opened Rounding
  import opened Sorting
  import opened TickPrice
  import opened LiquidityStep
  import opened TickBook
  import opened Whirlpool

  /** The parts of a successful pass. */
  lemma PassMeaning(cfg: Config, s: State)
    returns (next: Option<Tick>, index: int, nextPrice: nat, charge: Charge, step: Step)
    requires Iterate(cfg, s).Ok?
    ensures Loaded(cfg, s.tick)
    ensures next == NextTick(cfg.ticks, s.tick, cfg.down) && index == NextIndex(cfg, s.tick)
    ensures PriceAt(Engine.Whirlpool, index) == Ok(nextPrice)
    ensures ChargeFor(cfg, s.group, s.liquidity, Toward(nextPrice, cfg.limit, cfg.down)) == Ok(charge)
    ensures SwapStep(s.current, charge.bound, s.liquidity, s.remaining, charge.fee, cfg.down) == Ok(step)
    ensures
      var s' := Iterate(cfg, s).value;
      && Cross(cfg, s, next, index, nextPrice, step.sqrtPrice) == Ok((s'.tick, s'.liquidity))
      && NextGroup(cfg, s.group, index, nextPrice, step.sqrtPrice, charge.skipped) == Ok(s'.group)
      && s'.current == step.sqrtPrice
      && s'.remaining == s.remaining - step.amountIn - step.fee
      && s'.output == s.output + step.amountOut
      && s'.fees == s.fees + step.fee
      && s'.minimumFee == (if s.first then charge.fee else Min(s.minimumFee, charge.fee))
      && s'.maximumFee == (if s.first then charge.fee else Max(s.maximumFee, charge.fee))
      && !s'.first
  {
    hide NextTick, NextIndex, PriceAt, ChargeFor, SwapStep, Cross, NextGroup;
    next, index := NextTick(cfg.ticks, s.tick, cfg.down), NextIndex(cfg, s.tick);
    nextPrice := PriceAt(Engine.Whirlpool, index).value;
    charge := ChargeFor(cfg, s.group, s.liquidity, Toward(nextPrice, cfg.limit, cfg.down)).value;
    step := SwapStep(s.current, charge.bound, s.liquidity, s.remaining, charge.fee, cfg.down).value;
  }

  /** A pass is charged the fee of its group and never moves past its target. */
  lemma ChargeMeaning(cfg: Config, group: int, liquidity: int, target: int)
    requires ChargeFor(cfg, group, liquidity, target).Ok?
    ensures
      var charge := ChargeFor(cfg, group, liquidity, target).value;
      charge.fee == FeeAt(cfg, group) && Within(charge.bound, target, cfg.down)
  {
    hide PriceAt, Volatility, Ceil;
  }

  /** The state at the `k`-th loop head of a run from `start`. */
  ghost function Visited(cfg: Config, start: State, k: nat): Result<State>
    decreases k
  {
    hide Iterate;
    if k == 0 then Ok(start)
    else
      var s :- Visited(cfg, start, k - 1);
      if Finished(cfg, s) then Err(BudgetExhausted) else Iterate(cfg, s)
  }

  lemma VisitedStart(cfg: Config, start: State)
    ensures Visited(cfg, start, 0) == Ok(start)
  {
  }

  /** A run returns one of the states it visits. */
  lemma {:induction false} RunVisits(cfg: Config, start: State, k: nat, s: State, budget: nat) returns (j: nat)
    requires Visited(cfg, start, k) == Ok(s) && Run(cfg, s, budget).Ok?
    ensures Visited(cfg, start, j) == Run(cfg, s, budget) && Finished(cfg, Run(cfg, s, budget).value)
    decreases budget
  {
    hide Iterate;
    if Finished(cfg, s) {
      j := k;
    } else {
      j := RunVisits(cfg, start, k + 1, Iterate(cfg, s).value, budget - 1);
    }
  }

  /** The next tick is the nearest one ahead; there is none exactly when no tick is ahead. */
  lemma NextTickMeaning(ticks: seq<Tick>, tick: int, down: bool) returns (k: int)
    requires Increasing(ticks)
    ensures
      match NextTick(ticks, tick, down)
      case None => forall i :: 0 <= i < |ticks| ==> !Ahead(ticks[i], tick, down)
      case Some(t) =>
        && 0 <= k < |ticks| && t == ticks[k] && Ahead(t, tick, down)
        && forall i :: 0 <= i < |ticks| && i != k && Ahead(ticks[i], tick, down) ==>
          if down then ticks[i].tick < t.tick else t.tick < ticks[i].tick
  {
    CountUpToSplits(ticks, TickOf, tick);
    k := CountUpTo(ticks, TickOf, tick) - if down then 1 else 0;
  }
}
