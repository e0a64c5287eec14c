/** The fee rates of a CLMM swap, from the pool and the dynamic-fee account: the reference
    that is carried over, the rate of each group, the rate of the first pass and the least
    price of a whole swap. */
module ClmmRule {
  import opened Results
  import opened Rounding
  import opened TickPrice
  import opened LiquidityStep
  import opened TickBook
  import opened TickGroups
  import opened Clmm
  import opened ClmmPass
  import opened ClmmFees

  /** The reference group and volatility that an account carries into a swap at `timestamp`:
      its own within the filter period, then the pool's group with the reduced volatility,
      and from the decay period on with none. */
  predicate Carried(d: DynamicFee, spacing: int, tick: int, timestamp: int, reference: int, volatility: int) {
    if timestamp < d.lastUpdate + d.filterPeriod then
      reference == d.reference && volatility == d.volatilityReference
    else
      && reference * spacing <= tick < (reference + 1) * spacing
      && if timestamp < d.lastUpdate + d.decayPeriod then
           volatility * 10000 <= d.volatility * d.reductionFactor < (volatility + 1) * 10000
         else volatility == 0
  }

  lemma SettleMeaning(d: DynamicFee, spacing: Pos, tick: int, timestamp: int)
    requires SettleRule(d, spacing, tick / spacing, timestamp).Ok?
    ensures
      var rule := SettleRule(d, spacing, tick / spacing, timestamp).value;
      && rule.Dynamic? && rule.maximum == d.maximum && rule.control == d.control
      && Carried(d, spacing, tick, timestamp, rule.reference, rule.volatilityReference)
  {
    GroupBounds(tick, spacing);
    FloorBounds(d.volatility * d.reductionFactor, 10000);
  }

  /** `fee` is the rate of a group whose volatility is `volatility` before its maximum: the
      least one that covers the pool's rate and the variable part, and the cap at most. */
  predicate RateOf(fee: int, feeRate: int, control: int, volatility: int, maximum: int, spacing: int) {
    var crossed := (if volatility < maximum then volatility else maximum) * spacing;
    && fee <= FEE_CAP
    && (fee < FEE_CAP ==> control * (crossed * crossed) <= (fee - feeRate) * 10000000000000)
    && (feeRate < fee ==> (fee - 1 - feeRate) * 10000000000000 < control * (crossed * crossed))
    && (feeRate <= FEE_CAP ==> feeRate <= fee)
  }

  lemma FeeAtMeaning(cfg: Config, group: int)
    ensures cfg.rule.Static? ==> FeeAt(cfg, group) == cfg.feeRate
    ensures cfg.rule.Dynamic? ==>
      RateOf(FeeAt(cfg, group), cfg.feeRate, cfg.rule.control,
             cfg.rule.volatilityReference + Abs(cfg.rule.reference - group) * 10000, cfg.rule.maximum, cfg.spacing)
  {
    if cfg.rule.Dynamic? {
      var crossed := Volatility(cfg.rule, group) * cfg.spacing;
      CeilBounds(cfg.rule.control * crossed * crossed, 10000000000000);
      VariableFeeNonNegative(cfg.rule.control, crossed);
      assert cfg.rule.control * crossed * crossed == cfg.rule.control * (crossed * crossed);
      hide Ceil;
    }
  }

  /** Where a pass may go: straight to its target when nothing is in range, nothing varies or
      volatility is at its maximum, and else no further than the edge of its group. */
  lemma PassBound(cfg: Config, group: int, liquidity: int, target: int)
    ensures cfg.rule.Static? || liquidity == 0 ==> Bound(cfg, group, liquidity, target) == target
    ensures cfg.rule.Dynamic? && liquidity != 0 ==>
      Bound(cfg, group, liquidity, target) ==
      if cfg.rule.maximum <= cfg.rule.volatilityReference + Abs(cfg.rule.reference - group) * 10000 then target
      else Toward(target, Edge(Engine.Clmm, if cfg.down then group else group + 1, cfg.spacing), cfg.down)
  {
    hide Price;
  }

  /** The fee is on the output exactly when it is on the token that is paid out: token 1 (2)
      downwards, token 0 (1) upwards. */
  lemma OutputFeeSide(feeOn: int, down: bool)
    requires 0 <= feeOn <= 2
    ensures !FeeOnInput(feeOn, down) <==> feeOn == if down then 2 else 1
  {
  }

  /** The rate of the first pass of a swap under a dynamic fee. */
  lemma FirstPassRate(
      pool: Pool, ticks: seq<Tick>, amount: int, limit: int, feeOn: int, dynamic: DynamicFee,
      timestamp: int, down: bool) returns (reference: int, volatility: int, group: int)
    requires Prepare(pool, ticks, amount, limit, feeOn, Some(dynamic), timestamp, down).Ok?
    ensures
      var (cfg, start) := Prepare(pool, ticks, amount, limit, feeOn, Some(dynamic), timestamp, down).value;
      && group * pool.tickSpacing <= pool.tickCurrent < (group + 1) * pool.tickSpacing
      && Carried(dynamic, pool.tickSpacing, pool.tickCurrent, timestamp, reference, volatility)
      && RateOf(FeeAt(cfg, start.group), pool.feeRate, dynamic.control,
                volatility + Abs(reference - group) * 10000, dynamic.maximum, pool.tickSpacing)
  {
    hide Carried, RateOf, FeeAt, NoDuplicates, ValidOrders, ValidTick, InitialOrders;
    var (cfg, start) := Prepare(pool, ticks, amount, limit, feeOn, Some(dynamic), timestamp, down).value;
    SettleMeaning(dynamic, pool.tickSpacing, pool.tickCurrent, timestamp);
    FeeAtMeaning(cfg, start.group);
    GroupBounds(pool.tickCurrent, pool.tickSpacing);
    reference, volatility, group := cfg.rule.reference, cfg.rule.volatilityReference, start.group;
  }

  /** No swap beats the starting price less the pool's own fee, taken at the cap when a
      dynamic fee caps it, whichever side the fee is on and with orders. */
  lemma SwapPaysPoolFee(
      pool: Pool, ticks: seq<Tick>, amount: int, limit: int, feeOn: int, dynamic: Option<DynamicFee>,
      timestamp: int, down: bool)
    requires Swap(pool, ticks, amount, limit, feeOn, dynamic, timestamp, down).Ok?
    ensures 0 <= pool.feeRate < FEE_SCALE
    ensures
      var r := Swap(pool, ticks, amount, limit, feeOn, dynamic, timestamp, down).value;
      NoBetterAfterFee(r.consumed, r.amountOut, pool.sqrtPrice, down,
                       if dynamic.Some? && FEE_CAP < pool.feeRate then FEE_CAP else pool.feeRate)
  {
    hide Run, Visited, Iterate, NoBetterAfterFee, EndsAt, FeeAt, RateOf, NoDuplicates, ValidOrders, ValidTick, InitialOrders,
      SettleRule;
    var (cfg, start) := Prepare(pool, ticks, amount, limit, feeOn, dynamic, timestamp, down).value;
    var rate := if dynamic.Some? && FEE_CAP < pool.feeRate then FEE_CAP else pool.feeRate;
    assert dynamic.None? ==> cfg.rule.Static?;
    forall k: nat | Visited(cfg, start, k).Ok?
      ensures rate <= FeeAt(cfg, Visited(cfg, start, k).value.group)
    {
      var group := Visited(cfg, start, k).value.group;
      FeeAtMeaning(cfg, group);
      RateIsLeast(FeeAt(cfg, group), cfg, group);
    }
    hide Prepare;
    var j, end := SwapPaysFee(pool, ticks, amount, limit, feeOn, dynamic, timestamp, down, rate);
  }

  lemma RateIsLeast(fee: int, cfg: Config, group: int)
    requires cfg.rule.Dynamic? ==>
      RateOf(fee, cfg.feeRate, cfg.rule.control,
             cfg.rule.volatilityReference + Abs(cfg.rule.reference - group) * 10000, cfg.rule.maximum, cfg.spacing)
    ensures cfg.rule.Dynamic? ==> (if FEE_CAP < cfg.feeRate then FEE_CAP else cfg.feeRate) <= fee
  {
    if cfg.rule.Dynamic? && FEE_CAP < cfg.feeRate && fee < FEE_CAP {
      var volatility := cfg.rule.volatilityReference + Abs(cfg.rule.reference - group) * 10000;
      var crossed := (if volatility < cfg.rule.maximum then volatility else cfg.rule.maximum) * cfg.spacing;
      SquareIsNat(crossed);
      MulMono(0, crossed * crossed, cfg.rule.control);
    }
  }
}
