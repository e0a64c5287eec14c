/** For which parameters every pass of every Whirlpool swap under an adaptive fee charges
    each price it moves through the fee of that price's own group. */
module WhirlpoolFaithful {
  import opened Results
  import opened Rounding
  import opened Sorting
  import opened TickPrice
  import opened LiquidityStep
  import opened TickBook
  import opened TickGroups
  import opened Whirlpool
  import opened WhirlpoolPass
  import opened WhirlpoolGroups

  /** Parameters that a pool and its adaptive fee may have. */
  predicate ValidParameters(spacing: int, feeRate: int, size: int, control: int, maximum: int) {
    && 0 < spacing <= 65535 && 0 <= feeRate <= 65535 && 0 < size <= 65535
    && 0 <= control <= 0xFFFF_FFFF && 0 <= maximum <= 0xFFFF_FFFF && maximum * size <= 0xFFFF_FFFF
  }

  /** Pass `k` of a swap, if it is made with liquidity in range, charges faithfully. */
  ghost predicate PassIsFaithful(
      pool: Pool, ticks: seq<Tick>, arrayStarts: seq<int>, amount: int, timestamp: int, down: bool,
      adaptive: AdaptiveFee, limit: int, k: nat)
    requires Prepare(pool, ticks, arrayStarts, amount, timestamp, down, Some(adaptive), limit).Ok?
  {
    var (cfg, start) := Prepare(pool, ticks, arrayStarts, amount, timestamp, down, Some(adaptive), limit).value;
    Visited(cfg, start, k).Ok? && Visited(cfg, start, k + 1).Ok? ==>
      var s, s' := Visited(cfg, start, k).value, Visited(cfg, start, k + 1).value;
      s.liquidity != 0 ==> Faithful(cfg, s.current, s'.current, FeeAt(cfg, s.group))
  }

  /** Every pass of every accepted swap from a coherent pool with these parameters does. */
  ghost predicate AlwaysFaithful(spacing: int, feeRate: int, size: int, control: int, maximum: int) {
    forall pool: Pool, ticks: seq<Tick>, arrayStarts: seq<int>, amount: int, timestamp: int, down: bool,
        adaptive: AdaptiveFee, limit: int, k: nat ::
      && pool.tickSpacing == spacing && pool.feeRate == feeRate && adaptive.tickGroupSize == size
      && adaptive.controlFactor == control && adaptive.maximumVolatility == maximum
      && Coherent(Engine.Whirlpool, pool.sqrtPrice, pool.tickCurrent)
      && Swap(pool, ticks, arrayStarts, amount, timestamp, down, Some(adaptive), limit).Ok?
      ==> PassIsFaithful(pool, ticks, arrayStarts, amount, timestamp, down, adaptive, limit, k)
  }

  // ----- one unfaithful pass for every other choice of parameters -----

  const AMOUNT := 1000

  function AccountOf(spacing: int, size: Pos, control: int, maximum: int): AdaptiveFee {
    AdaptiveFee(10, 100, 5000, control, maximum, size, 0, 0, 0, spacing / size, 0)
  }

  /** The only initialized tick is the first one above zero that may be, inside a group. */
  function TicksOf(spacing: int): seq<Tick> {
    [Tick(spacing, 0, 0, 0, 0)]
  }

  function At(tick: int): nat
    requires InRange(tick)
  {
    Price(Engine.Whirlpool, tick)
  }

  /** A coherent pool that stands on that tick and has yet to cross it. */
  function PoolOf(spacing: int, feeRate: int): Pool
    requires InRange(spacing)
  {
    Pool(At(spacing), 1, spacing - 1, spacing, feeRate)
  }

  function ConfigOf(spacing: int, feeRate: int, size: Pos, control: int, maximum: int): Config
    requires InRange(spacing)
  {
    var g, distance := spacing / size, Ceil(maximum, 10000);
    Config(feeRate, TicksOf(spacing), 0, Min(88 * spacing - 1, MAX_TICK), At(spacing) + 1, false,
           Adaptive(size, g, 0, maximum, control,
                    if (g - distance) * size > MIN_TICK then Some(g - distance) else None,
                    if (g + distance + 1) * size < MAX_TICK then Some(g + distance) else None))
  }

  function StartOf(spacing: int, feeRate: int, size: Pos): State
    requires InRange(spacing)
  {
    State(At(spacing), spacing - 1, 1, AMOUNT, 0, 0, spacing / size, feeRate, feeRate, true)
  }

  /** The tick has been crossed, and the group is over. */
  function CrossedOf(spacing: int, feeRate: int, size: Pos): State
    requires InRange(spacing)
  {
    State(At(spacing), spacing, 1, AMOUNT, 0, 0, spacing / size + 1, feeRate, feeRate, false)
  }

  lemma Prices(spacing: int)
    requires 0 < spacing <= 65535
    ensures InRange(Min(88 * spacing - 1, MAX_TICK)) && spacing < Min(88 * spacing - 1, MAX_TICK)
    ensures MIN_SQRT_PRICE <= At(spacing) < At(spacing + 1) <= At(Min(88 * spacing - 1, MAX_TICK)) <= MaxSqrtPrice(Engine.Whirlpool)
    ensures Q64 <= At(spacing)
  {
    RatiosAtZero();
    assert At(0) == Q64;
    hide Price;
    var upper := Min(88 * spacing - 1, MAX_TICK);
    PriceBounds(Engine.Whirlpool);
    PriceOrder(Engine.Whirlpool, 0, spacing);
    PriceIncreases(Engine.Whirlpool, spacing, spacing + 1);
    PriceOrder(Engine.Whirlpool, spacing + 1, upper);
    PriceOrder(Engine.Whirlpool, upper, MAX_TICK);
  }

  lemma GroupFits(spacing: Pos, size: Pos)
    ensures 0 <= spacing / size <= spacing
  {
    GroupLe(spacing, 0, size);
    GroupLe(spacing, spacing + 1, size);
    MulMono(1, size, spacing + 1);
  }

  lemma LastIsZero()
    ensures Max(0, 0) == 0
  {
  }

  lemma Settles(spacing: int, feeRate: int, size: int, control: int, maximum: int)
    requires ValidParameters(spacing, feeRate, size, control, maximum)
    ensures SettleRule(AccountOf(spacing, size, control, maximum), spacing - 1, 0)
         == Ok(ConfigOf(spacing, feeRate, size, control, maximum).rule)
  {
    hide Ceil, Max;
    GroupFits(spacing, size);
    LastIsZero();
  }

  lemma SingletonsAreSorted(spacing: int)
    ensures Sort([0], Itself) == [0] && Ordered(TicksOf(spacing)) == TicksOf(spacing)
  {
  }

  lemma ArraysAreValid(step: Pos)
    ensures ValidArrays([0], step)
  {
    GroupOfMultiple(0, step);
  }

  lemma TickIsValid(spacing: Pos, upper: int)
    requires spacing <= upper
    ensures ValidTick(TicksOf(spacing)[0], 0, upper, spacing)
  {
    GroupOfMultiple(1, spacing);
  }

  lemma PoolIsValid(spacing: int, feeRate: int)
    requires 0 < spacing <= 65535 && 0 <= feeRate <= 65535
    ensures ValidPool(PoolOf(spacing, feeRate), AMOUNT, 0)
    ensures ValidLimit(PoolOf(spacing, feeRate), At(spacing) + 1, false)
    ensures EffectiveLimit(At(spacing) + 1, false) == At(spacing) + 1
  {
    hide At;
    Prices(spacing);
  }

  lemma Starts(spacing: int, feeRate: int, size: int, control: int, maximum: int)
    requires ValidParameters(spacing, feeRate, size, control, maximum) && spacing % size != 0
    ensures Prepare(PoolOf(spacing, feeRate), TicksOf(spacing), [0], AMOUNT, 0, false,
                    Some(AccountOf(spacing, size, control, maximum)), At(spacing) + 1)
         == Ok((ConfigOf(spacing, feeRate, size, control, maximum), StartOf(spacing, feeRate, size)))
    ensures Coherent(Engine.Whirlpool, PoolOf(spacing, feeRate).sqrtPrice, PoolOf(spacing, feeRate).tickCurrent)
  {
    hide Price, SettleRule, Sort, Ordered, Ceil, ValidPool, ValidArrays, ValidLimit, ValidTick, EffectiveLimit;
    Prices(spacing);
    Settles(spacing, feeRate, size, control, maximum);
    SingletonsAreSorted(spacing);
    SameGroup(spacing, size);
    CoherentAt(Engine.Whirlpool, spacing);
    hide Coherent;
    ArraysAreValid(ARRAY_TICKS * spacing);
    TickIsValid(spacing, Min(88 * spacing - 1, MAX_TICK));
    PoolIsValid(spacing, feeRate);
  }

  /** A tick inside a group shares it with the tick before. */
  lemma SameGroup(spacing: int, size: Pos)
    requires spacing % size != 0
    ensures (spacing - 1) / size == spacing / size
    ensures (spacing / size) * size < spacing < (spacing / size + 1) * size
  {
    GroupBounds(spacing, size);
    assert spacing == size * (spacing / size) + spacing % size;
    GroupLe(spacing - 1, spacing / size, size);
    GroupLe(spacing - 1, spacing / size + 1, size);
  }

  lemma VolatilityAt(rule: FeeRule)
    requires rule.Adaptive? && rule.volatilityReference == 0 && 0 < rule.maximum
    ensures Volatility(rule, rule.reference) == 0 < Volatility(rule, rule.reference + 1)
  {
  }

  /** The next group is charged strictly more. */
  lemma NextGroupCostsMore(cfg: Config)
    requires cfg.rule.Adaptive? && cfg.rule.volatilityReference == 0 && 0 < cfg.rule.maximum && 0 < cfg.rule.control
    requires 0 <= cfg.feeRate <= 65535
    ensures FeeAt(cfg, cfg.rule.reference) == cfg.feeRate < FeeAt(cfg, cfg.rule.reference + 1) <= 100000
  {
    VolatilityAt(cfg.rule);
    var v := Volatility(cfg.rule, cfg.rule.reference + 1);
    hide Volatility;
    var crossed := v * cfg.rule.groupSize;
    MulStrict(0, v, cfg.rule.groupSize);
    MulStrict(0, crossed, crossed);
    MulStrict(0, crossed * crossed, cfg.rule.control);
    assert cfg.rule.control * crossed * crossed == crossed * crossed * cfg.rule.control;
    CeilLe(cfg.rule.control * crossed * crossed, 10000000000000, 0);
    assert Ceil(cfg.rule.control * 0 * 0, 10000000000000) == 0;
    hide Ceil;
  }

  /** Neither the reference group nor the next one is left freely upwards. */
  lemma Charges(spacing: int, feeRate: int, size: int, control: int, maximum: int, group: int, target: int)
    requires ValidParameters(spacing, feeRate, size, control, maximum) && 0 < control && 0 < maximum
    requires spacing / size <= group <= spacing / size + 1
    ensures
      var cfg := ConfigOf(spacing, feeRate, size, control, maximum);
      ChargeFor(cfg, group, 1, target)
      == Ok(Charge(FeeAt(cfg, group), Min(target, Edge(Engine.Whirlpool, group + 1, size)), false))
  {
    CeilLe(maximum, 10000, 0);
    hide Price, FeeAt, Ceil;
  }

  lemma EdgeIsAbove(tick: int, group: int, size: Pos)
    requires InRange(tick) && InRange(tick + 1) && tick < group * size
    ensures At(tick) < At(tick + 1) <= Edge(Engine.Whirlpool, group, size)
  {
    hide Price;
    PriceIncreases(Engine.Whirlpool, tick, tick + 1);
    PriceOrder(Engine.Whirlpool, tick + 1, Clamp(group * size));
  }

  /** A step that need not move costs, yields and charges nothing. */
  lemma Standing(current: nat, fee: nat)
    requires 0 < current <= U128 && fee <= 100000
    ensures SwapStep(current, current, 1, AMOUNT, fee, false) == Ok(Step(current, 0, 0, 0))
  {
    hide SwapStep, EndPrice, Cost, Yield, NetOfFee, FeeOnTop;
    NoMoveNoCost(current, 1, false);
    YieldNothing(current, 1, false);
    EndPriceIsFurthest(current, current, current, 1, NetOfFee(AMOUNT, fee), false);
    StepSucceeds(current, current, 1, AMOUNT, fee, false);
    StepMeaning(current, current, 1, AMOUNT, fee, false);
    FeeOnTopLe(0, fee, 0);
  }

  /** One unit of price costs one unit of input and at most one of fee. */
  lemma UnitStep(current: nat, fee: nat)
    requires Q64 <= current < MaxSqrtPrice(Engine.Whirlpool) && fee <= 100000
    ensures
      var step := SwapStep(current, current + 1, 1, AMOUNT, fee, false);
      && step.Ok? && step.value.sqrtPrice == current + 1 && 0 <= step.value.amountOut <= 1
      && 0 <= step.value.amountIn && 0 <= step.value.fee && step.value.amountIn + step.value.fee <= AMOUNT
  {
    hide SwapStep, EndPrice, Cost, Yield, NetOfFee, FeeOnTop;
    CostUp(current, current + 1, 1, 1);
    NetOfFeeGe(AMOUNT, fee, 1);
    EndPriceIsFurthest(current, current + 1, current + 1, 1, NetOfFee(AMOUNT, fee), false);
    YieldUpGe(current, current + 1, 1, 2);
    MulMono(Q64, current, current + 1);
    StepSucceeds(current, current + 1, 1, AMOUNT, fee, false);
    StepMeaning(current, current + 1, 1, AMOUNT, fee, false);
    StepBudget(current, current + 1, 1, AMOUNT, fee, false);
  }

  lemma NextTicks(spacing: int)
    ensures NextTick(TicksOf(spacing), spacing - 1, false) == Some(Tick(spacing, 0, 0, 0, 0))
    ensures NextTick(TicksOf(spacing), spacing, false) == None
  {
  }

  /** What both passes need of the configuration. */
  predicate Setting(cfg: Config, tick: int) {
    && InRange(tick) && cfg.rule.Adaptive? && cfg.ticks == TicksOf(tick) && !cfg.down
    && InRange(cfg.upper) && tick < cfg.upper && Q64 <= At(tick) < At(cfg.upper) <= MaxSqrtPrice(Engine.Whirlpool)
    && cfg.limit == At(tick) + 1
  }

  lemma SettingOf(spacing: int, feeRate: int, size: int, control: int, maximum: int)
    requires ValidParameters(spacing, feeRate, size, control, maximum)
    ensures Setting(ConfigOf(spacing, feeRate, size, control, maximum), spacing)
  {
    Prices(spacing);
    hide Price, Ceil;
  }

  /** A pass that stands on the next tick crosses it without moving. */
  lemma CrossInPlace(cfg: Config, s: State, tick: int, fee: int)
    requires Setting(cfg, tick) && 0 <= fee <= 100000
    requires s == State(At(tick), tick - 1, 1, AMOUNT, 0, 0, s.group, s.minimumFee, s.maximumFee, true)
    requires ChargeFor(cfg, s.group, 1, At(tick)) == Ok(Charge(fee, At(tick), false))
    ensures Iterate(cfg, s) == Ok(State(At(tick), tick, 1, AMOUNT, 0, 0, s.group + 1, fee, fee, false))
  {
    hide Price, ChargeFor, SwapStep, NextTick, TickAt;
    Standing(At(tick), fee);
    NextTicks(tick);
    assert Toward(At(tick), cfg.limit, false) == At(tick);
  }

  /** The next one moves by one unit of price and reaches the limit. */
  lemma MoveByOne(cfg: Config, s: State, tick: int, fee: int)
    requires Setting(cfg, tick) && 0 <= fee <= 100000
    requires s == State(At(tick), tick, 1, AMOUNT, 0, 0, s.group, s.minimumFee, s.maximumFee, false)
    requires ChargeFor(cfg, s.group, 1, cfg.limit) == Ok(Charge(fee, cfg.limit, false))
    ensures Iterate(cfg, s).Ok? && Iterate(cfg, s).value.current == cfg.limit
  {
    hide Price, ChargeFor, SwapStep, NextTick, TickAt;
    UnitStep(At(tick), fee);
    NextTicks(tick);
    assert PriceInRange(Engine.Whirlpool, cfg.limit) && TickAt(Engine.Whirlpool, cfg.limit).Ok?;
    assert Toward(At(cfg.upper), cfg.limit, false) == cfg.limit;
    hide At, MaxSqrtPrice;
  }

  /** The first pass crosses the tick without moving and goes on to the next group. */
  lemma FirstPass(spacing: int, feeRate: int, size: int, control: int, maximum: int)
    requires ValidParameters(spacing, feeRate, size, control, maximum)
    requires 0 < control && 0 < maximum && spacing % size != 0
    ensures Iterate(ConfigOf(spacing, feeRate, size, control, maximum), StartOf(spacing, feeRate, size))
         == Ok(CrossedOf(spacing, feeRate, size))
  {
    hide At, FeeAt, ChargeFor, Iterate, Edge, Ceil, Setting;
    SameGroup(spacing, size);
    var cfg := ConfigOf(spacing, feeRate, size, control, maximum);
    SettingOf(spacing, feeRate, size, control, maximum);
    NextGroupCostsMore(cfg);
    Charges(spacing, feeRate, size, control, maximum, spacing / size, At(spacing));
    EdgeIsAbove(spacing, spacing / size + 1, size);
    CrossInPlace(cfg, StartOf(spacing, feeRate, size), spacing, feeRate);
  }

  /** The second one moves through that tick, which still lies in the group before. */
  lemma SecondPass(spacing: int, feeRate: int, size: int, control: int, maximum: int)
    requires ValidParameters(spacing, feeRate, size, control, maximum)
    requires 0 < control && 0 < maximum && spacing % size != 0
    ensures
      var r := Iterate(ConfigOf(spacing, feeRate, size, control, maximum), CrossedOf(spacing, feeRate, size));
      r.Ok? && r.value.current == At(spacing) + 1
  {
    hide At, FeeAt, ChargeFor, Iterate, Edge, Ceil, Setting;
    SameGroup(spacing, size);
    var cfg := ConfigOf(spacing, feeRate, size, control, maximum);
    SettingOf(spacing, feeRate, size, control, maximum);
    NextGroupCostsMore(cfg);
    Charges(spacing, feeRate, size, control, maximum, spacing / size + 1, At(spacing) + 1);
    MulMono(spacing / size + 1, spacing / size + 2, size);
    EdgeIsAbove(spacing, spacing / size + 2, size);
    MoveByOne(cfg, CrossedOf(spacing, feeRate, size), spacing, FeeAt(cfg, spacing / size + 1));
  }

  /** Off group edges the second pass of an accepted swap from a coherent pool charges the
      tick it moves through the higher fee of the next group. */
  lemma SecondPassOvercharges(spacing: int, feeRate: int, size: int, control: int, maximum: int)
    requires ValidParameters(spacing, feeRate, size, control, maximum)
    requires 0 < control && 0 < maximum && spacing % size != 0
    ensures
      var cfg, start := ConfigOf(spacing, feeRate, size, control, maximum), StartOf(spacing, feeRate, size);
      && Run(cfg, start, BUDGET).Ok? && Visited(cfg, start, 1).Ok? && Visited(cfg, start, 2).Ok?
      && var s, s' := Visited(cfg, start, 1).value, Visited(cfg, start, 2).value;
      && s.liquidity != 0 && s.group == spacing / size + 1
      && Traversed(Engine.Whirlpool, spacing, s.current, s'.current) && GroupOf(cfg.rule, spacing) == spacing / size
      && !Faithful(cfg, s.current, s'.current, FeeAt(cfg, s.group))
  {
    hide At, Iterate, FeeAt, Ceil, Run, Visited, Traversed, Faithful;
    FirstPass(spacing, feeRate, size, control, maximum);
    SecondPass(spacing, feeRate, size, control, maximum);
    Prices(spacing);
    var cfg, start := ConfigOf(spacing, feeRate, size, control, maximum), StartOf(spacing, feeRate, size);
    NextGroupCostsMore(cfg);
    var s := CrossedOf(spacing, feeRate, size);
    TwoPasses(cfg, start, s, Iterate(cfg, s).value);
    MovesThrough(cfg, spacing, FeeAt(cfg, s.group));
  }

  /** A run that is over after two passes. */
  lemma TwoPasses(cfg: Config, start: State, s: State, s': State)
    requires !Finished(cfg, start) && !Finished(cfg, s) && Finished(cfg, s')
    requires Iterate(cfg, start) == Ok(s) && Iterate(cfg, s) == Ok(s')
    ensures Run(cfg, start, BUDGET).Ok? && Visited(cfg, start, 1) == Ok(s) && Visited(cfg, start, 2) == Ok(s')
  {
    hide Iterate, Finished;
    VisitedStart(cfg, start);
    assert Run(cfg, s', BUDGET - 2) == Ok(s');
    assert Run(cfg, s, BUDGET - 1) == Ok(s');
  }

  /** A move up from a tick goes through that tick, at the fee of its group or not. */
  lemma MovesThrough(cfg: Config, tick: int, fee: int)
    requires MIN_TICK <= tick < MAX_TICK && At(tick) < At(tick + 1)
    ensures Traversed(Engine.Whirlpool, tick, At(tick), At(tick) + 1)
    ensures FeeAt(cfg, GroupOf(cfg.rule, tick)) != fee ==> !Faithful(cfg, At(tick), At(tick) + 1, fee)
  {
    hide Price, FeeAt;
    assert Traversed(Engine.Whirlpool, tick, At(tick), At(tick) + 1);
  }

  lemma OverchargingSwap(spacing: int, feeRate: int, size: int, control: int, maximum: int)
    requires ValidParameters(spacing, feeRate, size, control, maximum)
    requires 0 < control && 0 < maximum && spacing % size != 0
    ensures !AlwaysFaithful(spacing, feeRate, size, control, maximum)
  {
    hide Prepare, Run, Coherent, ConfigOf, StartOf, Faithful, Visited, Traversed, At;
    Starts(spacing, feeRate, size, control, maximum);
    SecondPassOvercharges(spacing, feeRate, size, control, maximum);
    var pool, a := PoolOf(spacing, feeRate), AccountOf(spacing, size, control, maximum);
    assert Swap(pool, TicksOf(spacing), [0], AMOUNT, 0, false, Some(a), At(spacing) + 1).Ok?;
    assert !PassIsFaithful(pool, TicksOf(spacing), [0], AMOUNT, 0, false, a, At(spacing) + 1, 1);
  }

  /** Every pass of every swap charges each price its own group's fee exactly when the group
      size divides the tick spacing, or the fee is flat. */
  lemma AlwaysFaithfulExactly(spacing: int, feeRate: int, size: int, control: int, maximum: int)
    requires ValidParameters(spacing, feeRate, size, control, maximum)
    ensures AlwaysFaithful(spacing, feeRate, size, control, maximum)
       <==> spacing % size == 0 || control == 0 || maximum == 0
  {
    if spacing % size == 0 || control == 0 || maximum == 0 {
      hide Prepare, Run, Coherent, TicksOnEdges, Faithful, Visited;
      forall pool: Pool, ticks: seq<Tick>, arrayStarts: seq<int>, amount: int, timestamp: int, down: bool,
          adaptive: AdaptiveFee, limit: int, k: nat
        | && pool.tickSpacing == spacing && pool.feeRate == feeRate && adaptive.tickGroupSize == size
          && adaptive.controlFactor == control && adaptive.maximumVolatility == maximum
          && Coherent(Engine.Whirlpool, pool.sqrtPrice, pool.tickCurrent)
          && Swap(pool, ticks, arrayStarts, amount, timestamp, down, Some(adaptive), limit).Ok?
        ensures PassIsFaithful(pool, ticks, arrayStarts, amount, timestamp, down, adaptive, limit, k)
      {
        if spacing % size == 0 {
          DividingSizePutsTicksOnEdges(pool, ticks, arrayStarts, amount, timestamp, down, Some(adaptive), limit);
        }
        var (cfg, start) := Prepare(pool, ticks, arrayStarts, amount, timestamp, down, Some(adaptive), limit).value;
        if Visited(cfg, start, k).Ok? && Visited(cfg, start, k + 1).Ok? {
          FeesAreFaithful(pool, ticks, arrayStarts, amount, timestamp, down, Some(adaptive), limit, k);
        }
      }
    } else {
      OverchargingSwap(spacing, feeRate, size, control, maximum);
    }
  }

  lemma FortyMore()
    ensures FeeAt(ConfigOf(1, 3000, 2, 1000000, 100000), 1) == FeeAt(ConfigOf(1, 3000, 2, 1000000, 100000), 0) + 40
  {
    hide At;
  }

  /** For example, with a spacing of one and groups of two, the second pass of an accepted
      swap from a coherent pool charges tick 1 forty millionths more than its own group. */
  lemma UnfaithfulFeeHappens()
    ensures
      var cfg, start := ConfigOf(1, 3000, 2, 1000000, 100000), StartOf(1, 3000, 2);
      && Prepare(PoolOf(1, 3000), TicksOf(1), [0], AMOUNT, 0, false, Some(AccountOf(1, 2, 1000000, 100000)), At(1) + 1)
         == Ok((cfg, start))
      && Coherent(Engine.Whirlpool, PoolOf(1, 3000).sqrtPrice, PoolOf(1, 3000).tickCurrent)
      && Run(cfg, start, BUDGET).Ok? && Visited(cfg, start, 1).Ok? && Visited(cfg, start, 2).Ok?
      && var s, s' := Visited(cfg, start, 1).value, Visited(cfg, start, 2).value;
      && s.liquidity != 0 && Traversed(Engine.Whirlpool, 1, s.current, s'.current)
      && FeeAt(cfg, s.group) == FeeAt(cfg, GroupOf(cfg.rule, 1)) + 40
      && !Faithful(cfg, s.current, s'.current, FeeAt(cfg, s.group))
  {
    hide At, FeeAt, ConfigOf, StartOf, PoolOf, Faithful, Coherent, Prepare, Traversed, Visited, Run;
    Starts(1, 3000, 2, 1000000, 100000);
    SecondPassOvercharges(1, 3000, 2, 1000000, 100000);
    FortyMore();
  }
}
