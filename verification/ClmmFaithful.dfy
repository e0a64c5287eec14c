/** For which parameters every pass of every CLMM swap under a dynamic fee charges each
    price it moves through the fee of that price's own group. */
module ClmmFaithful {
  import opened Results
  import opened Rounding
  import opened TickPrice
  import opened LiquidityStep
  import opened TickBook
  import opened TickGroups
  import opened Clmm
  import opened ClmmPass
  import opened ClmmLedger
  import opened ClmmDynamic
  import opened ClmmGroups

  /** Parameters that a pool and its dynamic-fee account may have. */
  predicate ValidParameters(spacing: int, feeRate: int, control: int, maximum: int) {
    && 1 <= spacing <= 65535 && 0 <= feeRate < FEE_SCALE && 1 <= control < 100000
    && 0 <= maximum < Power(256, 4) && maximum * spacing <= 0xFFFF_FFFF
  }

  /** Pass `k` of a swap, if it moves the price with liquidity in range, charges faithfully. */
  ghost predicate PassIsFaithful(
      pool: Pool, ticks: seq<Tick>, amount: int, limit: int, feeOn: int, dynamic: DynamicFee,
      timestamp: int, down: bool, k: nat)
    requires Prepare(pool, ticks, amount, limit, feeOn, Some(dynamic), timestamp, down).Ok?
  {
    var (cfg, start) := Prepare(pool, ticks, amount, limit, feeOn, Some(dynamic), timestamp, down).value;
    Visited(cfg, start, k).Ok? ==>
      var s := Visited(cfg, start, k).value;
      !Finished(cfg, s) && s.liquidity != 0 && Iterate(cfg, s).Ok? && Iterate(cfg, s).value.state.current != s.current
      ==> Faithful(cfg, s.current, Iterate(cfg, s).value.state.current, FeeAt(cfg, s.group))
  }

  /** Every pass of every accepted swap from a coherent pool with these parameters does. */
  ghost predicate AlwaysFaithful(spacing: int, feeRate: int, control: int, maximum: int) {
    forall pool: Pool, ticks: seq<Tick>, amount: int, limit: int, feeOn: int, dynamic: DynamicFee, timestamp: int,
        down: bool, k: nat ::
      && pool.tickSpacing == spacing && pool.feeRate == feeRate
      && dynamic.control == control && dynamic.maximum == maximum && Storable(dynamic)
      && Coherent(Engine.Clmm, pool.sqrtPrice, pool.tickCurrent)
      && Swap(pool, ticks, amount, limit, feeOn, Some(dynamic), timestamp, down).Ok?
      ==> PassIsFaithful(pool, ticks, amount, limit, feeOn, dynamic, timestamp, down, k)
  }

  // ----- flat fees -----

  /** Without room for volatility, or already at the cap, every group is charged the same. */
  lemma FlatFee(cfg: Config, g: int, h: int)
    requires cfg.rule.Dynamic? && 0 <= cfg.rule.volatilityReference
    requires cfg.rule.maximum == 0 || cfg.feeRate >= FEE_CAP
    ensures FeeAt(cfg, g) == FeeAt(cfg, h)
  {
    if cfg.rule.maximum == 0 {
      SameVolatility(cfg, g, h);
    }
    VariableFeeNonNegative(cfg.rule.control, Volatility(cfg.rule, g) * cfg.spacing);
    VariableFeeNonNegative(cfg.rule.control, Volatility(cfg.rule, h) * cfg.spacing);
    hide VariableFee, Volatility;
  }

  /** The rule a swap under a dynamic fee runs with. */
  lemma StartRule(
      pool: Pool, ticks: seq<Tick>, amount: int, limit: int, feeOn: int, dynamic: DynamicFee,
      timestamp: int, down: bool)
    requires Prepare(pool, ticks, amount, limit, feeOn, Some(dynamic), timestamp, down).Ok? && Storable(dynamic)
    ensures
      var (cfg, start) := Prepare(pool, ticks, amount, limit, feeOn, Some(dynamic), timestamp, down).value;
      && cfg.rule.Dynamic? && 0 <= cfg.rule.volatilityReference && 0 <= cfg.rule.maximum
      && cfg.rule.maximum == dynamic.maximum && cfg.feeRate == pool.feeRate
  {
    hide NoDuplicates, ValidOrders, ValidTick, ValidLimit, InitialOrders, Storable, Power;
    SettledIsNonNegative(dynamic, pool.tickSpacing, pool.tickCurrent / pool.tickSpacing, timestamp);
  }

  lemma FlatIsFaithful(
      pool: Pool, ticks: seq<Tick>, amount: int, limit: int, feeOn: int, dynamic: DynamicFee,
      timestamp: int, down: bool, k: nat)
    requires Prepare(pool, ticks, amount, limit, feeOn, Some(dynamic), timestamp, down).Ok? && Storable(dynamic)
    requires dynamic.maximum == 0 || pool.feeRate >= FEE_CAP
    ensures PassIsFaithful(pool, ticks, amount, limit, feeOn, dynamic, timestamp, down, k)
  {
    hide Prepare, Iterate, FeeAt, Storable, Price;
    StartRule(pool, ticks, amount, limit, feeOn, dynamic, timestamp, down);
    var (cfg, start) := Prepare(pool, ticks, amount, limit, feeOn, Some(dynamic), timestamp, down).value;
    if Visited(cfg, start, k).Ok? {
      var s := Visited(cfg, start, k).value;
      forall t
        ensures FeeAt(cfg, t / cfg.spacing) == FeeAt(cfg, s.group)
      {
        FlatFee(cfg, t / cfg.spacing, s.group);
      }
    }
  }

  // ----- when one pass is faithful -----

  /** A move inside the price range passes through some tick. */
  lemma SomeTraversed(from: int, to: int) returns (t: int)
    requires MIN_SQRT_PRICE <= Min(from, to) < Max(from, to) <= MaxSqrtPrice(Engine.Clmm)
    ensures Traversed(Engine.Clmm, t, from, to)
  {
    hide Price, TickAt;
    PriceBounds(Engine.Clmm);
    t := TickAt(Engine.Clmm, Min(from, to)).value;
  }

  /** Of the ticks that a move passes through, `nearest` has the group nearest the reference. */
  ghost predicate Innermost(spacing: Pos, reference: int, from: int, to: int, nearest: int, bound: int) {
    && Traversed(Engine.Clmm, nearest, from, to)
    && forall t :: Traversed(Engine.Clmm, t, from, to) && t < bound ==>
      Abs(reference - nearest / spacing) <= Abs(reference - t / spacing)
  }

  lemma {:induction false} SomeInnermost(spacing: Pos, reference: int, from: int, to: int, some: int, bound: int)
    returns (nearest: int)
    requires Traversed(Engine.Clmm, some, from, to) && MIN_TICK <= bound
    ensures Innermost(spacing, reference, from, to, nearest, bound)
    decreases bound - MIN_TICK
  {
    hide Traversed;
    if bound == MIN_TICK {
      nearest := some;
      assert forall t :: Traversed(Engine.Clmm, t, from, to) ==> MIN_TICK <= t by {
        TraversedInRange(from, to);
      }
    } else {
      nearest := SomeInnermost(spacing, reference, from, to, some, bound - 1);
      if Traversed(Engine.Clmm, bound - 1, from, to)
        && Abs(reference - (bound - 1) / spacing) < Abs(reference - nearest / spacing) {
        nearest := bound - 1;
      }
    }
  }

  lemma TraversedInRange(from: int, to: int)
    ensures forall t :: Traversed(Engine.Clmm, t, from, to) ==> MIN_TICK <= t < MAX_TICK
  {
    hide Price;
  }

  /** Pass `k` of a swap from a coherent pool, moving the price with liquidity in range,
      skipping groups in either direction or not, charges faithfully exactly when of the
      ticks it moves through the one with the group nearest the reference is charged the
      same as the pass. */
  lemma PassFaithfulExactly(
      pool: Pool, ticks: seq<Tick>, amount: int, limit: int, feeOn: int, dynamic: DynamicFee,
      timestamp: int, down: bool, k: nat) returns (nearest: int)
    requires Prepare(pool, ticks, amount, limit, feeOn, Some(dynamic), timestamp, down).Ok? && Storable(dynamic)
    requires Coherent(Engine.Clmm, pool.sqrtPrice, pool.tickCurrent)
    requires
      var (cfg, start) := Prepare(pool, ticks, amount, limit, feeOn, Some(dynamic), timestamp, down).value;
      && Visited(cfg, start, k).Ok?
      && var s := Visited(cfg, start, k).value;
      && !Finished(cfg, s) && s.liquidity != 0 && Iterate(cfg, s).Ok?
      && Iterate(cfg, s).value.state.current != s.current
    ensures
      var (cfg, start) := Prepare(pool, ticks, amount, limit, feeOn, Some(dynamic), timestamp, down).value;
      var s := Visited(cfg, start, k).value;
      var to := Iterate(cfg, s).value.state.current;
      && cfg.rule.Dynamic? && Innermost(cfg.spacing, cfg.rule.reference, s.current, to, nearest, MAX_TICK)
      && (Faithful(cfg, s.current, to, FeeAt(cfg, s.group))
          <==> FeeAt(cfg, nearest / cfg.spacing) == FeeAt(cfg, s.group))
      && (!Skips(cfg, s.group, s.liquidity) || MovesAway(cfg, s.group) ==> Faithful(cfg, s.current, to, FeeAt(cfg, s.group)))
  {
    hide Prepare, Iterate, NoBetter, Coherent, FeeAt, Volatility, MovesAway, Storable, Traversed, NoDuplicates;
    StartMeaning(pool, ticks, amount, limit, feeOn, Some(dynamic), timestamp, down);
    StartLedger(pool, ticks, amount, limit, feeOn, Some(dynamic), timestamp, down);
    StartRule(pool, ticks, amount, limit, feeOn, dynamic, timestamp, down);
    var (cfg, start) := Prepare(pool, ticks, amount, limit, feeOn, Some(dynamic), timestamp, down).value;
    VisitedKeepsLedger(cfg, pool.sqrtPrice, amount, start, k);
    var s := Visited(cfg, start, k).value;
    PassKeepsLedger(cfg, pool.sqrtPrice, amount, s);
    var to := Iterate(cfg, s).value.state.current;
    var some := SomeTraversed(s.current, to);
    nearest := SomeInnermost(cfg.spacing, cfg.rule.reference, s.current, to, some, MAX_TICK);
    TraversedInRange(s.current, to);
    FeesAreFaithful(pool, ticks, amount, limit, feeOn, Some(dynamic), timestamp, down, k);
    if Skips(cfg, s.group, s.liquidity) {
      SaturatedFaithfulExactly(cfg, s.group, s.current, to, nearest);
    }
  }

  // ----- one unfaithful pass for every other choice of parameters -----

  const AMOUNT := 1000000000000
  const COST: nat := 0x2_0000_0000
  const NO_TICKS: seq<Tick> := []

  /** The first group that begins inside the tick range. */
  function LowGroup(spacing: Pos): int {
    MIN_TICK / spacing + 1
  }

  /** The nearest group above it with maximal volatility. */
  function HighGroup(spacing: Pos, maximum: int): int {
    LowGroup(spacing) + Ceil(maximum, 10000)
  }

  lemma Places(spacing: Pos, maximum: int)
    requires spacing <= 65535 && 0 < maximum && maximum * spacing <= 0xFFFF_FFFF
    ensures LowGroup(spacing) < HighGroup(spacing, maximum)
    ensures maximum <= (HighGroup(spacing, maximum) - LowGroup(spacing)) * 10000
    ensures MIN_TICK < LowGroup(spacing) * spacing < HighGroup(spacing, maximum) * spacing < MAX_TICK
    ensures -0x8000_0000 <= LowGroup(spacing) < 0x8000_0000
  {
    var low, distance := LowGroup(spacing), Ceil(maximum, 10000);
    GroupBounds(MIN_TICK, spacing);
    CeilBounds(maximum, 10000);
    hide LowGroup, Ceil;
    MulMono((distance - 1) * 10000, maximum, spacing);
    assert (distance - 1) * 10000 * spacing == 10000 * (distance * spacing) - 10000 * spacing;
    assert (low + distance) * spacing == low * spacing + distance * spacing;
    MulMono(1, distance, spacing);
    GroupLe(MIN_TICK, -0x8_0000, spacing);
  }

  function AccountOf(spacing: Pos, control: int, maximum: int): DynamicFee {
    DynamicFee(10, 100, 5000, control, maximum, LowGroup(spacing), 0, 0, 0)
  }

  /** A coherent pool at the start of the high group. */
  function PoolOf(spacing: Pos, feeRate: int, maximum: int): Pool
    requires InRange(HighGroup(spacing, maximum) * spacing)
  {
    var tick := HighGroup(spacing, maximum) * spacing;
    Pool(Price(Engine.Clmm, tick), 1, tick, spacing, feeRate)
  }

  function LimitOf(spacing: Pos): int
    requires InRange(LowGroup(spacing) * spacing)
  {
    Price(Engine.Clmm, LowGroup(spacing) * spacing)
  }

  function ConfigOf(spacing: Pos, feeRate: FeeRate, control: nat, maximum: int): Config
    requires InRange(LowGroup(spacing) * spacing)
  {
    Config(spacing, feeRate, NO_TICKS, LimitOf(spacing), true, true, Dynamic(LowGroup(spacing), 0, maximum, control))
  }

  function StartOf(spacing: Pos, maximum: int): State
    requires InRange(HighGroup(spacing, maximum) * spacing)
  {
    var tick := HighGroup(spacing, maximum) * spacing;
    State(Price(Engine.Clmm, tick), tick, 1, AMOUNT, 0, [], HighGroup(spacing, maximum))
  }

  lemma Prices(spacing: Pos, maximum: int)
    requires spacing <= 65535 && 0 < maximum && maximum * spacing <= 0xFFFF_FFFF
    ensures InRange(LowGroup(spacing) * spacing) && InRange(HighGroup(spacing, maximum) * spacing)
    ensures MIN_SQRT_PRICE < LimitOf(spacing) < StartOf(spacing, maximum).current < MaxSqrtPrice(Engine.Clmm)
  {
    Places(spacing, maximum);
    hide Price, HighGroup;
    PriceBounds(Engine.Clmm);
    PriceIncreases(Engine.Clmm, MIN_TICK, LowGroup(spacing) * spacing);
    PriceIncreases(Engine.Clmm, LowGroup(spacing) * spacing, HighGroup(spacing, maximum) * spacing);
    PriceIncreases(Engine.Clmm, HighGroup(spacing, maximum) * spacing, MAX_TICK);
  }

  lemma Starts(spacing: Pos, feeRate: int, control: int, maximum: int)
    requires ValidParameters(spacing, feeRate, control, maximum) && 0 < maximum
    requires InRange(LowGroup(spacing) * spacing) && InRange(HighGroup(spacing, maximum) * spacing)
    ensures Prepare(PoolOf(spacing, feeRate, maximum), NO_TICKS, AMOUNT, LimitOf(spacing), 0,
                    Some(AccountOf(spacing, control, maximum)), 0, true)
         == Ok((ConfigOf(spacing, feeRate, control, maximum), StartOf(spacing, maximum)))
    ensures Storable(AccountOf(spacing, control, maximum))
    ensures Coherent(Engine.Clmm, PoolOf(spacing, feeRate, maximum).sqrtPrice, PoolOf(spacing, feeRate, maximum).tickCurrent)
  {
    Prices(spacing, maximum);
    Places(spacing, maximum);
    hide Price, HighGroup, LowGroup;
    CoherentAt(Engine.Clmm, HighGroup(spacing, maximum) * spacing);
    GroupOfMultiple(HighGroup(spacing, maximum), spacing);
    hide Coherent;
    assert InitialOrders(NO_TICKS) == [];
    assert Power(256, 2) == 65536 && Power(256, 4) == 0x1_0000_0000 && Power(256, 8) > 0;
    hide InitialOrders, Power;
  }

  /** The high group is charged more than the low one, and a pass leaves it freely. */
  lemma Fees(spacing: Pos, feeRate: int, control: int, maximum: int)
    requires ValidParameters(spacing, feeRate, control, maximum) && 0 < maximum && feeRate < FEE_CAP
    requires InRange(LowGroup(spacing) * spacing)
    ensures
      var cfg, high := ConfigOf(spacing, feeRate, control, maximum), HighGroup(spacing, maximum);
      && FeeAt(cfg, LowGroup(spacing)) == feeRate < FeeAt(cfg, high) <= FEE_CAP
      && Skips(cfg, high, 1)
  {
    Places(spacing, maximum);
    hide HighGroup, LowGroup, Price;
    VariableFeePositive(control, maximum * spacing);
    assert VariableFee(control, 0) == 0;
    hide VariableFee;
  }

  lemma VariableFeePositive(control: Pos, crossed: Pos)
    ensures 0 < VariableFee(control, crossed)
  {
    MulStrict(0, crossed, crossed);
    MulStrict(0, crossed * crossed, control);
    assert control * crossed * crossed == crossed * crossed * control;
    CeilLe(control * crossed * crossed, 10000000000000, 0);
  }

  /** One unit of liquidity moves to any lower price for a small part of the input. */
  lemma UnitStep(current: nat, target: nat, fee: FeeRate)
    requires MIN_SQRT_PRICE <= target < current <= MaxSqrtPrice(Engine.Clmm) && fee <= FEE_CAP
    ensures
      var step := SwapStep(current, target, 1, AMOUNT, fee, true);
      && step.Ok? && step.value.sqrtPrice == target && 0 <= step.value.amountOut <= U64
      && 0 <= step.value.amountIn + step.value.fee <= AMOUNT
  {
    hide SwapStep, EndPrice, Cost, NetOfFee, FeeOnTop;
    MulMono(MIN_SQRT_PRICE, target, COST);
    MulMono(2 * Q64, COST * target, current);
    CostDown(current, target, 1, COST);
    NetOfFeeGe(AMOUNT, fee, COST);
    EndPriceIsFurthest(current, target, target, 1, NetOfFee(AMOUNT, fee), true);
    FloorGe(Numerator(1, target, current, false), Q64, COST);
    hide Yield;
    StepSucceeds(current, target, 1, AMOUNT, fee, true);
    StepMeaning(current, target, 1, AMOUNT, fee, true);
    StepBudget(current, target, 1, AMOUNT, fee, true);
  }

  /** The setting of the one pass: no ticks, one unit of liquidity, a saturated group. */
  predicate Downhill(cfg: Config, s: State) {
    && cfg.ticks == [] && s.orders == [] && cfg.down && cfg.inputFee && InRange(s.tick)
    && s.liquidity == 1 && s.remaining == AMOUNT && s.output == 0 && Skips(cfg, s.group, 1)
    && MIN_SQRT_PRICE < cfg.limit < s.current < MaxSqrtPrice(Engine.Clmm) && FeeAt(cfg, s.group) <= FEE_CAP
  }

  lemma OneMove(cfg: Config, s: State)
    requires Downhill(cfg, s)
    ensures Next(cfg, s) == None && NextTick(cfg, s) == MIN_TICK
    ensures Bound(cfg, s.group, s.liquidity, cfg.limit) == cfg.limit
    ensures Move(cfg, s, cfg.limit, FeeAt(cfg, s.group)).Ok?
    ensures Move(cfg, s, cfg.limit, FeeAt(cfg, s.group)).value.current == cfg.limit
  {
    UnitStep(s.current, cfg.limit, FeeAt(cfg, s.group));
    hide SwapStep, FeeAt, Skips, MaxSqrtPrice;
  }

  /** With no tick in the way, one saturated pass runs to the limit. */
  lemma OnePass(cfg: Config, s: State)
    requires Downhill(cfg, s)
    ensures Iterate(cfg, s).Ok? && !Iterate(cfg, s).value.stopped && Iterate(cfg, s).value.state.current == cfg.limit
    ensures Run(cfg, s, BUDGET).Ok?
  {
    hide Price, SwapStep, FeeAt, Skips, MaxSqrtPrice, Next, NextTick, TickAt, Move, Bound;
    PriceBounds(Engine.Clmm);
    OneMove(cfg, s);
    assert PriceInRange(Engine.Clmm, cfg.limit) && TickAt(Engine.Clmm, cfg.limit).Ok?;
    var s' := Iterate(cfg, s).value.state;
    assert s'.current == cfg.limit;
    hide Iterate;
    assert Run(cfg, s', BUDGET - 1).Ok?;
  }

  /** A pass that goes down to the start of the low group moves through that group. */
  lemma ReachesLowGroup(cfg: Config, low: int, from: int, fee: int)
    requires MIN_TICK <= low * cfg.spacing < MAX_TICK && Price(Engine.Clmm, low * cfg.spacing) < from
    requires FeeAt(cfg, low) != fee
    ensures !Faithful(cfg, from, Price(Engine.Clmm, low * cfg.spacing), fee)
  {
    hide Price, FeeAt;
    var t := low * cfg.spacing;
    PriceIncreases(Engine.Clmm, t, t + 1);
    GroupOfMultiple(low, cfg.spacing);
    assert Traversed(Engine.Clmm, t, from, Price(Engine.Clmm, t));
  }

  /** From the saturated high group the first pass also moves through the low one, which
      is charged less. */
  lemma InwardPass(spacing: Pos, feeRate: FeeRate, control: nat, maximum: int)
    requires ValidParameters(spacing, feeRate, control, maximum) && 0 < maximum && feeRate < FEE_CAP
    requires InRange(LowGroup(spacing) * spacing) && InRange(HighGroup(spacing, maximum) * spacing)
    ensures
      var cfg, s := ConfigOf(spacing, feeRate, control, maximum), StartOf(spacing, maximum);
      && Run(cfg, s, BUDGET).Ok? && !Finished(cfg, s) && s.liquidity != 0 && Iterate(cfg, s).Ok?
      && Iterate(cfg, s).value.state.current != s.current
      && !Faithful(cfg, s.current, Iterate(cfg, s).value.state.current, FeeAt(cfg, s.group))
  {
    hide HighGroup, LowGroup, Price, FeeAt, Skips, Run, Iterate, Faithful;
    Prices(spacing, maximum);
    Fees(spacing, feeRate, control, maximum);
    Places(spacing, maximum);
    var cfg, s := ConfigOf(spacing, feeRate, control, maximum), StartOf(spacing, maximum);
    OnePass(cfg, s);
    ReachesLowGroup(cfg, LowGroup(spacing), s.current, FeeAt(cfg, s.group));
  }

  lemma InwardSwap(spacing: Pos, feeRate: int, control: int, maximum: int)
    requires ValidParameters(spacing, feeRate, control, maximum) && 0 < maximum && feeRate < FEE_CAP
    ensures !AlwaysFaithful(spacing, feeRate, control, maximum)
  {
    hide HighGroup, LowGroup, Price, Prepare, FeeAt, Skips, Run, Iterate, Storable, Coherent, Faithful, Power,
      StartOf, ConfigOf, LimitOf;
    Prices(spacing, maximum);
    Starts(spacing, feeRate, control, maximum);
    InwardPass(spacing, feeRate, control, maximum);
    VisitedStart(ConfigOf(spacing, feeRate, control, maximum), StartOf(spacing, maximum));
    var pool, account := PoolOf(spacing, feeRate, maximum), AccountOf(spacing, control, maximum);
    assert Swap(pool, NO_TICKS, AMOUNT, LimitOf(spacing), 0, Some(account), 0, true).Ok?;
    assert !PassIsFaithful(pool, NO_TICKS, AMOUNT, LimitOf(spacing), 0, account, 0, true, 0);
  }

  /** Every pass of every swap charges each price its own group's fee exactly when no group
      can be charged more than another: there is no room for volatility, or the pool's own
      fee is at the cap. */
  lemma AlwaysFaithfulExactly(spacing: int, feeRate: int, control: int, maximum: int)
    requires ValidParameters(spacing, feeRate, control, maximum)
    ensures AlwaysFaithful(spacing, feeRate, control, maximum) <==> maximum == 0 || feeRate >= FEE_CAP
  {
    if maximum == 0 || feeRate >= FEE_CAP {
      hide Prepare, Run, Storable, Coherent, PassIsFaithful;
      forall pool: Pool, ticks: seq<Tick>, amount: int, limit: int, feeOn: int, dynamic: DynamicFee, timestamp: int,
          down: bool, k: nat
        | && pool.tickSpacing == spacing && pool.feeRate == feeRate
          && dynamic.control == control && dynamic.maximum == maximum && Storable(dynamic)
          && Coherent(Engine.Clmm, pool.sqrtPrice, pool.tickCurrent)
          && Swap(pool, ticks, amount, limit, feeOn, Some(dynamic), timestamp, down).Ok?
        ensures PassIsFaithful(pool, ticks, amount, limit, feeOn, dynamic, timestamp, down, k)
      {
        FlatIsFaithful(pool, ticks, amount, limit, feeOn, dynamic, timestamp, down, k);
      }
    } else {
      InwardSwap(spacing, feeRate, control, maximum);
    }
  }
}
