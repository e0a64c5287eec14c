/** The fee rates of a Whirlpool swap, from the pool and the adaptive-fee account: the
    reference that is carried over, the rate of each group and of the first pass, how tight
    the core band is, and the totals a swap reports. */
module WhirlpoolRule {
  import opened Results
  import opened Rounding
  import opened Sorting
  import opened TickPrice
  import opened LiquidityStep
  import opened TickBook
  import opened TickGroups
  import opened Whirlpool
  import opened WhirlpoolPass
  import opened WhirlpoolLedger
  import opened WhirlpoolGroups

  /** Seconds since the account's later timestamp. */
  function Elapsed(a: AdaptiveFee, timestamp: int): int {
    timestamp - Max(a.lastReferenceTimestamp, a.lastMajorSwapTimestamp)
  }

  /** The account's reference is too old to count. */
  predicate Stale(a: AdaptiveFee, timestamp: int) {
    a.lastReferenceTimestamp + 3600 < timestamp || a.decayPeriod <= Elapsed(a, timestamp)
  }

  /** The reference group and volatility that an account carries into a swap at `timestamp`:
      the pool's group and nothing when stale, the pool's group and the reduced volatility
      from the filter period on, and its own before. */
  predicate Carried(a: AdaptiveFee, tick: int, timestamp: int, reference: int, volatility: int) {
    if Stale(a, timestamp) || a.filterPeriod <= Elapsed(a, timestamp) then
      && reference * a.tickGroupSize <= tick < (reference + 1) * a.tickGroupSize
      && if Stale(a, timestamp) then volatility == 0
         else volatility * 10000 <= a.volatility * a.reductionFactor < (volatility + 1) * 10000
    else reference == a.referenceGroup && volatility == a.volatilityReference
  }

  /** What an account settles to, and that it is refused only when invalid, from the future,
      or carrying more than its maximum. */
  lemma SettleMeaning(a: AdaptiveFee, tick: int, timestamp: int)
    ensures SettleRule(a, tick, timestamp).Ok? ==>
      var rule := SettleRule(a, tick, timestamp).value;
      && rule.Adaptive? && rule.groupSize == a.tickGroupSize
      && rule.maximum == a.maximumVolatility && rule.control == a.controlFactor
      && Carried(a, tick, timestamp, rule.reference, rule.volatilityReference)
      && 0 <= rule.volatilityReference <= rule.maximum
    ensures SettleRule(a, tick, timestamp).Err? ==>
      || !ValidAdaptive(a) || Elapsed(a, timestamp) < 0
      || (!Stale(a, timestamp) && a.filterPeriod <= Elapsed(a, timestamp)
          && (a.maximumVolatility + 1) * 10000 <= a.volatility * a.reductionFactor)
  {
    FloorBounds(a.volatility * a.reductionFactor, 10000);
    if ValidAdaptive(a) {
      GroupBounds(tick, a.tickGroupSize);
      MulMono(0, a.volatility, a.reductionFactor);
      FloorGe(a.volatility * a.reductionFactor, 10000, 0);
      FloorGe(a.volatility * a.reductionFactor, 10000, a.maximumVolatility + 1);
    }
    hide Ceil, ValidAdaptive;
  }

  // ----- rates -----

  /** `fee` is the rate of a group whose volatility is `volatility` before its maximum: the
      least one that covers the pool's rate and the variable part, and a tenth at most. */
  predicate RateOf(fee: int, feeRate: int, control: int, volatility: int, maximum: int, size: int) {
    var crossed := (if volatility < maximum then volatility else maximum) * size;
    && feeRate <= fee <= 100000
    && (fee < 100000 ==> control * (crossed * crossed) <= (fee - feeRate) * 10000000000000)
    && (feeRate < fee ==> (fee - 1 - feeRate) * 10000000000000 < control * (crossed * crossed))
  }

  lemma FeeAtMeaning(cfg: Config, group: int)
    requires 0 <= cfg.feeRate <= 65535 && (cfg.rule.Adaptive? ==> 0 <= cfg.rule.control)
    ensures cfg.rule.Static? ==> FeeAt(cfg, group) == cfg.feeRate
    ensures cfg.rule.Adaptive? ==>
      RateOf(FeeAt(cfg, group), cfg.feeRate, cfg.rule.control,
             cfg.rule.volatilityReference + Abs(cfg.rule.reference - group) * 10000, cfg.rule.maximum, cfg.rule.groupSize)
  {
    if cfg.rule.Adaptive? {
      var crossed := Volatility(cfg.rule, group) * cfg.rule.groupSize;
      CeilBounds(cfg.rule.control * crossed * crossed, 10000000000000);
      CeilLe(cfg.rule.control * crossed * crossed, 10000000000000, -1);
      SquareIsNat(crossed);
      MulMono(0, crossed * crossed, cfg.rule.control);
      assert cfg.rule.control * crossed * crossed == cfg.rule.control * (crossed * crossed);
      hide Ceil;
    }
  }

  lemma SquareIsNat(n: int)
    ensures 0 <= n * n
  {
  }

  /** The rate of the first pass of a swap under an adaptive fee, and so the one that its
      reported rates include. */
  lemma FirstPassRate(
      pool: Pool, ticks: seq<Tick>, arrayStarts: seq<int>, amount: int, timestamp: int, down: bool,
      a: AdaptiveFee, limit: int) returns (reference: int, volatility: int, group: int)
    requires Prepare(pool, ticks, arrayStarts, amount, timestamp, down, Some(a), limit).Ok?
    ensures
      var (cfg, start) := Prepare(pool, ticks, arrayStarts, amount, timestamp, down, Some(a), limit).value;
      && group * a.tickGroupSize <= pool.tickCurrent < (group + 1) * a.tickGroupSize
      && Carried(a, pool.tickCurrent, timestamp, reference, volatility)
      && RateOf(RateAt(cfg, start, 0), pool.feeRate, a.controlFactor,
                volatility + Abs(reference - group) * 10000, a.maximumVolatility, a.tickGroupSize)
  {
    hide Carried, RateOf, FeeAt, Prepare, ValidAdaptive;
    var (cfg, start) := Prepare(pool, ticks, arrayStarts, amount, timestamp, down, Some(a), limit).value;
    StartMeaning(pool, ticks, arrayStarts, amount, timestamp, down, Some(a), limit);
    StartRule(pool, ticks, arrayStarts, amount, timestamp, down, Some(a), limit);
    SettleMeaning(a, pool.tickCurrent, timestamp);
    assert 0 <= cfg.rule.control by {
      SettledControl(a, pool.tickCurrent, timestamp);
    }
    FeeAtMeaning(cfg, start.group);
    GroupBounds(pool.tickCurrent, a.tickGroupSize);
    VisitedStart(cfg, start);
    reference, volatility, group := cfg.rule.reference, cfg.rule.volatilityReference, start.group;
  }

  lemma SettledControl(a: AdaptiveFee, tick: int, timestamp: int)
    requires SettleRule(a, tick, timestamp).Ok?
    ensures SettleRule(a, tick, timestamp).value.Adaptive? && 0 <= SettleRule(a, tick, timestamp).value.control
  {
    hide Ceil, Max;
  }

  lemma BandEdges(a: AdaptiveFee, tick: int, timestamp: int)
    requires SettleRule(a, tick, timestamp).Ok?
    ensures
      var rule := SettleRule(a, tick, timestamp).value;
      && rule.Adaptive?
      && var distance := Ceil(rule.maximum - rule.volatilityReference, 10000);
      && rule.lowerGroup == (if (rule.reference - distance) * rule.groupSize > MIN_TICK then Some(rule.reference - distance) else None)
      && rule.upperGroup
         == if (rule.reference + distance + 1) * rule.groupSize < MAX_TICK then Some(rule.reference + distance) else None
  {
    hide Ceil, ValidAdaptive, Max;
  }

  lemma VolatilityInside(rule: FeeRule, distance: int, g: int)
    requires rule.Adaptive? && (distance - 1) * 10000 < rule.maximum - rule.volatilityReference
    requires rule.reference - distance < g < rule.reference + distance
    ensures Volatility(rule, g) < rule.maximum
  {
  }

  /** The core band is no wider than it must be: just inside either edge volatility is below
      its maximum, and an edge is missing only where it leaves no room in the tick range. */
  lemma BandIsTight(a: AdaptiveFee, tick: int, timestamp: int, g: int)
    requires SettleRule(a, tick, timestamp).Ok?
    ensures
      var rule := SettleRule(a, tick, timestamp).value;
      && rule.Adaptive?
      && (rule.lowerGroup.Some? && rule.lowerGroup.value < g <= rule.reference ==> Volatility(rule, g) < rule.maximum)
      && (rule.upperGroup.Some? && rule.reference <= g < rule.upperGroup.value ==> Volatility(rule, g) < rule.maximum)
      && (rule.lowerGroup.None? && g <= rule.reference && MIN_TICK < g * rule.groupSize ==> Volatility(rule, g) < rule.maximum)
      && (rule.upperGroup.None? && rule.reference <= g && (g + 1) * rule.groupSize < MAX_TICK ==>
            Volatility(rule, g) < rule.maximum)
  {
    hide Ceil, SettleRule, Volatility;
    BandEdges(a, tick, timestamp);
    var rule := SettleRule(a, tick, timestamp).value;
    var distance := Ceil(rule.maximum - rule.volatilityReference, 10000);
    CeilBounds(rule.maximum - rule.volatilityReference, 10000);
    if rule.reference - distance < g < rule.reference + distance {
      VolatilityInside(rule, distance, g);
    } else if g <= rule.reference - distance {
      MulMono(g, rule.reference - distance, rule.groupSize);
      if rule.reference + distance <= g {
        MulMono(rule.reference + distance + 1, g + 1, rule.groupSize);
      }
    } else {
      MulMono(rule.reference + distance + 1, g + 1, rule.groupSize);
    }
  }

  /** Where nothing is in range or nothing varies, a pass goes straight to its target and on
      from there, leaving its group. */
  lemma FreePass(cfg: Config, group: int, liquidity: int, target: int)
    ensures cfg.rule.Static? || cfg.rule.control == 0 || liquidity == 0 ==>
      ChargeFor(cfg, group, liquidity, target) == Ok(Charge(FeeAt(cfg, group), target, cfg.rule.Adaptive?))
  {
    hide Price, Volatility;
  }

  // ----- what a swap reports -----

  /** A swap reports the state its run ended in, and the least and greatest rate of the
      passes it made, of which there is at least one. */
  lemma SwapReports(
      pool: Pool, ticks: seq<Tick>, arrayStarts: seq<int>, amount: int, timestamp: int, down: bool,
      adaptive: Option<AdaptiveFee>, limit: int) returns (k: nat)
    requires Swap(pool, ticks, arrayStarts, amount, timestamp, down, adaptive, limit).Ok?
    ensures
      var (cfg, start) := Prepare(pool, ticks, arrayStarts, amount, timestamp, down, adaptive, limit).value;
      var r := Swap(pool, ticks, arrayStarts, amount, timestamp, down, adaptive, limit).value;
      && 0 < k && Visited(cfg, start, k).Ok?
      && var end := Visited(cfg, start, k).value;
      && Finished(cfg, end)
      && r.consumed + end.remaining == amount && r.amountOut == end.output && r.fee == end.fees
      && r.sqrtPrice == end.current && r.tickCurrent == end.tick && r.liquidity == end.liquidity
      && (forall j: nat :: j < k ==> Visited(cfg, start, j).Ok? && r.minimumFeeRate <= RateAt(cfg, start, j) <= r.maximumFeeRate)
      && (exists j: nat :: j < k && r.minimumFeeRate == RateAt(cfg, start, j))
      && (exists j: nat :: j < k && r.maximumFeeRate == RateAt(cfg, start, j))
  {
    hide Prepare, Iterate, Run, Visited, RateAt;
    StartMeaning(pool, ticks, arrayStarts, amount, timestamp, down, adaptive, limit);
    var (cfg, start) := Prepare(pool, ticks, arrayStarts, amount, timestamp, down, adaptive, limit).value;
    VisitedStart(cfg, start);
    k := RunVisits(cfg, start, 0, start, BUDGET);
    FeeRatesSpan(cfg, start, k);
  }

  /** A run from a loop head within the budget succeeds exactly when the run is over, here or
      at a later head within the budget. */
  lemma {:induction false} RunSucceeds(cfg: Config, start: State, k: nat, budget: nat)
    requires Visited(cfg, start, k).Ok?
    ensures Run(cfg, Visited(cfg, start, k).value, budget).Ok? <==>
      exists j: nat :: k <= j < k + budget && Visited(cfg, start, j).Ok? && Finished(cfg, Visited(cfg, start, j).value)
    decreases budget
  {
    hide Iterate, Finished;
    var s := Visited(cfg, start, k).value;
    if budget > 0 && !Finished(cfg, s) {
      var next := Visited(cfg, start, k + 1);
      assert next == Iterate(cfg, s);
      if next.Ok? {
        RunSucceeds(cfg, start, k + 1, budget - 1);
      } else {
        forall j: nat | k < j && Visited(cfg, start, j).Ok?
          ensures false
        {
          NoneAfter(cfg, start, k + 1, j);
        }
      }
    }
  }

  lemma {:induction false} NoneAfter(cfg: Config, start: State, k: nat, j: nat)
    requires Visited(cfg, start, k).Err? && k <= j
    ensures Visited(cfg, start, j).Err?
  {
    hide Iterate;
    if k < j {
      NoneAfter(cfg, start, k, j - 1);
    }
  }

  /** A swap succeeds exactly when it is set up and over before its 8192nd pass. */
  lemma SwapSucceeds(
      pool: Pool, ticks: seq<Tick>, arrayStarts: seq<int>, amount: int, timestamp: int, down: bool,
      adaptive: Option<AdaptiveFee>, limit: int)
    ensures
      var prepared := Prepare(pool, ticks, arrayStarts, amount, timestamp, down, adaptive, limit);
      Swap(pool, ticks, arrayStarts, amount, timestamp, down, adaptive, limit).Ok? <==>
        && prepared.Ok?
        && var (cfg, start) := prepared.value;
        exists k: nat :: k < 8192 && Visited(cfg, start, k).Ok? && Finished(cfg, Visited(cfg, start, k).value)
  {
    hide Prepare, Iterate, Run, Visited, Finished;
    var prepared := Prepare(pool, ticks, arrayStarts, amount, timestamp, down, adaptive, limit);
    if prepared.Ok? {
      var (cfg, start) := prepared.value;
      VisitedStart(cfg, start);
      RunSucceeds(cfg, start, 0, BUDGET);
    }
  }

  /** The output is no better than the starting price on what is left after the reported fee. */
  lemma SwapPaysReportedFee(
      pool: Pool, ticks: seq<Tick>, arrayStarts: seq<int>, amount: int, timestamp: int, down: bool,
      adaptive: Option<AdaptiveFee>, limit: int)
    requires Swap(pool, ticks, arrayStarts, amount, timestamp, down, adaptive, limit).Ok?
    ensures
      var r := Swap(pool, ticks, arrayStarts, amount, timestamp, down, adaptive, limit).value;
      NoBetter(r.consumed - r.fee, r.amountOut, pool.sqrtPrice, down)
  {
    hide Prepare, Iterate, Run, Visited, NoBetter, RateAt;
    StartMeaning(pool, ticks, arrayStarts, amount, timestamp, down, adaptive, limit);
    StartLedger(pool, ticks, arrayStarts, amount, timestamp, down, adaptive, limit);
    var (cfg, start) := Prepare(pool, ticks, arrayStarts, amount, timestamp, down, adaptive, limit).value;
    var k := SwapReports(pool, ticks, arrayStarts, amount, timestamp, down, adaptive, limit);
    VisitedPaysFees(cfg, pool.sqrtPrice, amount, start, k);
  }

  lemma {:induction false} VisitedPaysFees(cfg: Config, spot: int, amount: int, start: State, k: nat)
    requires Ledger(cfg, spot, amount, start) && start.remaining == amount && start.fees == 0 && start.output == 0
    requires Visited(cfg, start, k).Ok?
    ensures
      var s := Visited(cfg, start, k).value;
      NoBetter(amount - s.remaining - s.fees, s.output, spot, cfg.down)
  {
    hide Iterate, Ledger, NoBetter, SwapStep, ChargeFor, FeeAt, NextTick, NextIndex, PriceAt, Cross, NextGroup, Loaded;
    if k == 0 {
      NothingIsFair(spot, cfg.down);
    } else {
      VisitedPaysFees(cfg, spot, amount, start, k - 1);
      VisitedKeepsLedger(cfg, spot, amount, start, k - 1);
      var s := Visited(cfg, start, k - 1).value;
      assert 0 < spot && Within(spot, s.current, cfg.down) by {
        LedgerPrice(cfg, spot, amount, s);
      }
      var next, index, nextPrice, charge, step := PassMeaning(cfg, s);
      StepNoBetter(s.current, charge.bound, s.liquidity, s.remaining, charge.fee, cfg.down, spot);
      NoBetterAdds(amount - s.remaining - s.fees, s.output, step.amountIn, step.amountOut, spot, cfg.down);
    }
  }

  lemma LedgerPrice(cfg: Config, spot: int, amount: int, s: State)
    requires Ledger(cfg, spot, amount, s)
    ensures 0 < spot && Within(spot, s.current, cfg.down)
  {
  }

  lemma NothingIsFair(spot: int, down: bool)
    ensures NoBetter(0, 0, spot, down)
  {
  }

  // ----- the loaded arrays -----

  /** The tick has not left the supplied arrays in the direction of the trade. */
  predicate Reached(cfg: Config, tick: int) {
    if cfg.down then cfg.lower - 1 <= tick else tick <= cfg.upper
  }

  ghost predicate TicksLoaded(cfg: Config) {
    forall i :: 0 <= i < |cfg.ticks| ==> cfg.lower <= cfg.ticks[i].tick <= cfg.upper
  }

  lemma PassStaysLoaded(cfg: Config, s: State)
    requires TicksLoaded(cfg) && cfg.lower <= cfg.upper && Iterate(cfg, s).Ok?
    ensures Reached(cfg, Iterate(cfg, s).value.tick)
  {
    hide Iterate, Loaded, ChargeFor, SwapStep, NextGroup, Price;
    var next, index, nextPrice, charge, step := PassMeaning(cfg, s);
    assert cfg.lower <= index <= cfg.upper;
    hide NextTick, NextIndex;
    ChargeMeaning(cfg, s.group, s.liquidity, Toward(nextPrice, cfg.limit, cfg.down));
    StepBudget(s.current, charge.bound, s.liquidity, s.remaining, charge.fee, cfg.down);
    if step.sqrtPrice != nextPrice && step.sqrtPrice != s.current {
      var tick := TickAt(Engine.Whirlpool, step.sqrtPrice).value;
      if cfg.down {
        if tick < MAX_TICK {
          PriceOrder(Engine.Whirlpool, tick + 1, index);
        }
      } else {
        PriceOrder(Engine.Whirlpool, tick, index);
      }
    }
    assert s.tick == Iterate(cfg, s).value.tick || Reached(cfg, Iterate(cfg, s).value.tick);
    PassIsLoaded(cfg, s);
    LoadedIsReached(cfg, s.tick);
  }

  lemma LoadedIsReached(cfg: Config, tick: int)
    requires Loaded(cfg, tick)
    ensures Reached(cfg, tick)
  {
  }

  lemma StartLoaded(
      pool: Pool, ticks: seq<Tick>, arrayStarts: seq<int>, amount: int, timestamp: int, down: bool,
      adaptive: Option<AdaptiveFee>, limit: int)
    requires Prepare(pool, ticks, arrayStarts, amount, timestamp, down, adaptive, limit).Ok?
    ensures
      var cfg := Prepare(pool, ticks, arrayStarts, amount, timestamp, down, adaptive, limit).value.0;
      && TicksLoaded(cfg) && cfg.lower <= cfg.upper && cfg.down == down && 0 < pool.tickSpacing
      && Sort(arrayStarts, Itself) != []
      && Sort(arrayStarts, Itself)[0] <= cfg.lower
      && cfg.upper < Sort(arrayStarts, Itself)[|Sort(arrayStarts, Itself)| - 1] + ARRAY_TICKS * pool.tickSpacing
  {
    hide Sort, Ordered, Increasing, SettleRule, ValidLimit, ValidPool, EffectiveLimit;
    SortSorts(arrayStarts, Itself);
    assert ValidPool(pool, amount, timestamp);
    PositiveSpacing(pool, amount, timestamp);
    var starts := Sort(arrayStarts, Itself);
    assert ValidArrays(starts, ARRAY_TICKS * pool.tickSpacing);
    assert starts[0] in starts && starts[|starts| - 1] in starts;
    var cfg := Prepare(pool, ticks, arrayStarts, amount, timestamp, down, adaptive, limit).value.0;
    forall i | 0 <= i < |cfg.ticks|
      ensures cfg.lower <= cfg.ticks[i].tick <= cfg.upper
    {
      OrderedMembers(ticks, cfg.ticks[i]);
    }
  }

  lemma PositiveSpacing(pool: Pool, amount: int, timestamp: int)
    requires ValidPool(pool, amount, timestamp)
    ensures 0 < pool.tickSpacing <= 65535
  {
  }

  /** A swap ends within the arrays it was given: its tick lies below the end of some array
      upwards, and at most one tick before the start of some array downwards. */
  lemma SwapStaysLoaded(
      pool: Pool, ticks: seq<Tick>, arrayStarts: seq<int>, amount: int, timestamp: int, down: bool,
      adaptive: Option<AdaptiveFee>, limit: int) returns (start: int)
    requires Swap(pool, ticks, arrayStarts, amount, timestamp, down, adaptive, limit).Ok?
    ensures start in arrayStarts
    ensures
      var r := Swap(pool, ticks, arrayStarts, amount, timestamp, down, adaptive, limit).value;
      if down then start - 1 <= r.tickCurrent else r.tickCurrent < start + 88 * pool.tickSpacing
  {
    hide Prepare, Iterate, Run, Visited, RateAt, TicksLoaded, Sort;
    var k := SwapReports(pool, ticks, arrayStarts, amount, timestamp, down, adaptive, limit);
    StartLoaded(pool, ticks, arrayStarts, amount, timestamp, down, adaptive, limit);
    var (cfg, s) := Prepare(pool, ticks, arrayStarts, amount, timestamp, down, adaptive, limit).value;
    assert Visited(cfg, s, k - 1).Ok? && Iterate(cfg, Visited(cfg, s, k - 1).value) == Visited(cfg, s, k) by {
      LastPass(cfg, s, k);
    }
    PassStaysLoaded(cfg, Visited(cfg, s, k - 1).value);
    var starts := Sort(arrayStarts, Itself);
    SortSorts(arrayStarts, Itself);
    start := if down then starts[0] else starts[|starts| - 1];
    assert start in multiset(starts);
  }

  lemma LastPass(cfg: Config, start: State, k: nat)
    requires 0 < k && Visited(cfg, start, k).Ok?
    ensures Visited(cfg, start, k - 1).Ok? && Iterate(cfg, Visited(cfg, start, k - 1).value) == Visited(cfg, start, k)
  {
    hide Iterate;
  }
}
