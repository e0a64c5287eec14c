/** Adaptive fees are charged faithfully. A pass may skip over many tick groups at
    once; the results here say that every price it moves through is still charged
    the fee of the group that price lies in. */
module WhirlpoolGroups {
  import opened Results
  import opened Rounding
  import opened Sorting
  import opened TickPrice
  import opened LiquidityStep
  import opened TickBook
  import opened TickGroups
  import opened Whirlpool
  import opened WhirlpoolPass
  import opened WhirlpoolLedger
  import opened WhirlpoolBook

  // ----- the core band -----

  /** Volatility is at its maximum from either edge of the core band outwards. */
  ghost predicate BandSaturated(rule: FeeRule) {
    rule.Adaptive? ==>
      && (rule.lowerGroup.Some? ==> forall g :: g <= rule.lowerGroup.value ==> Volatility(rule, g) == rule.maximum)
      && (rule.upperGroup.Some? ==> forall g :: rule.upperGroup.value <= g ==> Volatility(rule, g) == rule.maximum)
  }

  lemma SettledBandSaturated(a: AdaptiveFee, tick: int, timestamp: int)
    requires SettleRule(a, tick, timestamp).Ok?
    ensures BandSaturated(SettleRule(a, tick, timestamp).value)
  {
    var rule := SettleRule(a, tick, timestamp).value;
    var distance := Ceil(a.maximumVolatility - rule.volatilityReference, 10000);
    CeilBounds(a.maximumVolatility - rule.volatilityReference, 10000);
    assert distance >= 0;
    assert rule.lowerGroup.Some? ==> rule.lowerGroup.value == rule.reference - distance;
    assert rule.upperGroup.Some? ==> rule.upperGroup.value == rule.reference + distance;
    hide SettleRule, Ceil, ValidAdaptive;
  }

  lemma SaturatedFee(cfg: Config, g: int, h: int)
    requires cfg.rule.Adaptive? && Volatility(cfg.rule, g) == Volatility(cfg.rule, h)
    ensures FeeAt(cfg, g) == FeeAt(cfg, h)
  {
    hide Volatility;
  }

  lemma UncontrolledFee(cfg: Config, g: int, h: int)
    requires cfg.rule.Adaptive? && cfg.rule.control == 0
    ensures FeeAt(cfg, g) == FeeAt(cfg, h)
  {
    hide Volatility;
  }

  /** Without control or room for volatility every group is charged the same. */
  predicate Flat(adaptive: Option<AdaptiveFee>) {
    adaptive.Some? ==> adaptive.value.controlFactor == 0 || adaptive.value.maximumVolatility == 0
  }

  lemma FlatFee(cfg: Config, a: AdaptiveFee, tick: int, timestamp: int, g: int, h: int)
    requires SettleRule(a, tick, timestamp) == Ok(cfg.rule) && Flat(Some(a))
    ensures FeeAt(cfg, g) == FeeAt(cfg, h)
  {
    MulMono(0, a.volatility, a.reductionFactor);
    FloorGe(a.volatility * a.reductionFactor, 10000, 0);
    assert 0 <= cfg.rule.volatilityReference && cfg.rule.maximum == a.maximumVolatility && cfg.rule.control == a.controlFactor;
    hide SettleRule, FeeAt;
    if a.controlFactor == 0 {
      UncontrolledFee(cfg, g, h);
    } else {
      SaturatedFee(cfg, g, h);
    }
  }

  function GroupOf(rule: FeeRule, tick: int): int {
    match rule
    case Static => 0
    case Adaptive(size, _, _, _, _, _, _) => tick / size
  }

  /** Every tick a move passes through is charged the fee of its own group. */
  ghost predicate Faithful(cfg: Config, from: int, to: int, fee: int) {
    forall t :: Traversed(Engine.Whirlpool, t, from, to) ==> FeeAt(cfg, GroupOf(cfg.rule, t)) == fee
  }

  /** The initialized ticks ahead lie beyond the group. */
  ghost predicate BeyondGroup(ticks: seq<Tick>, size: Pos, group: int, tick: int, down: bool) {
    forall i :: 0 <= i < |ticks| && Ahead(ticks[i], tick, down) ==>
      if down then ticks[i].tick <= group * size else (group + 1) * size <= ticks[i].tick
  }

  ghost predicate Grouped(cfg: Config, s: State) {
    cfg.rule.Adaptive? ==>
      && GroupReachable(cfg.rule.groupSize, s.group, cfg.down)
      && InGroup(Engine.Whirlpool, cfg.rule.groupSize, s.group, s.current)
      && BeyondGroup(cfg.ticks, cfg.rule.groupSize, s.group, s.tick, cfg.down)
  }

  /** A move inside one group is charged faithfully. */
  lemma FaithfulInGroup(cfg: Config, group: int, from: int, to: int)
    requires cfg.rule.Adaptive?
    requires InGroup(Engine.Whirlpool, cfg.rule.groupSize, group, from) && InGroup(Engine.Whirlpool, cfg.rule.groupSize, group, to)
    ensures Faithful(cfg, from, to, FeeAt(cfg, group))
  {
    hide Price, FeeAt;
    var size := cfg.rule.groupSize;
    forall t | Traversed(Engine.Whirlpool, t, from, to)
      ensures FeeAt(cfg, GroupOf(cfg.rule, t)) == FeeAt(cfg, group)
    {
      BelowBound(Engine.Whirlpool, t, (group + 1) * size);
      AboveBound(Engine.Whirlpool, t, group * size);
      GroupLe(t, group, size);
      GroupLe(t, group + 1, size);
    }
  }

  /** A move that leaves its group below the core band. */
  lemma FaithfulBelow(cfg: Config, group: int, from: int, to: int)
    requires cfg.rule.Adaptive? && BandSaturated(cfg.rule)
    requires cfg.rule.lowerGroup.Some? && group < cfg.rule.lowerGroup.value
    requires
      var reach := if cfg.down then group + 1 else cfg.rule.lowerGroup.value;
      Max(from, to) <= Edge(Engine.Whirlpool, reach, cfg.rule.groupSize)
    ensures Faithful(cfg, from, to, FeeAt(cfg, group))
  {
    hide Price, FeeAt;
    var size := cfg.rule.groupSize;
    var reach := if cfg.down then group + 1 else cfg.rule.lowerGroup.value;
    forall t | Traversed(Engine.Whirlpool, t, from, to)
      ensures FeeAt(cfg, GroupOf(cfg.rule, t)) == FeeAt(cfg, group)
    {
      BelowBound(Engine.Whirlpool, t, reach * size);
      GroupLe(t, reach, size);
      SaturatedFee(cfg, GroupOf(cfg.rule, t), group);
    }
  }

  /** A move that leaves its group above the core band. */
  lemma FaithfulAbove(cfg: Config, group: int, from: int, to: int)
    requires cfg.rule.Adaptive? && BandSaturated(cfg.rule)
    requires cfg.rule.upperGroup.Some? && group > cfg.rule.upperGroup.value
    requires
      var reach := if cfg.down then cfg.rule.upperGroup.value + 1 else group;
      Edge(Engine.Whirlpool, reach, cfg.rule.groupSize) <= Min(from, to)
    ensures Faithful(cfg, from, to, FeeAt(cfg, group))
  {
    hide Price, FeeAt;
    var size := cfg.rule.groupSize;
    var reach := if cfg.down then cfg.rule.upperGroup.value + 1 else group;
    forall t | Traversed(Engine.Whirlpool, t, from, to)
      ensures FeeAt(cfg, GroupOf(cfg.rule, t)) == FeeAt(cfg, group)
    {
      AboveBound(Engine.Whirlpool, t, reach * size);
      GroupLe(t, reach, size);
      SaturatedFee(cfg, GroupOf(cfg.rule, t), group);
    }
  }

  // ----- one pass -----

  /** Where a pass may move to, and why it may skip groups. */
  lemma ChargeCases(cfg: Config, group: int, liquidity: int, target: int)
    requires cfg.rule.Adaptive? && ChargeFor(cfg, group, liquidity, target).Ok?
    ensures
      var size, lower, upper := cfg.rule.groupSize, cfg.rule.lowerGroup, cfg.rule.upperGroup;
      var charge := ChargeFor(cfg, group, liquidity, target).value;
      if !charge.skipped then
        charge.bound == Toward(target, Edge(Engine.Whirlpool, if cfg.down then group else group + 1, size), cfg.down)
      else
        || ((cfg.rule.control == 0 || liquidity == 0) && charge.bound == target)
        || (lower.Some? && group < lower.value
            && if cfg.down then charge.bound == target
               else InRange(lower.value * size) && charge.bound == Min(target, Edge(Engine.Whirlpool, lower.value, size)))
        || (upper.Some? && upper.value < group
            && if cfg.down then InRange((upper.value + 1) * size) && charge.bound == Max(target, Edge(Engine.Whirlpool, upper.value + 1, size))
               else charge.bound == target)
  {
    hide Price, FeeAt, Volatility;
  }

  /** The groups a pass that skips outside the core band may move through: outwards
      without end, inwards to the edge of the band. */
  predicate Skipped(rule: FeeRule, group: int, g: int, down: bool)
    requires rule.Adaptive?
  {
    if rule.lowerGroup.Some? && group < rule.lowerGroup.value then
      if down then g <= group else group <= g <= rule.lowerGroup.value
    else if rule.upperGroup.Some? && rule.upperGroup.value < group then
      if down then rule.upperGroup.value <= g <= group else group <= g
    else false
  }

  /** The core band surrounds the reference group. */
  lemma SettledBand(a: AdaptiveFee, tick: int, timestamp: int)
    requires SettleRule(a, tick, timestamp).Ok?
    ensures
      var rule := SettleRule(a, tick, timestamp).value;
      && rule.Adaptive? && rule.control == a.controlFactor
      && (rule.lowerGroup.Some? ==> rule.lowerGroup.value <= rule.reference)
      && (rule.upperGroup.Some? ==> rule.reference <= rule.upperGroup.value)
  {
    CeilLe(a.maximumVolatility - SettleRule(a, tick, timestamp).value.volatilityReference, 10000, -1);
    hide Ceil;
  }

  lemma SkipsOutside(cfg: Config, group: int, liquidity: int, target: int)
    requires cfg.rule.Adaptive? && cfg.rule.control != 0 && liquidity != 0
    requires ChargeFor(cfg, group, liquidity, target).Ok?
    ensures ChargeFor(cfg, group, liquidity, target).value.skipped <==> Skipped(cfg.rule, group, group, cfg.down)
  {
    hide PriceAt, FeeAt;
  }

  lemma SkippedSaturated(cfg: Config, group: int, g: int)
    requires cfg.rule.Adaptive? && BandSaturated(cfg.rule) && Skipped(cfg.rule, group, g, cfg.down)
    ensures Volatility(cfg.rule, g) == cfg.rule.maximum && FeeAt(cfg, g) == FeeAt(cfg, group)
  {
    hide Volatility, FeeAt;
    SaturatedFee(cfg, g, group);
  }

  /** Skipping is sound: a pass with something to trade skips only outside the core band;
      every group it may move through then has saturated volatility and the fee the pass
      is charged; and inwards it is stopped where the band's edge group begins. */
  lemma SkipIsSound(
      a: AdaptiveFee, poolTick: int, timestamp: int, cfg: Config, group: int, liquidity: int, target: int)
    requires SettleRule(a, poolTick, timestamp) == Ok(cfg.rule)
    requires ChargeFor(cfg, group, liquidity, target).Ok?
    requires a.controlFactor != 0 && liquidity != 0
    ensures cfg.rule.Adaptive?
    ensures
      var charge := ChargeFor(cfg, group, liquidity, target).value;
      && (charge.skipped <==> Skipped(cfg.rule, group, group, cfg.down))
      && (charge.skipped ==>
            && (forall g :: Skipped(cfg.rule, group, g, cfg.down) ==>
                  Volatility(cfg.rule, g) == cfg.rule.maximum && FeeAt(cfg, g) == charge.fee)
            && if group < cfg.rule.reference
               then cfg.down || charge.bound <= Edge(Engine.Whirlpool, cfg.rule.lowerGroup.value, cfg.rule.groupSize)
               else !cfg.down || Edge(Engine.Whirlpool, cfg.rule.upperGroup.value + 1, cfg.rule.groupSize) <= charge.bound)
  {
    hide SettleRule, ChargeFor, Edge, FeeAt, Volatility, BandSaturated;
    SettledBandSaturated(a, poolTick, timestamp);
    SettledBand(a, poolTick, timestamp);
    ChargeMeaning(cfg, group, liquidity, target);
    ChargeCases(cfg, group, liquidity, target);
    SkipsOutside(cfg, group, liquidity, target);
    forall g | Skipped(cfg.rule, group, g, cfg.down)
      ensures Volatility(cfg.rule, g) == cfg.rule.maximum && FeeAt(cfg, g) == FeeAt(cfg, group)
    {
      SkippedSaturated(cfg, group, g);
    }
  }

  /** A pass that starts within its group is charged faithfully, skipping or not. */
  lemma PassFaithful(cfg: Config, s: State)
    requires Grouped(cfg, s) && BandSaturated(cfg.rule) && s.liquidity != 0
    requires Iterate(cfg, s).Ok?
    ensures Faithful(cfg, s.current, Iterate(cfg, s).value.current, FeeAt(cfg, s.group))
  {
    hide Iterate, SwapStep, ChargeFor, FeeAt, NextTick, NextIndex, Price, Cross, NextGroup, Loaded, Edge, Volatility;
    hide BeyondGroup;
    if cfg.rule.Adaptive? {
      var next, index, nextPrice, charge, step := PassMeaning(cfg, s);
      ChargeCases(cfg, s.group, s.liquidity, Toward(nextPrice, cfg.limit, cfg.down));
      StepBudget(s.current, charge.bound, s.liquidity, s.remaining, charge.fee, cfg.down);
      var rule, to := cfg.rule, step.sqrtPrice;
      if !charge.skipped {
        FaithfulInGroup(cfg, s.group, s.current, to);
      } else if rule.control == 0 {
        forall t | Traversed(Engine.Whirlpool, t, s.current, to)
          ensures FeeAt(cfg, GroupOf(cfg.rule, t)) == FeeAt(cfg, s.group)
        {
          UncontrolledFee(cfg, GroupOf(cfg.rule, t), s.group);
        }
      } else if rule.lowerGroup.Some? && s.group < rule.lowerGroup.value
          && (cfg.down || charge.bound <= Edge(Engine.Whirlpool, rule.lowerGroup.value, rule.groupSize)) {
        FaithfulBelow(cfg, s.group, s.current, to);
      } else {
        FaithfulAbove(cfg, s.group, s.current, to);
      }
    } else {
      StaticFaithful(cfg, s.current, Iterate(cfg, s).value.current, s.group);
    }
  }

  lemma StaticFaithful(cfg: Config, from: int, to: int, group: int)
    requires cfg.rule.Static?
    ensures Faithful(cfg, from, to, FeeAt(cfg, group))
  {
    hide Price;
  }

  /** Every pass charges a group strictly further on, so no group is charged twice. */
  lemma {:induction false} GroupsAdvance(cfg: Config, start: State, k: nat)
    requires cfg.rule.Adaptive? && Visited(cfg, start, k).Ok?
    ensures
      var group := Visited(cfg, start, k).value.group;
      if cfg.down then group <= start.group - k else start.group + k <= group
  {
    hide Iterate, SwapStep, ChargeFor, NextTick, NextIndex, PriceAt, TickAt, Cross, Loaded;
    if k > 0 {
      GroupsAdvance(cfg, start, k - 1);
      var next, index, nextPrice, charge, step := PassMeaning(cfg, Visited(cfg, start, k - 1).value);
    }
  }

  // ----- the group follows the price -----

  /** The ticks ahead of the state after a pass lie beyond the tick `p` it ended on. */
  ghost predicate BeyondTick(ticks: seq<Tick>, p: int, tick: int, down: bool) {
    forall i :: 0 <= i < |ticks| && Ahead(ticks[i], tick, down) ==>
      if down then ticks[i].tick < p else p < ticks[i].tick
  }

  /** Ticks beyond the boundary a pass ended on lie beyond the next group. */
  lemma BeyondNextGroup(ticks: seq<Tick>, size: Pos, g: int, tick: int, down: bool)
    requires AlignedTicks(ticks, size) && BeyondTick(ticks, g * size, tick, down)
    ensures BeyondGroup(ticks, size, if down then g - 1 else g, tick, down)
  {
    forall i | 0 <= i < |ticks| && Ahead(ticks[i], tick, down)
      ensures if down then ticks[i].tick <= (g - 1) * size else (g + 1) * size <= ticks[i].tick
    {
      if down {
        AlignedBelow(ticks[i].tick, g - 1, size);
      } else {
        AlignedAbove(ticks[i].tick, g, size);
      }
    }
  }

  /** Having crossed tick `index`, only ticks beyond it are ahead. */
  lemma BeyondCrossed(ticks: seq<Tick>, index: int, down: bool)
    ensures BeyondTick(ticks, index, if down then index - 1 else index, down)
  {
  }

  /** Having stopped short of the next tick at a boundary `p`, the ticks ahead are beyond `p`. */
  lemma BeyondUncrossed(cfg: Config, tick: int, tick': int, nextPrice: nat, p: int)
    requires Increasing(cfg.ticks) && PriceAt(Engine.Whirlpool, NextIndex(cfg, tick)) == Ok(nextPrice)
    requires if cfg.down then tick' <= tick else tick <= tick'
    requires
      var price := Price(Engine.Whirlpool, Clamp(p));
      if cfg.down then nextPrice < price else price < nextPrice
    ensures BeyondTick(cfg.ticks, p, tick', cfg.down)
  {
    hide Price;
    var index := NextIndex(cfg, tick);
    var k := NextTickMeaning(cfg.ticks, tick, cfg.down);
    if cfg.down {
      TickBelow(Engine.Whirlpool, index, p);
    } else {
      TickAbove(Engine.Whirlpool, index, p);
    }
    hide NextTick;
  }

  /** A skipping pass that ended on the aligned tick `p` continues in the group beyond it. */
  lemma SkippedGroup(cfg: Config, group: int, index: int, nextPrice: int, price: int, p: int)
    requires cfg.rule.Adaptive? && InRange(p) && price == Price(Engine.Whirlpool, p)
    requires p % cfg.rule.groupSize == 0 && (price == nextPrice ==> p == index)
    requires if cfg.down then p <= group * cfg.rule.groupSize else (group + 1) * cfg.rule.groupSize <= p
    ensures NextGroup(cfg, group, index, nextPrice, price, true)
         == Ok(if cfg.down then p / cfg.rule.groupSize - 1 else p / cfg.rule.groupSize)
  {
    hide Price, TickAt;
    TickAtInvertsPrice(Engine.Whirlpool, p);
    GroupLe(p, group + 1, cfg.rule.groupSize);
  }

  /** The initialized tick a pass heads for lies beyond the group it is charged in. */
  lemma NextBeyondGroup(cfg: Config, s: State)
    requires cfg.rule.Adaptive? && Grouped(cfg, s) && AlignedTicks(cfg.ticks, cfg.rule.groupSize)
    requires Increasing(cfg.ticks)
    ensures
      var size, index := cfg.rule.groupSize, NextIndex(cfg, s.tick);
      NextTick(cfg.ticks, s.tick, cfg.down).Some? ==>
        index % size == 0 && if cfg.down then index <= s.group * size else (s.group + 1) * size <= index
  {
    var k := NextTickMeaning(cfg.ticks, s.tick, cfg.down);
    hide NextTick, InGroup;
  }

  /** A pass that may not leave its group stops at the group's edge or at the next tick,
      and a next tick it stops at is that edge. */
  lemma StopsAtEdge(cfg: Config, s: State, nextPrice: nat, price: int)
    requires cfg.rule.Adaptive? && Grouped(cfg, s) && AlignedTicks(cfg.ticks, cfg.rule.groupSize)
    requires Increasing(cfg.ticks) && PriceAt(Engine.Whirlpool, NextIndex(cfg, s.tick)) == Ok(nextPrice)
    requires
      var edge := Edge(Engine.Whirlpool, if cfg.down then s.group else s.group + 1, cfg.rule.groupSize);
      && price == Toward(Toward(nextPrice, cfg.limit, cfg.down), edge, cfg.down)
      && price != cfg.limit
      && (price == nextPrice ==> NextTick(cfg.ticks, s.tick, cfg.down).Some?)
    ensures price == Edge(Engine.Whirlpool, if cfg.down then s.group else s.group + 1, cfg.rule.groupSize)
    ensures price == nextPrice ==>
      NextIndex(cfg, s.tick) == (if cfg.down then s.group else s.group + 1) * cfg.rule.groupSize
  {
    hide Price, NextTick, NextIndex, AlignedTicks, Increasing, InGroup, BeyondGroup;
    if price == nextPrice {
      NextBeyondGroup(cfg, s);
      var index, g := NextIndex(cfg, s.tick), if cfg.down then s.group else s.group + 1;
      PriceOrder(Engine.Whirlpool, index, Clamp(g * cfg.rule.groupSize));
      PriceOrder(Engine.Whirlpool, Clamp(g * cfg.rule.groupSize), index);
    }
  }

  /** After a pass that ended at the start of group `g` (in price), the next group
      contains the price and the ticks ahead lie beyond it. */
  lemma GroupedAfter(cfg: Config, s: State, s': State, nextPrice: nat, g: int)
    requires cfg.rule.Adaptive? && AlignedTicks(cfg.ticks, cfg.rule.groupSize) && Increasing(cfg.ticks)
    requires PriceAt(Engine.Whirlpool, NextIndex(cfg, s.tick)) == Ok(nextPrice)
    requires s'.current == Edge(Engine.Whirlpool, g, cfg.rule.groupSize)
    requires s'.group == if cfg.down then g - 1 else g
    requires if cfg.down then g * cfg.rule.groupSize <= MAX_TICK else MIN_TICK <= g * cfg.rule.groupSize
    requires if cfg.down then s'.tick <= s.tick && nextPrice <= s'.current else s.tick <= s'.tick && s'.current <= nextPrice
    requires s'.current == nextPrice ==>
      s'.tick == (if cfg.down then g * cfg.rule.groupSize - 1 else g * cfg.rule.groupSize)
    ensures Grouped(cfg, s')
  {
    hide Price, NextTick, NextIndex, Increasing;
    var size := cfg.rule.groupSize;
    EdgeRises(Engine.Whirlpool, s'.group, size);
    if s'.current == nextPrice {
      BeyondCrossed(cfg.ticks, g * size, cfg.down);
    } else {
      BeyondUncrossed(cfg, s.tick, s'.tick, nextPrice, g * size);
    }
    BeyondNextGroup(cfg.ticks, size, g, s'.tick, cfg.down);
  }

  /** What the group invariant needs of the setup. */
  ghost predicate Aligned(cfg: Config) {
    && Increasing(cfg.ticks)
    && BandSaturated(cfg.rule)
    && (cfg.rule.Adaptive? ==> AlignedTicks(cfg.ticks, cfg.rule.groupSize))
  }

  /** A pass that stays in its group. */
  lemma StayingPassKeepsGroup(
      cfg: Config, s: State, s': State, next: Option<Tick>, nextPrice: nat, charge: Charge)
    requires cfg.rule.Adaptive? && Aligned(cfg) && Grouped(cfg, s)
    requires next == NextTick(cfg.ticks, s.tick, cfg.down)
    requires PriceAt(Engine.Whirlpool, NextIndex(cfg, s.tick)) == Ok(nextPrice)
    requires ChargeFor(cfg, s.group, s.liquidity, Toward(nextPrice, cfg.limit, cfg.down)) == Ok(charge)
    requires !charge.skipped && s'.current == charge.bound && s'.current != cfg.limit
    requires NextGroup(cfg, s.group, NextIndex(cfg, s.tick), nextPrice, s'.current, false) == Ok(s'.group)
    requires if cfg.down then s'.tick <= s.tick else s.tick <= s'.tick
    requires s'.current == nextPrice ==>
      && next.Some?
      && s'.tick == if cfg.down then NextIndex(cfg, s.tick) - 1 else NextIndex(cfg, s.tick)
    ensures Grouped(cfg, s')
  {
    hide Price, NextTick, NextIndex, ChargeFor, Grouped, BandSaturated, AlignedTicks, Increasing, Edge;
    ChargeCases(cfg, s.group, s.liquidity, Toward(nextPrice, cfg.limit, cfg.down));
    StopsAtEdge(cfg, s, nextPrice, s'.current);
    assert GroupReachable(cfg.rule.groupSize, s.group, cfg.down) by {
      GroupedReachable(cfg, s);
    }
    GroupedAfter(cfg, s, s', nextPrice, if cfg.down then s.group else s.group + 1);
  }

  lemma GroupedReachable(cfg: Config, s: State)
    requires cfg.rule.Adaptive? && Grouped(cfg, s)
    ensures GroupReachable(cfg.rule.groupSize, s.group, cfg.down)
  {
  }

  /** A pass that skips ends on an aligned tick `p` ahead of its group. */
  lemma SkippingPassKeepsGroup(
      cfg: Config, s: State, s': State, nextPrice: nat, p: int)
    requires cfg.rule.Adaptive? && Aligned(cfg)
    requires PriceAt(Engine.Whirlpool, NextIndex(cfg, s.tick)) == Ok(nextPrice)
    requires InRange(p) && p % cfg.rule.groupSize == 0 && s'.current == Price(Engine.Whirlpool, p)
    requires if cfg.down then p <= s.group * cfg.rule.groupSize else (s.group + 1) * cfg.rule.groupSize <= p
    requires NextGroup(cfg, s.group, NextIndex(cfg, s.tick), nextPrice, s'.current, true) == Ok(s'.group)
    requires if cfg.down then s'.tick <= s.tick && nextPrice <= s'.current else s.tick <= s'.tick && s'.current <= nextPrice
    requires s'.current == nextPrice ==>
      p == NextIndex(cfg, s.tick) && s'.tick == if cfg.down then p - 1 else p
    ensures Grouped(cfg, s')
  {
    hide Price, NextTick, NextIndex, NextGroup, Grouped, BandSaturated, AlignedTicks, Increasing, Edge;
    SkippedGroup(cfg, s.group, NextIndex(cfg, s.tick), nextPrice, s'.current, p);
    EdgeOfAligned(Engine.Whirlpool, p, cfg.rule.groupSize);
    assert p == cfg.rule.groupSize * (p / cfg.rule.groupSize);
    GroupedAfter(cfg, s, s', nextPrice, p / cfg.rule.groupSize);
  }

  /** Unless the run is over, a pass leaves the price in the next pass's group. */
  lemma PassKeepsGroup(cfg: Config, s: State)
    requires Aligned(cfg) && Grouped(cfg, s) && Coherent(Engine.Whirlpool, s.current, s.tick)
    requires Iterate(cfg, s).Ok?
    ensures
      var s' := Iterate(cfg, s).value;
      Finished(cfg, s') || !Loaded(cfg, s'.tick) || Grouped(cfg, s')
  {
    hide Iterate, SwapStep, ChargeFor, FeeAt, NextTick, NextIndex, Price, Cross, NextGroup, Grouped, Coherent,
      BandSaturated, AlignedTicks, Increasing, Edge;
    var s' := Iterate(cfg, s).value;
    var next, index, nextPrice, charge, step := PassMeaning(cfg, s);
    var target := Toward(nextPrice, cfg.limit, cfg.down);
    ChargeMeaning(cfg, s.group, s.liquidity, target);
    StepBudget(s.current, charge.bound, s.liquidity, s.remaining, charge.fee, cfg.down);
    CrossMeaning(cfg, s, nextPrice, step.sqrtPrice);
    EdgeLoaded(cfg, s.tick);
    if cfg.rule.Adaptive? && !Finished(cfg, s') && Loaded(cfg, s'.tick) {
      assert s'.current == charge.bound;
      if !charge.skipped {
        StayingPassKeepsGroup(cfg, s, s', next, nextPrice, charge);
      } else {
        NextBeyondGroup(cfg, s);
        var p := index;
        if s'.current != nextPrice {
          p := SkipsToBand(cfg, s.group, s.liquidity, target);
        }
        SkippingPassKeepsGroup(cfg, s, s', nextPrice, p);
      }
    } else if cfg.rule.Static? {
      assert Grouped(cfg, s') by {
        StaticGrouped(cfg, s');
      }
    }
  }

  lemma StaticGrouped(cfg: Config, s: State)
    requires cfg.rule.Static?
    ensures Grouped(cfg, s)
  {
  }

  /** Running off the last tick leaves the supplied arrays. */
  lemma EdgeLoaded(cfg: Config, tick: int)
    ensures NextTick(cfg.ticks, tick, cfg.down).None? ==>
      !Loaded(cfg, if cfg.down then NextIndex(cfg, tick) - 1 else NextIndex(cfg, tick))
  {
    hide NextTick;
  }

  /** A skipping pass that stops short of its target stops at the edge of the core band. */
  lemma SkipsToBand(cfg: Config, group: int, liquidity: int, target: int) returns (p: int)
    requires cfg.rule.Adaptive? && ChargeFor(cfg, group, liquidity, target).Ok?
    requires
      var charge := ChargeFor(cfg, group, liquidity, target).value;
      charge.skipped && charge.bound != target
    ensures InRange(p) && p % cfg.rule.groupSize == 0
    ensures ChargeFor(cfg, group, liquidity, target).value.bound == Price(Engine.Whirlpool, p)
    ensures if cfg.down then p <= group * cfg.rule.groupSize else (group + 1) * cfg.rule.groupSize <= p
  {
    hide Price, ChargeFor;
    ChargeCases(cfg, group, liquidity, target);
    var g := if cfg.down then cfg.rule.upperGroup.value + 1 else cfg.rule.lowerGroup.value;
    p := g * cfg.rule.groupSize;
    GroupOfMultiple(g, cfg.rule.groupSize);
    if cfg.down {
      MulMono(g, group, cfg.rule.groupSize);
    } else {
      MulMono(group + 1, g, cfg.rule.groupSize);
    }
  }

  lemma {:induction false} VisitedKeepsGroup(
      cfg: Config, from: int, liquidity: int, spot: int, amount: int, start: State, k: nat)
    requires Aligned(cfg) && Grouped(cfg, start)
    requires Book(cfg, from, liquidity, start) && Ledger(cfg, spot, amount, start)
    requires Visited(cfg, start, k).Ok?
    ensures
      var s := Visited(cfg, start, k).value;
      Finished(cfg, s) || !Loaded(cfg, s.tick) || Grouped(cfg, s)
  {
    hide Ledger, Iterate, Grouped, Increasing, Coherent, Expected, BandSaturated;
    if k > 0 {
      VisitedKeepsGroup(cfg, from, liquidity, spot, amount, start, k - 1);
      VisitedKeepsBook(cfg, from, liquidity, spot, amount, start, k - 1);
      var s := Visited(cfg, start, k - 1).value;
      assert Loaded(cfg, s.tick) by {
        PassIsLoaded(cfg, s);
      }
      PassKeepsGroup(cfg, s);
    }
  }

  lemma PassIsLoaded(cfg: Config, s: State)
    requires Iterate(cfg, s).Ok?
    ensures Loaded(cfg, s.tick)
  {
    hide SwapStep, ChargeFor, NextTick, NextIndex, PriceAt, Cross, NextGroup;
  }

  // ----- from the start of a swap -----

  /** The initialized ticks lie on group edges. */
  predicate TicksOnEdges(ticks: seq<Tick>, adaptive: Option<AdaptiveFee>) {
    adaptive.Some? && adaptive.value.tickGroupSize > 0 ==>
      forall t :: t in ticks ==> t.tick % adaptive.value.tickGroupSize == 0
  }

  /** The fee rule and group a swap starts with, and the alignment of its ticks. */
  lemma StartRule(
      pool: Pool, ticks: seq<Tick>, arrayStarts: seq<int>, amount: int, timestamp: int, down: bool,
      adaptive: Option<AdaptiveFee>, limit: int)
    requires Prepare(pool, ticks, arrayStarts, amount, timestamp, down, adaptive, limit).Ok?
    ensures
      var (cfg, s) := Prepare(pool, ticks, arrayStarts, amount, timestamp, down, adaptive, limit).value;
      && 0 < pool.tickSpacing
      && (forall t :: t in ticks ==> t.tick % pool.tickSpacing == 0)
      && (adaptive.None? ==> cfg.rule.Static?)
      && (adaptive.Some? ==>
            && SettleRule(adaptive.value, pool.tickCurrent, timestamp) == Ok(cfg.rule)
            && adaptive.value.tickGroupSize > 0
            && s.group == pool.tickCurrent / adaptive.value.tickGroupSize)
  {
    hide Sort, ValidArrays, Ordered, Increasing, Min, Max, Ceil, ValidLimit;
  }

  /** They do whenever the group size divides the tick spacing. */
  lemma DividingSizePutsTicksOnEdges(
      pool: Pool, ticks: seq<Tick>, arrayStarts: seq<int>, amount: int, timestamp: int, down: bool,
      adaptive: Option<AdaptiveFee>, limit: int)
    requires Prepare(pool, ticks, arrayStarts, amount, timestamp, down, adaptive, limit).Ok?
    requires adaptive.Some? && adaptive.value.tickGroupSize > 0 ==> pool.tickSpacing % adaptive.value.tickGroupSize == 0
    ensures TicksOnEdges(ticks, adaptive)
  {
    hide Prepare;
    StartRule(pool, ticks, arrayStarts, amount, timestamp, down, adaptive, limit);
    if adaptive.Some? {
      forall t | t in ticks
        ensures t.tick % adaptive.value.tickGroupSize == 0
      {
        DividesTrans(t.tick, pool.tickSpacing, adaptive.value.tickGroupSize);
      }
    }
  }

  lemma OrderedMembers(ticks: seq<Tick>, t: Tick)
    ensures t in Ordered(ticks) ==> t in ticks
  {
    SortSorts(ticks, TickOf);
    if t in Ordered(ticks) {
      assert t in multiset(Ordered(ticks));
    }
  }

  lemma SettledSize(a: AdaptiveFee, tick: int, timestamp: int)
    requires SettleRule(a, tick, timestamp).Ok?
    ensures
      var rule := SettleRule(a, tick, timestamp).value;
      rule.Adaptive? && rule.groupSize == a.tickGroupSize
  {
    hide Ceil, Min, Max;
  }

  lemma StartAligned(
      pool: Pool, ticks: seq<Tick>, arrayStarts: seq<int>, amount: int, timestamp: int, down: bool,
      adaptive: Option<AdaptiveFee>, limit: int)
    requires Prepare(pool, ticks, arrayStarts, amount, timestamp, down, adaptive, limit).Ok?
    requires TicksOnEdges(ticks, adaptive)
    ensures Aligned(Prepare(pool, ticks, arrayStarts, amount, timestamp, down, adaptive, limit).value.0)
  {
    hide Prepare, Increasing, SettleRule, Ordered, ValidPool, ValidLimit;
    StartMeaning(pool, ticks, arrayStarts, amount, timestamp, down, adaptive, limit);
    StartRule(pool, ticks, arrayStarts, amount, timestamp, down, adaptive, limit);
    var (cfg, start) := Prepare(pool, ticks, arrayStarts, amount, timestamp, down, adaptive, limit).value;
    if adaptive.Some? {
      var size: Pos := adaptive.value.tickGroupSize;
      SettledSize(adaptive.value, pool.tickCurrent, timestamp);
      SettledBandSaturated(adaptive.value, pool.tickCurrent, timestamp);
      forall i | 0 <= i < |cfg.ticks|
        ensures cfg.ticks[i].tick % size == 0
      {
        OrderedMembers(ticks, cfg.ticks[i]);
      }
    }
  }

  /** A coherent pool starts inside its own group. */
  lemma CoherentInGroup(cfg: Config, s: State)
    requires cfg.rule.Adaptive? && AlignedTicks(cfg.ticks, cfg.rule.groupSize)
    requires Coherent(Engine.Whirlpool, s.current, s.tick) && InRange(s.tick)
    requires s.group == s.tick / cfg.rule.groupSize
    ensures Grouped(cfg, s)
  {
    hide InGroup, Coherent;
    GroupBounds(s.tick, cfg.rule.groupSize);
    CoherentInEdges(Engine.Whirlpool, s.current, s.tick, cfg.rule.groupSize);
    CoherentBeyondGroup(cfg.ticks, cfg.rule.groupSize, s.group, s.tick, cfg.down);
  }

  lemma CoherentBeyondGroup(ticks: seq<Tick>, size: Pos, group: int, tick: int, down: bool)
    requires AlignedTicks(ticks, size) && group * size <= tick < (group + 1) * size
    ensures BeyondGroup(ticks, size, group, tick, down)
  {
    forall i | 0 <= i < |ticks| && Ahead(ticks[i], tick, down)
      ensures if down then ticks[i].tick <= group * size else (group + 1) * size <= ticks[i].tick
    {
      if down {
        AlignedBelow(ticks[i].tick, group, size);
      } else {
        AlignedAbove(ticks[i].tick, group, size);
      }
    }
  }

  /** A swap that starts in its own group stays grouped. */
  lemma StartGrouped(
      pool: Pool, ticks: seq<Tick>, arrayStarts: seq<int>, amount: int, timestamp: int, down: bool,
      adaptive: Option<AdaptiveFee>, limit: int)
    requires Prepare(pool, ticks, arrayStarts, amount, timestamp, down, adaptive, limit).Ok?
    requires Coherent(Engine.Whirlpool, pool.sqrtPrice, pool.tickCurrent) && TicksOnEdges(ticks, adaptive)
    ensures
      var (cfg, start) := Prepare(pool, ticks, arrayStarts, amount, timestamp, down, adaptive, limit).value;
      Aligned(cfg) && Grouped(cfg, start)
  {
    hide Prepare, Coherent, Ordered, Increasing, Grouped, BandSaturated, ValidLimit, SettleRule, AlignedTicks;
    StartMeaning(pool, ticks, arrayStarts, amount, timestamp, down, adaptive, limit);
    StartRule(pool, ticks, arrayStarts, amount, timestamp, down, adaptive, limit);
    StartAligned(pool, ticks, arrayStarts, amount, timestamp, down, adaptive, limit);
    var (cfg, start) := Prepare(pool, ticks, arrayStarts, amount, timestamp, down, adaptive, limit).value;
    if adaptive.Some? {
      SettledSize(adaptive.value, pool.tickCurrent, timestamp);
      CoherentInGroup(cfg, start);
    } else {
      StaticGrouped(cfg, start);
    }
  }

  lemma FlatIsFaithful(
      pool: Pool, ticks: seq<Tick>, arrayStarts: seq<int>, amount: int, timestamp: int, down: bool,
      adaptive: Option<AdaptiveFee>, limit: int, from: int, to: int, group: int)
    requires Prepare(pool, ticks, arrayStarts, amount, timestamp, down, adaptive, limit).Ok? && Flat(adaptive)
    ensures
      var cfg := Prepare(pool, ticks, arrayStarts, amount, timestamp, down, adaptive, limit).value.0;
      Faithful(cfg, from, to, FeeAt(cfg, group))
  {
    hide Prepare, FeeAt, SettleRule, Flat, Traversed;
    StartRule(pool, ticks, arrayStarts, amount, timestamp, down, adaptive, limit);
    var cfg := Prepare(pool, ticks, arrayStarts, amount, timestamp, down, adaptive, limit).value.0;
    if adaptive.Some? {
      forall t | Traversed(Engine.Whirlpool, t, from, to)
        ensures FeeAt(cfg, GroupOf(cfg.rule, t)) == FeeAt(cfg, group)
      {
        FlatFee(cfg, adaptive.value, pool.tickCurrent, timestamp, GroupOf(cfg.rule, t), group);
      }
    } else {
      StaticFaithful(cfg, from, to, group);
    }
  }

  /** In every pass of a swap from a coherent pool whose initialized ticks lie on group
      edges or whose fee is flat, all the prices moved through are charged the fee of their
      own group, and the fee taken is at least that rate of what is spent. */
  lemma FeesAreFaithful(
      pool: Pool, ticks: seq<Tick>, arrayStarts: seq<int>, amount: int, timestamp: int, down: bool,
      adaptive: Option<AdaptiveFee>, limit: int, k: nat)
    requires Prepare(pool, ticks, arrayStarts, amount, timestamp, down, adaptive, limit).Ok?
    requires Coherent(Engine.Whirlpool, pool.sqrtPrice, pool.tickCurrent)
    requires TicksOnEdges(ticks, adaptive) || Flat(adaptive)
    requires
      var (cfg, start) := Prepare(pool, ticks, arrayStarts, amount, timestamp, down, adaptive, limit).value;
      Visited(cfg, start, k).Ok? && Visited(cfg, start, k + 1).Ok?
    ensures
      var (cfg, start) := Prepare(pool, ticks, arrayStarts, amount, timestamp, down, adaptive, limit).value;
      var s, s' := Visited(cfg, start, k).value, Visited(cfg, start, k + 1).value;
      && (s.liquidity != 0 ==> Faithful(cfg, s.current, s'.current, FeeAt(cfg, s.group)))
      && Charged(s.remaining - s'.remaining, s'.fees - s.fees, FeeAt(cfg, s.group))
  {
    hide Prepare, Iterate, Ledger, Book, Coherent, Ordered, Increasing, Grouped, BandSaturated, Faithful, FeeAt,
      ValidPool, ValidLimit, SettleRule, AlignedTicks, TicksOnEdges, Flat;
    StartMeaning(pool, ticks, arrayStarts, amount, timestamp, down, adaptive, limit);
    StartLedger(pool, ticks, arrayStarts, amount, timestamp, down, adaptive, limit);
    var (cfg, start) := Prepare(pool, ticks, arrayStarts, amount, timestamp, down, adaptive, limit).value;
    VisitedKeepsLedger(cfg, pool.sqrtPrice, amount, start, k);
    var s := Visited(cfg, start, k).value;
    PassCharges(cfg, pool.sqrtPrice, amount, s);
    if Flat(adaptive) {
      FlatIsFaithful(pool, ticks, arrayStarts, amount, timestamp, down, adaptive, limit,
                     s.current, Visited(cfg, start, k + 1).value.current, s.group);
    } else {
      StartGrouped(pool, ticks, arrayStarts, amount, timestamp, down, adaptive, limit);
      StartBook(cfg, start);
      VisitedKeepsGroup(cfg, pool.tickCurrent, pool.liquidity, pool.sqrtPrice, amount, start, k);
      PassIsLoaded(cfg, s);
      if s.liquidity != 0 {
        PassFaithful(cfg, s);
      }
    }
  }

  lemma StartBook(cfg: Config, start: State)
    requires Coherent(Engine.Whirlpool, start.current, start.tick)
    ensures Book(cfg, start.tick, start.liquidity, start)
  {
    NetOfNone(Engine.Whirlpool, cfg.ticks, start.tick, start.tick);
  }

  lemma PassCharges(cfg: Config, spot: int, amount: int, s: State)
    requires Ledger(cfg, spot, amount, s) && Iterate(cfg, s).Ok?
    ensures
      var s' := Iterate(cfg, s).value;
      Charged(s.remaining - s'.remaining, s'.fees - s.fees, FeeAt(cfg, s.group))
  {
    hide Iterate, SwapStep, ChargeFor, FeeAt, NextTick, NextIndex, PriceAt, Cross, NextGroup, Loaded, Charged, NoBetter;
    var next, index, nextPrice, charge, step := PassMeaning(cfg, s);
    ChargeMeaning(cfg, s.group, s.liquidity, Toward(nextPrice, cfg.limit, cfg.down));
    StepPays(s.current, charge.bound, s.liquidity, s.remaining, charge.fee, cfg.down, spot);
  }
}
