/** CLMM dynamic fees by tick group. The group a pass is charged in follows the price, and
    a pass charges every price it moves through the fee of that price's own group, unless
    it skips groups towards the reference. */
module ClmmGroups {
  import opened Results
  import opened Rounding
  import opened TickPrice
  import opened LiquidityStep
  import opened TickBook
  import opened TickGroups
  import opened Clmm
  import opened ClmmPass
  import opened ClmmLedger
  import opened ClmmBook
  import opened ClmmMonotone

  // ----- the group follows the price -----

  /** The ticks ahead that a pass may head for lie beyond the group. */
  ghost predicate BeyondGroup(cfg: Config, orders: seq<int>, group: int, tick: int)
    requires |cfg.ticks| == |orders|
  {
    forall i: nat :: i < |cfg.ticks| && Candidate(cfg, orders, tick, i) ==>
      if cfg.down then cfg.ticks[i].tick <= group * cfg.spacing else (group + 1) * cfg.spacing <= cfg.ticks[i].tick
  }

  /** The price lies in the group of the next pass, and the ticks ahead beyond it. */
  ghost predicate Grouped(cfg: Config, s: State)
    requires |cfg.ticks| == |s.orders|
  {
    && GroupReachable(cfg.spacing, s.group, cfg.down)
    && InGroup(Engine.Clmm, cfg.spacing, s.group, s.current)
    && BeyondGroup(cfg, s.orders, s.group, s.tick)
  }

  /** After a pass that ended at the start of group `g` (in price) with every tick ahead
      beyond it, the next group contains the price. */
  lemma GroupedAfter(cfg: Config, s: State, g: int)
    requires |cfg.ticks| == |s.orders| && AlignedTicks(cfg.ticks, cfg.spacing)
    requires s.current == Edge(Engine.Clmm, g, cfg.spacing) && s.group == if cfg.down then g - 1 else g
    requires if cfg.down then g * cfg.spacing <= MAX_TICK else MIN_TICK <= g * cfg.spacing
    requires forall i: nat :: i < |cfg.ticks| && Candidate(cfg, s.orders, s.tick, i) ==>
      if cfg.down then cfg.ticks[i].tick < g * cfg.spacing else g * cfg.spacing < cfg.ticks[i].tick
    ensures Grouped(cfg, s)
  {
    hide Price, Candidate;
    EdgeRises(Engine.Clmm, s.group, cfg.spacing);
    forall i: nat | i < |cfg.ticks| && Candidate(cfg, s.orders, s.tick, i)
      ensures if cfg.down then cfg.ticks[i].tick <= s.group * cfg.spacing
              else (s.group + 1) * cfg.spacing <= cfg.ticks[i].tick
    {
      if cfg.down {
        AlignedBelow(cfg.ticks[i].tick, s.group, cfg.spacing);
      } else {
        AlignedAbove(cfg.ticks[i].tick, s.group, cfg.spacing);
      }
    }
    hide Edge;
  }

  /** A pass that arrived at an aligned tick and crossed it. */
  lemma GroupedAfterCrossing(cfg: Config, s: State, t: int)
    requires |cfg.ticks| == |s.orders| && AlignedTicks(cfg.ticks, cfg.spacing)
    requires InRange(t) && t % cfg.spacing == 0 && s.current == Price(Engine.Clmm, t)
    requires s.tick == if cfg.down then t - 1 else t
    requires s.group == if cfg.down then t / cfg.spacing - 1 else t / cfg.spacing
    ensures Grouped(cfg, s)
  {
    hide Price;
    EdgeOfAligned(Engine.Clmm, t, cfg.spacing);
    assert t == cfg.spacing * (t / cfg.spacing);
    GroupedAfter(cfg, s, t / cfg.spacing);
  }

  /** A pass that stopped short of the next tick at the boundary of group `g`. */
  lemma GroupedAfterBoundary(cfg: Config, s: State, s': State, nextPrice: nat, g: int)
    requires |cfg.ticks| == |s.orders| && s'.orders == s.orders
    requires AlignedTicks(cfg.ticks, cfg.spacing) && NoDuplicates(cfg.ticks)
    requires PriceAt(Engine.Clmm, NextTick(cfg, s)) == Ok(nextPrice)
    requires s'.current == Edge(Engine.Clmm, g, cfg.spacing) && s'.group == if cfg.down then g - 1 else g
    requires if cfg.down then g * cfg.spacing <= MAX_TICK else MIN_TICK <= g * cfg.spacing
    requires if cfg.down then s'.tick <= s.tick && nextPrice < s'.current else s.tick <= s'.tick && s'.current < nextPrice
    ensures Grouped(cfg, s')
  {
    hide Price, Nearest, NoDuplicates;
    NextMeaning(cfg, s);
    var next := NextTick(cfg, s);
    if cfg.down {
      TickBelow(Engine.Clmm, next, g * cfg.spacing);
    } else {
      TickAbove(Engine.Clmm, next, g * cfg.spacing);
    }
    forall i: nat | i < |cfg.ticks| && Candidate(cfg, s'.orders, s'.tick, i)
      ensures if cfg.down then cfg.ticks[i].tick < g * cfg.spacing else g * cfg.spacing < cfg.ticks[i].tick
    {
      assert Candidate(cfg, s.orders, s.tick, i);
    }
    GroupedAfter(cfg, s', g);
  }

  /** A next tick that a pass within its group reaches is the edge of that group. */
  lemma ReachedTickIsEdge(cfg: Config, s: State)
    requires |cfg.ticks| == |s.orders| && NoDuplicates(cfg.ticks) && Grouped(cfg, s) && Next(cfg, s).Some?
    requires AlignedTicks(cfg.ticks, cfg.spacing) && InRange(NextTick(cfg, s))
    requires
      var edge := Edge(Engine.Clmm, if cfg.down then s.group else s.group + 1, cfg.spacing);
      Within(edge, Price(Engine.Clmm, NextTick(cfg, s)), !cfg.down)
    ensures NextTick(cfg, s) == (if cfg.down then s.group else s.group + 1) * cfg.spacing
  {
    hide Price, Nearest, NoDuplicates;
    NextMeaning(cfg, s);
    var t, bound := NextTick(cfg, s), (if cfg.down then s.group else s.group + 1) * cfg.spacing;
    PriceOrder(Engine.Clmm, t, Clamp(bound));
    PriceOrder(Engine.Clmm, Clamp(bound), t);
  }

  /** What a pass that leaves input and room does: it reaches its bound, and a tick it
      arrives at is crossed. */
  lemma UnfinishedPass(cfg: Config, spot: int, amount: int, s: State)
    returns (nextPrice: nat, bound: int, s': State)
    requires Ledger(cfg, spot, amount, s) && !Finished(cfg, s)
    requires NoDuplicates(cfg.ticks) && LimitInRange(cfg) && Coherent(Engine.Clmm, s.current, s.tick)
    requires Iterate(cfg, s).Ok? && !Iterate(cfg, s).value.stopped
    requires !Finished(cfg, Iterate(cfg, s).value.state) && !Stalled(cfg, Iterate(cfg, s).value.state)
    ensures s' == Iterate(cfg, s).value.state && |s'.orders| == |cfg.ticks|
    ensures PriceAt(Engine.Clmm, NextTick(cfg, s)) == Ok(nextPrice)
    ensures bound == Bound(cfg, s.group, s.liquidity, Toward(nextPrice, cfg.limit, cfg.down))
    ensures s'.current == bound && bound != cfg.limit && Within(s.current, bound, cfg.down)
    ensures s'.group == NextGroup(cfg, s.group, Skips(cfg, s.group, s.liquidity),
                                  if bound == nextPrice then NextTick(cfg, s) else s'.tick)
    ensures if bound == nextPrice
            then
              && Next(cfg, s).Some? && s'.tick == (if cfg.down then NextTick(cfg, s) - 1 else NextTick(cfg, s))
              && s'.orders == s.orders[Next(cfg, s).value := s'.orders[Next(cfg, s).value]]
            else
              && s'.orders == s.orders && s'.liquidity == s.liquidity
              && if bound == s.current then s'.tick == s.tick else TickAt(Engine.Clmm, bound) == Ok(s'.tick)
    ensures if cfg.down then s'.tick <= s.tick && nextPrice <= bound else s.tick <= s'.tick && bound <= nextPrice
  {
    hide Iterate, Nearest, Price, SwapStep, TickAt, FeeAt, Bound, Arrive, Move, NoBetter, Coherent, NoDuplicates, Reach,
      Cost, Skips, NextGroup, Stalled, LimitInRange;
    var best, nextTick, nextPrice', bound', moved, landed := PassMeaning(cfg, s);
    nextPrice, bound, s' := nextPrice', bound', Iterate(cfg, s).value.state;
    var fee := FeeAt(cfg, s.group);
    BoundWithinTarget(cfg, s.group, s.liquidity, Toward(nextPrice, cfg.limit, cfg.down));
    MoveMeaning(cfg, s, bound, fee, spot, amount);
    MoveMonotone(cfg, s, s.remaining, bound, fee);
    RoomAhead(cfg, s);
    LandMeaning(cfg, s, moved, landed, nextPrice, fee);
    if moved.current == nextPrice {
      NextMeaning(cfg, s);
      ArriveCrosses(cfg, moved, best.value, fee);
      ArriveMeaning(cfg, moved, best.value, fee, spot, amount);
    } else if moved.current != bound && moved.remaining != 0 {
      MissStalls(cfg, s, nextPrice, bound, moved, landed);
      StallIgnoresGroup(cfg, landed, s'.group);
    }
  }

  /** A pass that may not leave its group is bounded by the group's edge. */
  lemma BoundCases(cfg: Config, group: int, liquidity: int, target: int)
    requires cfg.rule.Dynamic?
    ensures Bound(cfg, group, liquidity, target)
         == if Skips(cfg, group, liquidity) then target
            else Toward(target, Edge(Engine.Clmm, if cfg.down then group else group + 1, cfg.spacing), cfg.down)
  {
    hide Price, Skips;
  }

  lemma CrossingKeepsGroup(cfg: Config, s: State, s': State, nextPrice: nat)
    requires cfg.rule.Dynamic? && |cfg.ticks| == |s.orders| == |s'.orders| && NoDuplicates(cfg.ticks)
    requires AlignedTicks(cfg.ticks, cfg.spacing) && Grouped(cfg, s) && Next(cfg, s).Some?
    requires PriceAt(Engine.Clmm, NextTick(cfg, s)) == Ok(nextPrice) && s'.current == nextPrice
    requires nextPrice == Bound(cfg, s.group, s.liquidity, Toward(nextPrice, cfg.limit, cfg.down))
    requires s'.tick == if cfg.down then NextTick(cfg, s) - 1 else NextTick(cfg, s)
    requires s'.group == NextGroup(cfg, s.group, Skips(cfg, s.group, s.liquidity), NextTick(cfg, s))
    ensures Grouped(cfg, s')
    ensures s'.group == if cfg.down then NextTick(cfg, s) / cfg.spacing - 1 else NextTick(cfg, s) / cfg.spacing
  {
    hide Price, Nearest, NoDuplicates, Skips, Edge, Grouped, Bound;
    var t := NextTick(cfg, s);
    assert t % cfg.spacing == 0;
    BoundCases(cfg, s.group, s.liquidity, Toward(nextPrice, cfg.limit, cfg.down));
    if !Skips(cfg, s.group, s.liquidity) {
      ReachedTickIsEdge(cfg, s);
      GroupOfMultiple(if cfg.down then s.group else s.group + 1, cfg.spacing);
    }
    GroupedAfterCrossing(cfg, s', t);
  }

  lemma BoundaryKeepsGroup(cfg: Config, s: State, s': State, nextPrice: nat)
    requires cfg.rule.Dynamic? && |cfg.ticks| == |s.orders| && s'.orders == s.orders && NoDuplicates(cfg.ticks)
    requires AlignedTicks(cfg.ticks, cfg.spacing) && Grouped(cfg, s)
    requires PriceAt(Engine.Clmm, NextTick(cfg, s)) == Ok(nextPrice)
    requires s'.current == Bound(cfg, s.group, s.liquidity, Toward(nextPrice, cfg.limit, cfg.down))
    requires s'.current != nextPrice && s'.current != cfg.limit
    requires s'.group == NextGroup(cfg, s.group, Skips(cfg, s.group, s.liquidity), s'.tick)
    requires if cfg.down then s'.tick <= s.tick && nextPrice <= s'.current else s.tick <= s'.tick && s'.current <= nextPrice
    ensures Grouped(cfg, s')
  {
    hide Price, Nearest, NoDuplicates, Skips, Edge, Bound, InGroup, BeyondGroup, AlignedTicks;
    BoundCases(cfg, s.group, s.liquidity, Toward(nextPrice, cfg.limit, cfg.down));
    assert GroupReachable(cfg.spacing, s.group, cfg.down);
    GroupedAfterBoundary(cfg, s, s', nextPrice, if cfg.down then s.group else s.group + 1);
    hide Grouped;
  }

  /** Unless the run is over or stalled, a pass leaves the price in the next pass's group. */
  lemma PassKeepsGroup(cfg: Config, spot: int, amount: int, s: State)
    requires Ledger(cfg, spot, amount, s) && !Finished(cfg, s)
    requires cfg.rule.Dynamic? && AlignedTicks(cfg.ticks, cfg.spacing) && Grouped(cfg, s)
    requires NoDuplicates(cfg.ticks) && LimitInRange(cfg) && Coherent(Engine.Clmm, s.current, s.tick)
    requires Iterate(cfg, s).Ok? && !Iterate(cfg, s).value.stopped
    ensures
      var s' := Iterate(cfg, s).value.state;
      Finished(cfg, s') || Stalled(cfg, s') || Grouped(cfg, s')
  {
    hide Iterate, Nearest, Price, FeeAt, NoBetter, Coherent, NoDuplicates, Stalled, LimitInRange, Grouped,
      AlignedTicks, Skips, Edge;
    if !Finished(cfg, Iterate(cfg, s).value.state) && !Stalled(cfg, Iterate(cfg, s).value.state) {
      var nextPrice, bound, s' := UnfinishedPass(cfg, spot, amount, s);
      if bound == nextPrice {
        CrossingKeepsGroup(cfg, s, s', nextPrice);
      } else {
        BoundaryKeepsGroup(cfg, s, s', nextPrice);
      }
    }
  }

  // ----- what a pass charges -----

  /** Every tick a move passes through is charged the fee of its own group. */
  ghost predicate Faithful(cfg: Config, from: int, to: int, fee: int) {
    forall t :: Traversed(Engine.Clmm, t, from, to) ==> FeeAt(cfg, t / cfg.spacing) == fee
  }

  /** The trade moves away from the reference group, or starts in it. */
  predicate MovesAway(cfg: Config, group: int) {
    cfg.rule.Dynamic? ==> if cfg.down then group <= cfg.rule.reference else cfg.rule.reference <= group
  }

  /** A move inside one group. */
  lemma FaithfulInGroup(cfg: Config, group: int, from: int, to: int)
    requires InGroup(Engine.Clmm, cfg.spacing, group, from) && InGroup(Engine.Clmm, cfg.spacing, group, to)
    ensures Faithful(cfg, from, to, FeeAt(cfg, group))
  {
    hide Price, FeeAt;
    forall t | Traversed(Engine.Clmm, t, from, to)
      ensures FeeAt(cfg, t / cfg.spacing) == FeeAt(cfg, group)
    {
      BelowBound(Engine.Clmm, t, (group + 1) * cfg.spacing);
      AboveBound(Engine.Clmm, t, group * cfg.spacing);
      GroupLe(t, group, cfg.spacing);
      GroupLe(t, group + 1, cfg.spacing);
    }
  }

  /** A move from a saturated group away from the reference. */
  lemma FaithfulOutward(cfg: Config, group: int, from: int, to: int)
    requires cfg.rule.Dynamic? && Volatility(cfg.rule, group) == cfg.rule.maximum && MovesAway(cfg, group)
    requires InGroup(Engine.Clmm, cfg.spacing, group, from) && Within(from, to, cfg.down)
    ensures Faithful(cfg, from, to, FeeAt(cfg, group))
  {
    hide Price, FeeAt;
    forall t | Traversed(Engine.Clmm, t, from, to)
      ensures FeeAt(cfg, t / cfg.spacing) == FeeAt(cfg, group)
    {
      if cfg.down {
        BelowBound(Engine.Clmm, t, (group + 1) * cfg.spacing);
      } else {
        AboveBound(Engine.Clmm, t, group * cfg.spacing);
      }
      GroupLe(t, group, cfg.spacing);
      GroupLe(t, group + 1, cfg.spacing);
      assert Volatility(cfg.rule, t / cfg.spacing) == cfg.rule.maximum;
      SameVolatility(cfg, t / cfg.spacing, group);
    }
  }

  lemma SameVolatility(cfg: Config, g: int, h: int)
    requires cfg.rule.Dynamic? && Volatility(cfg.rule, g) == Volatility(cfg.rule, h)
    ensures FeeAt(cfg, g) == FeeAt(cfg, h)
  {
    hide Volatility;
  }

  /** A group further from the reference is never charged less. */
  lemma FeeGrowsWithDistance(cfg: Config, near: int, far: int)
    requires cfg.rule.Dynamic? && 0 <= cfg.rule.volatilityReference && 0 <= cfg.rule.maximum
    requires Volatility(cfg.rule, near) <= Volatility(cfg.rule, far)
    ensures FeeAt(cfg, near) <= FeeAt(cfg, far)
  {
    var a, b := Volatility(cfg.rule, near), Volatility(cfg.rule, far);
    assert 0 <= a;
    hide Volatility;
    MulMono(a, b, cfg.spacing);
    MulMono(0, a, cfg.spacing);
    VariableFeeMonotone(cfg.rule.control, a * cfg.spacing, b * cfg.spacing);
    hide VariableFee;
  }

  lemma VariableFeeMonotone(control: nat, less: nat, more: nat)
    requires less <= more
    ensures VariableFee(control, less) <= VariableFee(control, more)
  {
    MulMono(less, more, less);
    MulMono(less, more, more);
    MulMono(less * less, more * more, control);
    assert control * less * less == less * less * control && control * more * more == more * more * control;
    CeilMono(control * less * less, control * more * more, 10000000000000);
  }

  /** A move from a saturated group is charged faithfully exactly when, of the ticks it
      passes through, one nearest the reference has a group that is charged the same. */
  lemma SaturatedFaithfulExactly(cfg: Config, group: int, from: int, to: int, nearest: int)
    requires cfg.rule.Dynamic? && 0 <= cfg.rule.volatilityReference && 0 <= cfg.rule.maximum
    requires Volatility(cfg.rule, group) == cfg.rule.maximum && Traversed(Engine.Clmm, nearest, from, to)
    requires forall t :: Traversed(Engine.Clmm, t, from, to) ==>
      Abs(cfg.rule.reference - nearest / cfg.spacing) <= Abs(cfg.rule.reference - t / cfg.spacing)
    ensures Faithful(cfg, from, to, FeeAt(cfg, group))
       <==> FeeAt(cfg, nearest / cfg.spacing) == FeeAt(cfg, group)
  {
    hide Price, FeeAt, Traversed;
    forall t | Traversed(Engine.Clmm, t, from, to)
      ensures FeeAt(cfg, nearest / cfg.spacing) <= FeeAt(cfg, t / cfg.spacing) <= FeeAt(cfg, group)
    {
      FeeGrowsWithDistance(cfg, nearest / cfg.spacing, t / cfg.spacing);
      FeeGrowsWithDistance(cfg, t / cfg.spacing, group);
    }
  }

  /** A pass with something to trade charges faithfully whenever it stays in its group or
      skips away from the reference. */
  lemma PassFaithful(cfg: Config, spot: int, amount: int, s: State)
    requires Ledger(cfg, spot, amount, s) && Iterate(cfg, s).Ok?
    requires cfg.rule.Dynamic? ==> Grouped(cfg, s)
    requires s.liquidity != 0 && (!Skips(cfg, s.group, s.liquidity) || MovesAway(cfg, s.group))
    ensures Faithful(cfg, s.current, Iterate(cfg, s).value.state.current, FeeAt(cfg, s.group))
  {
    hide Iterate, Nearest, PriceAt, SwapStep, TickAt, FeeAt, Bound, Arrive, Move, NoBetter, Edge, Volatility, BeyondGroup;
    var best, nextTick, nextPrice, bound, moved, landed := PassMeaning(cfg, s);
    var fee, target := FeeAt(cfg, s.group), Toward(nextPrice, cfg.limit, cfg.down);
    BoundWithinTarget(cfg, s.group, s.liquidity, target);
    MoveMeaning(cfg, s, bound, fee, spot, amount);
    if moved.current == nextPrice && best.Some? {
      ArriveMeaning(cfg, moved, best.value, fee, spot, amount);
    }
    var to := Iterate(cfg, s).value.state.current;
    assert to == moved.current;
    if cfg.rule.Static? {
      StaticFaithful(cfg, s.current, to, s.group);
    } else if Skips(cfg, s.group, s.liquidity) {
      FaithfulOutward(cfg, s.group, s.current, to);
    } else {
      BoundCases(cfg, s.group, s.liquidity, target);
      FaithfulInGroup(cfg, s.group, s.current, to);
    }
  }

  lemma StaticFaithful(cfg: Config, from: int, to: int, group: int)
    requires cfg.rule.Static?
    ensures Faithful(cfg, from, to, FeeAt(cfg, group))
  {
    hide Price;
  }

  // ----- whole runs -----

  lemma {:induction false} VisitedKeepsGroup(
      cfg: Config, from: int, liquidity: int, spot: int, amount: int, start: State, k: nat)
    requires Book(cfg, from, liquidity, start) && Ledger(cfg, spot, amount, start)
    requires NoDuplicates(cfg.ticks) && LimitInRange(cfg) && AlignedTicks(cfg.ticks, cfg.spacing)
    requires cfg.rule.Dynamic? && Grouped(cfg, start)
    requires Visited(cfg, start, k).Ok?
    ensures
      var s := Visited(cfg, start, k).value;
      Finished(cfg, s) || Stalled(cfg, s) || Grouped(cfg, s)
  {
    hide Iterate, NoBetter, Grouped, Coherent, Expected, Stalled, NoDuplicates, LimitInRange, AlignedTicks;
    if k > 0 {
      VisitedKeepsGroup(cfg, from, liquidity, spot, amount, start, k - 1);
      VisitedKeepsBook(cfg, from, liquidity, spot, amount, start, k - 1);
      VisitedKeepsLedger(cfg, spot, amount, start, k - 1);
      var s := Visited(cfg, start, k - 1).value;
      if Stalled(cfg, s) {
        StallPersists(cfg, s);
      } else {
        PassKeepsGroup(cfg, spot, amount, s);
      }
    }
  }

  /** What the setup establishes about ticks and groups. */
  lemma StartAligned(
      pool: Pool, ticks: seq<Tick>, amount: int, limit: int, feeOn: int, dynamic: Option<DynamicFee>,
      timestamp: int, down: bool)
    requires Prepare(pool, ticks, amount, limit, feeOn, dynamic, timestamp, down).Ok?
    ensures
      var (cfg, s) := Prepare(pool, ticks, amount, limit, feeOn, dynamic, timestamp, down).value;
      && 0 < pool.tickSpacing && cfg.spacing == pool.tickSpacing && AlignedTicks(cfg.ticks, cfg.spacing)
      && s.group == s.tick / cfg.spacing && (dynamic.None? <==> cfg.rule.Static?)
  {
    hide NoDuplicates, ValidOrders, ValidLimit, Max;
    var (cfg, s) := Prepare(pool, ticks, amount, limit, feeOn, dynamic, timestamp, down).value;
    forall i | 0 <= i < |cfg.ticks|
      ensures cfg.ticks[i].tick % cfg.spacing == 0
    {
      assert cfg.ticks[i] in ticks;
    }
  }

  /** A coherent pool starts inside its own group. */
  lemma CoherentInGroup(cfg: Config, s: State)
    requires |cfg.ticks| == |s.orders| && AlignedTicks(cfg.ticks, cfg.spacing)
    requires Coherent(Engine.Clmm, s.current, s.tick) && InRange(s.tick) && s.group == s.tick / cfg.spacing
    ensures Grouped(cfg, s)
  {
    hide InGroup, Coherent;
    GroupBounds(s.tick, cfg.spacing);
    CoherentInEdges(Engine.Clmm, s.current, s.tick, cfg.spacing);
    forall i: nat | i < |cfg.ticks| && Candidate(cfg, s.orders, s.tick, i)
      ensures if cfg.down then cfg.ticks[i].tick <= s.group * cfg.spacing
              else (s.group + 1) * cfg.spacing <= cfg.ticks[i].tick
    {
      if cfg.down {
        AlignedBelow(cfg.ticks[i].tick, s.group, cfg.spacing);
      } else {
        AlignedAbove(cfg.ticks[i].tick, s.group, cfg.spacing);
      }
    }
  }

  /** In every pass of a swap from a coherent pool that moves the price with liquidity in
      range, all the prices moved through are charged the fee of their own group, unless
      the pass skips groups towards the reference. */
  lemma FeesAreFaithful(
      pool: Pool, ticks: seq<Tick>, amount: int, limit: int, feeOn: int, dynamic: Option<DynamicFee>,
      timestamp: int, down: bool, k: nat)
    requires Prepare(pool, ticks, amount, limit, feeOn, dynamic, timestamp, down).Ok?
    requires Coherent(Engine.Clmm, pool.sqrtPrice, pool.tickCurrent)
    requires
      var (cfg, start) := Prepare(pool, ticks, amount, limit, feeOn, dynamic, timestamp, down).value;
      && Visited(cfg, start, k).Ok? && !Finished(cfg, Visited(cfg, start, k).value)
      && Iterate(cfg, Visited(cfg, start, k).value).Ok?
    ensures
      var (cfg, start) := Prepare(pool, ticks, amount, limit, feeOn, dynamic, timestamp, down).value;
      var s := Visited(cfg, start, k).value;
      var s' := Iterate(cfg, s).value.state;
      s.liquidity != 0 && s'.current != s.current && (!Skips(cfg, s.group, s.liquidity) || MovesAway(cfg, s.group))
      ==> Faithful(cfg, s.current, s'.current, FeeAt(cfg, s.group))
  {
    hide Prepare, Iterate, NoBetter, Grouped, Coherent, Stalled, NoDuplicates, AlignedTicks, Faithful, FeeAt, Skips,
      MovesAway, Expected;
    StartMeaning(pool, ticks, amount, limit, feeOn, dynamic, timestamp, down);
    StartLedger(pool, ticks, amount, limit, feeOn, dynamic, timestamp, down);
    StartAligned(pool, ticks, amount, limit, feeOn, dynamic, timestamp, down);
    var (cfg, start) := Prepare(pool, ticks, amount, limit, feeOn, dynamic, timestamp, down).value;
    StartBook(cfg, start);
    CoherentInGroup(cfg, start);
    VisitedKeepsLedger(cfg, pool.sqrtPrice, amount, start, k);
    var s := Visited(cfg, start, k).value;
    if cfg.rule.Dynamic? {
      VisitedKeepsGroup(cfg, pool.tickCurrent, pool.liquidity, pool.sqrtPrice, amount, start, k);
    }
    if cfg.rule.Dynamic? && Stalled(cfg, s) {
      StallPersists(cfg, s);
    } else if s.liquidity != 0 && (!Skips(cfg, s.group, s.liquidity) || MovesAway(cfg, s.group)) {
      PassFaithful(cfg, pool.sqrtPrice, amount, s);
    }
  }
}
