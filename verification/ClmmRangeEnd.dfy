/** The end of the CLMM tick range. A pass that runs into it without a tick to arrive at
    stops the loop and leaves the tick as it was, so the returned tick may lie behind the
    returned price. Which swaps this happens to is decided by their arguments. */
module ClmmRangeEnd {
  import opened Results
  import opened Rounding
  import opened TickPrice
  import opened LiquidityStep
  import opened TickBook
  import opened TickGroups
  import opened Clmm
  import opened ClmmPass
  import opened ClmmLedger
  import opened ClmmBook
  import opened ClmmMonotone

  /** The last tick in the trade direction, and its price. */
  function EndTick(down: bool): int {
    if down then MIN_TICK else MAX_TICK
  }

  function EndOfRange(down: bool): nat {
    if down then MIN_SQRT_PRICE else MaxSqrtPrice(Engine.Clmm)
  }

  /** From such a tick the end of the range is at most one tick away. */
  predicate NearEnd(tick: int, down: bool) {
    if down then tick <= MIN_TICK else MAX_TICK - 1 <= tick
  }

  /** Landing on such a tick leads there. */
  predicate LeadsToEnd(tick: int, down: bool) {
    if down then tick <= MIN_TICK + 1 else MAX_TICK - 1 <= tick
  }

  /** The tick has liquidity or orders. */
  predicate Marked(t: Tick) {
    t.liquidityGross != 0 || t.orders + t.partialOrders != 0
  }

  /** The pool starts next to the end of the range, or one of the last two ticks before
      it has liquidity or orders. */
  predicate EndGuarded(tickCurrent: int, ticks: seq<Tick>, down: bool) {
    NearEnd(tickCurrent, down) || exists t :: t in ticks && LeadsToEnd(t.tick, down) && Marked(t)
  }

  /** At the end of the range, the coherent ticks are those next to it. */
  lemma CoherentAtEnd(tick: int, down: bool)
    requires MIN_TICK - 1 <= tick <= MAX_TICK
    ensures Coherent(Engine.Clmm, EndOfRange(down), tick) <==> NearEnd(tick, down)
  {
    hide Price;
    PriceBounds(Engine.Clmm);
    if NearEnd(tick, down) {
      CoherentAt(Engine.Clmm, EndTick(down));
    } else if down {
      PriceOrder(Engine.Clmm, tick, MIN_TICK);
    } else if InRange(tick + 1) {
      PriceOrder(Engine.Clmm, MAX_TICK, tick + 1);
    }
  }

  // ----- a guarded end is reached with its tick -----

  /** Tick `i` leads to the end and still has liquidity or orders. */
  predicate Guards(cfg: Config, s: State, i: nat)
    requires i < |cfg.ticks| == |s.orders|
  {
    LeadsToEnd(cfg.ticks[i].tick, cfg.down) && (cfg.ticks[i].liquidityGross != 0 || s.orders[i] != 0)
  }

  /** There is such a tick to arrive at, or the end is next. */
  ghost predicate Guarded(cfg: Config, s: State)
    requires |cfg.ticks| == |s.orders|
  {
    NearEnd(s.tick, cfg.down) || exists i: nat :: i < |cfg.ticks| && Guards(cfg, s, i)
  }

  /** A guarded pass stops only next to the end, and stays guarded otherwise. */
  lemma PassKeepsGuard(cfg: Config, from: int, liquidity: int, spot: int, amount: int, s: State)
    requires Book(cfg, from, liquidity, s) && Ledger(cfg, spot, amount, s) && !Finished(cfg, s)
    requires NoDuplicates(cfg.ticks) && LimitInRange(cfg)
    requires Iterate(cfg, s).Ok? && Guarded(cfg, s)
    ensures
      var pass := Iterate(cfg, s).value;
      if pass.stopped then NearEnd(pass.state.tick, cfg.down) else Guarded(cfg, pass.state)
  {
    hide Iterate, Next, Price, SwapStep, TickAt, FeeAt, Bound, Arrive, Move, NoBetter, Coherent, Expected, NoDuplicates;
    var best, nextTick, nextPrice, bound, moved, landed := PassMeaning(cfg, s);
    var fee := FeeAt(cfg, s.group);
    BoundWithinTarget(cfg, s.group, s.liquidity, Toward(nextPrice, cfg.limit, cfg.down));
    MoveMeaning(cfg, s, bound, fee, spot, amount);
    RoomAhead(cfg, s);
    NextMeaning(cfg, s);
    if !Iterate(cfg, s).value.stopped {
      LandMeaning(cfg, s, moved, landed, nextPrice, fee);
      if moved.current == nextPrice {
        ArriveCrosses(cfg, moved, best.value, fee);
        ArriveMeaning(cfg, moved, best.value, fee, spot, amount);
      }
    }
    if !NearEnd(s.tick, cfg.down) {
      var i: nat :| i < |cfg.ticks| && Guards(cfg, s, i);
      assert Candidate(cfg, s.orders, s.tick, i);
      if !Iterate(cfg, s).value.stopped {
        assert Guards(cfg, Iterate(cfg, s).value.state, i) || (moved.current == nextPrice && best.value == i);
      }
    }
  }

  // ----- an unguarded end leaves the tick behind -----

  /** No tick that leads to the end has liquidity or orders left. */
  ghost predicate Unguarded(cfg: Config, s: State)
    requires |cfg.ticks| == |s.orders|
  {
    forall i: nat :: i < |cfg.ticks| ==> !Guards(cfg, s, i)
  }

  /** A pass never ends on the last tick but one by a fee group's boundary. */
  predicate NoBoundaryNextToEnd(cfg: Config) {
    cfg.down || cfg.rule.Static? || (MAX_TICK - 1) % cfg.spacing != 0
  }

  /** The run is on its way to an unguarded end, or over without having reached it. */
  ghost predicate Approaches(cfg: Config, s: State)
    requires |cfg.ticks| == |s.orders|
  {
    && Unguarded(cfg, s) && s.current != EndOfRange(cfg.down)
    && (!NearEnd(s.tick, cfg.down) || Finished(cfg, s) || Stalled(cfg, s))
  }

  lemma EndIsLast(cfg: Config, tick: int)
    requires InRange(tick)
    ensures Within(Price(Engine.Clmm, tick), EndOfRange(cfg.down), cfg.down)
    ensures Price(Engine.Clmm, tick) == EndOfRange(cfg.down) ==> tick == EndTick(cfg.down)
  {
    hide Price;
    PriceBounds(Engine.Clmm);
    PriceOrder(Engine.Clmm, tick, EndTick(cfg.down));
    PriceOrder(Engine.Clmm, EndTick(cfg.down), tick);
  }

  /** Where a bound short of the next tick and the limit lies. */
  lemma BoundaryBound(cfg: Config, group: int, liquidity: int, target: int) returns (b: int)
    requires Bound(cfg, group, liquidity, target) != target
    ensures cfg.rule.Dynamic? && InRange(b) && Bound(cfg, group, liquidity, target) == Price(Engine.Clmm, b)
    ensures b == MIN_TICK || b == MAX_TICK || b == (if cfg.down then group else group + 1) * cfg.spacing
  {
    hide Price;
    b := Max(MIN_TICK, Min(MAX_TICK, (if cfg.down then group else group + 1) * cfg.spacing));
  }

  /** A tick re-derived at such a bound is not next to the end. */
  lemma BoundaryTick(cfg: Config, group: int, liquidity: int, target: int, tick: int)
    requires Bound(cfg, group, liquidity, target) != target && NoBoundaryNextToEnd(cfg)
    requires Bound(cfg, group, liquidity, target) != EndOfRange(cfg.down)
    requires TickAt(Engine.Clmm, Bound(cfg, group, liquidity, target)) == Ok(tick)
    ensures !NearEnd(tick, cfg.down)
  {
    hide Price, Bound, TickAt;
    var b := BoundaryBound(cfg, group, liquidity, target);
    PriceBounds(Engine.Clmm);
    TickAtInvertsPrice(Engine.Clmm, b);
    GroupOfMultiple(if cfg.down then group else group + 1, cfg.spacing);
  }

  lemma NextInRange(cfg: Config, s: State, nextPrice: nat)
    requires |cfg.ticks| == |s.orders| && PriceAt(Engine.Clmm, NextTick(cfg, s)) == Ok(nextPrice)
    ensures InRange(NextTick(cfg, s)) && nextPrice == Price(Engine.Clmm, NextTick(cfg, s))
    ensures Within(nextPrice, EndOfRange(cfg.down), cfg.down)
  {
    hide Nearest, Price;
    EndIsLast(cfg, NextTick(cfg, s));
  }

  /** A pass towards an unguarded end that does not stop does not reach it. */
  lemma PassKeepsUnguarded(cfg: Config, spot: int, amount: int, s: State)
    requires Ledger(cfg, spot, amount, s) && NoDuplicates(cfg.ticks)
    requires Iterate(cfg, s).Ok? && Unguarded(cfg, s) && s.current != EndOfRange(cfg.down)
    ensures
      var pass := Iterate(cfg, s).value;
      if pass.stopped then pass.state.tick == s.tick
      else Unguarded(cfg, pass.state) && pass.state.current != EndOfRange(cfg.down)
  {
    hide Iterate, Nearest, PriceAt, SwapStep, TickAt, FeeAt, Bound, Arrive, Move, NoBetter, NoDuplicates, Skips, NextGroup;
    var best, nextTick, nextPrice, bound, moved, landed := PassMeaning(cfg, s);
    var fee := FeeAt(cfg, s.group);
    BoundWithinTarget(cfg, s.group, s.liquidity, Toward(nextPrice, cfg.limit, cfg.down));
    MoveMeaning(cfg, s, bound, fee, spot, amount);
    NextInRange(cfg, s, nextPrice);
    if !Iterate(cfg, s).value.stopped {
      if moved.current == nextPrice {
        NextMeaning(cfg, s);
        assert !Guards(cfg, s, best.value);
        ArriveMeaning(cfg, moved, best.value, fee, spot, amount);
        EndIsLast(cfg, nextTick);
      }
      forall i: nat | i < |cfg.ticks|
        ensures !Guards(cfg, Iterate(cfg, s).value.state, i)
      {
        assert !Guards(cfg, s, i);
      }
    }
  }

  /** A pass towards an unguarded end stops with its tick behind, or approaches further. */
  lemma PassApproaches(cfg: Config, from: int, liquidity: int, spot: int, amount: int, s: State)
    requires Book(cfg, from, liquidity, s) && Ledger(cfg, spot, amount, s) && !Finished(cfg, s)
    requires NoDuplicates(cfg.ticks) && LimitInRange(cfg) && NoBoundaryNextToEnd(cfg)
    requires Iterate(cfg, s).Ok?
    requires Unguarded(cfg, s) && s.current != EndOfRange(cfg.down) && !NearEnd(s.tick, cfg.down)
    ensures
      var pass := Iterate(cfg, s).value;
      if pass.stopped then !NearEnd(pass.state.tick, cfg.down) else Approaches(cfg, pass.state)
  {
    hide Iterate, Nearest, PriceAt, SwapStep, TickAt, FeeAt, Bound, Arrive, Move, NoBetter, Coherent, Expected, NoDuplicates,
      Reach, Cost, Skips, NextGroup, Stalled, LimitInRange;
    PassKeepsUnguarded(cfg, spot, amount, s);
    var best, nextTick, nextPrice, bound, moved, landed := PassMeaning(cfg, s);
    var fee, target := FeeAt(cfg, s.group), Toward(nextPrice, cfg.limit, cfg.down);
    BoundWithinTarget(cfg, s.group, s.liquidity, target);
    MoveMeaning(cfg, s, bound, fee, spot, amount);
    MoveMonotone(cfg, s, s.remaining, bound, fee);
    NextInRange(cfg, s, nextPrice);
    if !Iterate(cfg, s).value.stopped {
      if moved.current == nextPrice {
        NextMeaning(cfg, s);
        assert !Guards(cfg, s, best.value);
        ArriveCrosses(cfg, moved, best.value, fee);
      } else if moved.current == bound {
        if bound != target && moved.current != s.current {
          BoundaryTick(cfg, s.group, s.liquidity, target, landed.tick);
        }
      } else if moved.remaining != 0 {
        MissStalls(cfg, s, nextPrice, bound, moved, landed);
        StallIgnoresGroup(cfg, landed, Iterate(cfg, s).value.state.group);
      }
    }
  }

  // ----- whole runs -----

  /** A guarded run ends with its tick next to the end, or at a loop head. */
  lemma {:induction false} GuardedRun(
      cfg: Config, from: int, liquidity: int, spot: int, amount: int, s: State, budget: nat)
    requires Book(cfg, from, liquidity, s) && Ledger(cfg, spot, amount, s)
    requires NoDuplicates(cfg.ticks) && LimitInRange(cfg)
    requires Guarded(cfg, s) && Run(cfg, s, budget).Ok?
    ensures
      var end := Run(cfg, s, budget).value;
      NearEnd(end.tick, cfg.down) || Coherent(Engine.Clmm, end.current, end.tick)
    decreases budget
  {
    hide Iterate, NoBetter, Expected, Coherent, NoDuplicates, LimitInRange, NearEnd, Guarded;
    if budget != 0 && !Finished(cfg, s) {
      PassKeepsGuard(cfg, from, liquidity, spot, amount, s);
      PassKeepsLedger(cfg, spot, amount, s);
      PassKeepsBook(cfg, from, liquidity, spot, amount, s);
      var pass := Iterate(cfg, s).value;
      if !pass.stopped {
        GuardedRun(cfg, from, liquidity, spot, amount, pass.state, budget - 1);
      }
    }
  }

  /** An approaching run reaches the end only with its tick behind. */
  lemma {:induction false} ApproachingRun(
      cfg: Config, from: int, liquidity: int, spot: int, amount: int, s: State, budget: nat)
    requires Book(cfg, from, liquidity, s) && Ledger(cfg, spot, amount, s)
    requires NoDuplicates(cfg.ticks) && LimitInRange(cfg) && NoBoundaryNextToEnd(cfg)
    requires Approaches(cfg, s) && Run(cfg, s, budget).Ok?
    ensures
      var end := Run(cfg, s, budget).value;
      end.current == EndOfRange(cfg.down) ==> !NearEnd(end.tick, cfg.down)
    decreases budget
  {
    hide Iterate, NoBetter, Expected, Coherent, NoDuplicates, LimitInRange, NearEnd, Unguarded, Stalled, NoBoundaryNextToEnd;
    if budget != 0 && !Finished(cfg, s) {
      if Stalled(cfg, s) {
        StalledNeverSucceeds(cfg, s, budget);
      } else {
        PassApproaches(cfg, from, liquidity, spot, amount, s);
        PassKeepsLedger(cfg, spot, amount, s);
        PassKeepsBook(cfg, from, liquidity, spot, amount, s);
        var pass := Iterate(cfg, s).value;
        if !pass.stopped {
          ApproachingRun(cfg, from, liquidity, spot, amount, pass.state, budget - 1);
        }
      }
    }
  }

  // ----- an instance -----

  const EMPTY_POOL := Pool(Q64, 0, 0, 1, 0)
  const NO_TICKS: seq<Tick> := []
  const EMPTY_CFG := Config(1, 0, NO_TICKS, MIN_SQRT_PRICE, true, true, Static)
  const EMPTY_START := State(Q64, 0, 0, 1, 0, [], 0)

  lemma CoherentOrigin()
    ensures Coherent(Engine.Clmm, Q64, 0)
  {
    RatiosAtZero();
    hide ClmmRatio;
    assert Price(Engine.Clmm, 0) == Q64;
    hide Price;
    CoherentAt(Engine.Clmm, 0);
  }

  lemma EmptyStart()
    ensures Prepare(EMPTY_POOL, NO_TICKS, 1, MIN_SQRT_PRICE, 0, None, 0, true) == Ok((EMPTY_CFG, EMPTY_START))
  {
    assert InitialOrders(NO_TICKS) == [];
    hide InitialOrders;
  }

  lemma EmptyStep()
    ensures SwapStep(Q64, MIN_SQRT_PRICE, 0, 1, 0, true) == Ok(Step(MIN_SQRT_PRICE, 0, 0, 0))
  {
  }

  lemma EmptyPass()
    ensures Iterate(EMPTY_CFG, EMPTY_START) == Ok(Pass(EMPTY_START.(current := MIN_SQRT_PRICE), true))
  {
    hide Price, SwapStep;
    PriceBounds(Engine.Clmm);
    EmptyStep();
  }

  /** It does happen: with no initialized tick in the way, a coherent pool at tick 0
      runs down to the minimum price and still reports tick 0. */
  lemma TickLeftBehindHappens()
    ensures Coherent(Engine.Clmm, EMPTY_POOL.sqrtPrice, EMPTY_POOL.tickCurrent)
    ensures Swap(EMPTY_POOL, NO_TICKS, 1, MIN_SQRT_PRICE, 0, None, 0, true)
         == Ok(SwapResult(0, 0, MIN_SQRT_PRICE, 0, 0))
    ensures !Coherent(Engine.Clmm, MIN_SQRT_PRICE, 0)
  {
    hide Price, Coherent, Iterate, Prepare;
    CoherentOrigin();
    CoherentAtEnd(0, true);
    EmptyStart();
    EmptyPass();
  }
}
