/** The one way a CLMM run may land next to an unguarded end of its tick range after all:
    upwards, under a dynamic fee, pausing at a group boundary on the last tick but one.
    Whether it does is decided by the groups between the last tick with liquidity or
    orders and that boundary. */
module ClmmLastStretch {
  import opened Results
  import opened Rounding
  import opened TickPrice
  import opened LiquidityStep
  import opened TickBook
  import opened TickGroups
  import opened Clmm
  import opened ClmmPass
  import opened ClmmLedger
  import opened ClmmBook
  import opened ClmmMonotone
  import opened ClmmGroups
  import opened ClmmRangeEnd

  const LAST_EDGE: int := MAX_TICK - 1

  /** Upwards, with a group boundary on the last tick but one. */
  predicate BoundaryNextToEnd(cfg: Config) {
    !cfg.down && cfg.rule.Dynamic? && LAST_EDGE % cfg.spacing == 0
  }

  /** The highest tick above `tick` that has liquidity or orders, else `tick`. */
  function LastTick(ticks: seq<Tick>, tick: int): int {
    if ticks == [] then tick
    else
      var last := LastTick(ticks[1..], tick);
      if Marked(ticks[0]) && last < ticks[0].tick then ticks[0].tick else last
  }

  lemma {:induction false} LastTickMeaning(ticks: seq<Tick>, tick: int)
    ensures tick <= LastTick(ticks, tick)
    ensures tick < LastTick(ticks, tick) ==> exists t :: t in ticks && Marked(t) && t.tick == LastTick(ticks, tick)
    ensures forall t :: t in ticks && Marked(t) ==> t.tick <= LastTick(ticks, tick)
  {
    if ticks != [] {
      LastTickMeaning(ticks[1..], tick);
      assert forall t :: t in ticks <==> t == ticks[0] || t in ticks[1..];
    }
  }

  /** No group from `group` to the last boundary is skipped with this liquidity. */
  ghost predicate Pauses(cfg: Config, group: int, liquidity: int) {
    var last: int := LAST_EDGE / cfg.spacing;
    forall h :: group <= h < last ==> !Skips(cfg, h, liquidity)
  }

  /** A tick with liquidity or orders is still ahead, and `last` is the last one. */
  ghost predicate TicksAhead(cfg: Config, s: State, last: int)
    requires |cfg.ticks| == |s.orders|
  {
    && (exists i: nat :: i < |cfg.ticks| && Candidate(cfg, s.orders, s.tick, i) && cfg.ticks[i].tick == last)
    && forall i: nat :: i < |cfg.ticks| && Candidate(cfg, s.orders, s.tick, i) ==> cfg.ticks[i].tick <= last
  }

  /** Nothing is ahead any more, and no group since `group` was skipped. */
  ghost predicate OnStretch(cfg: Config, s: State, group: int)
    requires |cfg.ticks| == |s.orders|
  {
    && (forall i: nat :: i < |cfg.ticks| ==> !Candidate(cfg, s.orders, s.tick, i))
    && group <= s.group
    && forall h :: group <= h < s.group ==> !Skips(cfg, h, s.liquidity)
  }

  /** The run is below the last boundary, before or on its last stretch. */
  ghost predicate Below(cfg: Config, s: State, last: int)
    requires |cfg.ticks| == |s.orders|
  {
    && Unguarded(cfg, s) && Grouped(cfg, s)
    && s.tick < LAST_EDGE && s.current < Price(Engine.Clmm, LAST_EDGE)
    && (TicksAhead(cfg, s, last) || OnStretch(cfg, s, last / cfg.spacing))
  }

  lemma EdgePrice()
    ensures Price(Engine.Clmm, LAST_EDGE) < MaxSqrtPrice(Engine.Clmm) == Price(Engine.Clmm, MAX_TICK)
  {
    hide Price;
    PriceBounds(Engine.Clmm);
    PriceIncreases(Engine.Clmm, LAST_EDGE, MAX_TICK);
  }

  /** Below the last boundary the group is below it too. */
  lemma GroupBelow(cfg: Config, s: State)
    requires |cfg.ticks| == |s.orders| && BoundaryNextToEnd(cfg) && Grouped(cfg, s)
    requires s.current < Price(Engine.Clmm, LAST_EDGE)
    ensures s.group < LAST_EDGE / cfg.spacing
    ensures Edge(Engine.Clmm, s.group + 1, cfg.spacing) <= Price(Engine.Clmm, LAST_EDGE)
    ensures s.group + 1 < LAST_EDGE / cfg.spacing ==>
      Edge(Engine.Clmm, s.group + 1, cfg.spacing) < Price(Engine.Clmm, LAST_EDGE)
    ensures s.group + 1 == LAST_EDGE / cfg.spacing ==>
      Edge(Engine.Clmm, s.group + 1, cfg.spacing) == Price(Engine.Clmm, LAST_EDGE)
  {
    hide Price;
    var last: int := LAST_EDGE / cfg.spacing;
    assert LAST_EDGE == cfg.spacing * last;
    PriceOrder(Engine.Clmm, LAST_EDGE, Clamp(s.group * cfg.spacing));
    if last <= s.group {
      MulMono(last, s.group, cfg.spacing);
    } else {
      MulMono(s.group + 1, last, cfg.spacing);
      PriceOrder(Engine.Clmm, Clamp((s.group + 1) * cfg.spacing), LAST_EDGE);
      PriceOrder(Engine.Clmm, LAST_EDGE, Clamp((s.group + 1) * cfg.spacing));
      if s.group + 1 < last {
        MulStrict(s.group + 1, last, cfg.spacing);
      }
    }
  }

  // ----- one pass -----

  /** A pass with ticks ahead ends before the last of them, or on it with a fresh stretch. */
  lemma PassTowardsLast(cfg: Config, spot: int, amount: int, s: State, last: int)
    requires Ledger(cfg, spot, amount, s) && !Finished(cfg, s)
    requires NoDuplicates(cfg.ticks) && LimitInRange(cfg) && Coherent(Engine.Clmm, s.current, s.tick)
    requires BoundaryNextToEnd(cfg) && AlignedTicks(cfg.ticks, cfg.spacing) && Below(cfg, s, last)
    requires TicksAhead(cfg, s, last)
    requires Iterate(cfg, s).Ok? && !Iterate(cfg, s).value.stopped
    requires !Finished(cfg, Iterate(cfg, s).value.state) && !Stalled(cfg, Iterate(cfg, s).value.state)
    requires Coherent(Engine.Clmm, Iterate(cfg, s).value.state.current, Iterate(cfg, s).value.state.tick)
    ensures Below(cfg, Iterate(cfg, s).value.state, last)
  {
    hide Iterate, Nearest, Price, FeeAt, NoBetter, NoDuplicates, Stalled, LimitInRange, Grouped, AlignedTicks, Skips,
      Edge, Bound, TickAt;
    PassKeepsGroup(cfg, spot, amount, s);
    EdgePrice();
    PassKeepsUnguarded(cfg, spot, amount, s);
    var nextPrice, bound, s' := UnfinishedPass(cfg, spot, amount, s);
    NextMeaning(cfg, s);
    var i: nat :| i < |cfg.ticks| && Candidate(cfg, s.orders, s.tick, i) && cfg.ticks[i].tick == last;
    var next := NextTick(cfg, s);
    assert !Guards(cfg, s, i);
    PriceOrder(Engine.Clmm, LAST_EDGE, next);
    if bound == nextPrice {
      CrossingKeepsGroup(cfg, s, s', nextPrice);
      if next != last {
        assert Candidate(cfg, s'.orders, s'.tick, i);
      }
    } else {
      if InRange(s'.tick) {
        PriceOrder(Engine.Clmm, next, s'.tick);
      }
      assert Candidate(cfg, s'.orders, s'.tick, i);
    }
    forall j: nat | j < |cfg.ticks| && Candidate(cfg, s'.orders, s'.tick, j)
      ensures Candidate(cfg, s.orders, s.tick, j) && (bound == nextPrice ==> next < last)
    {
    }
  }

  /** A pass on the last stretch pauses at the next boundary, which may be the last one. */
  lemma PassOnStretch(cfg: Config, spot: int, amount: int, s: State, last: int)
    requires Ledger(cfg, spot, amount, s) && !Finished(cfg, s)
    requires NoDuplicates(cfg.ticks) && LimitInRange(cfg) && Coherent(Engine.Clmm, s.current, s.tick)
    requires BoundaryNextToEnd(cfg) && AlignedTicks(cfg.ticks, cfg.spacing) && Below(cfg, s, last)
    requires OnStretch(cfg, s, last / cfg.spacing)
    requires Iterate(cfg, s).Ok? && !Iterate(cfg, s).value.stopped
    requires !Finished(cfg, Iterate(cfg, s).value.state) && !Stalled(cfg, Iterate(cfg, s).value.state)
    requires Coherent(Engine.Clmm, Iterate(cfg, s).value.state.current, Iterate(cfg, s).value.state.tick)
    ensures !Skips(cfg, s.group, s.liquidity) && Iterate(cfg, s).value.state.liquidity == s.liquidity
    ensures if s.group + 1 < LAST_EDGE / cfg.spacing then Below(cfg, Iterate(cfg, s).value.state, last)
            else s.group + 1 == LAST_EDGE / cfg.spacing && Iterate(cfg, s).value.state.tick == LAST_EDGE
  {
    hide Iterate, Nearest, Price, FeeAt, NoBetter, NoDuplicates, Stalled, LimitInRange, Grouped, AlignedTicks, Skips,
      Edge, Bound, TickAt;
    PassKeepsGroup(cfg, spot, amount, s);
    EdgePrice();
    GroupBelow(cfg, s);
    PassKeepsUnguarded(cfg, spot, amount, s);
    var nextPrice, bound, s' := UnfinishedPass(cfg, spot, amount, s);
    NextMeaning(cfg, s);
    BoundCases(cfg, s.group, s.liquidity, Toward(nextPrice, cfg.limit, cfg.down));
    TickAtInvertsPrice(Engine.Clmm, LAST_EDGE);
    if s.group + 1 < LAST_EDGE / cfg.spacing {
      if InRange(s'.tick) {
        PriceOrder(Engine.Clmm, LAST_EDGE, s'.tick);
      }
      forall j: nat | j < |cfg.ticks|
        ensures !Candidate(cfg, s'.orders, s'.tick, j)
      {
        assert !Candidate(cfg, s.orders, s.tick, j);
      }
    }
  }

  /** A run that stops from below the last boundary skips a group of its last stretch. */
  lemma StopSkips(cfg: Config, spot: int, amount: int, s: State, last: int)
    requires Ledger(cfg, spot, amount, s) && BoundaryNextToEnd(cfg) && Below(cfg, s, last)
    requires NoDuplicates(cfg.ticks) && Iterate(cfg, s).Ok? && Iterate(cfg, s).value.stopped
    ensures OnStretch(cfg, s, last / cfg.spacing) && !Pauses(cfg, last / cfg.spacing, s.liquidity)
  {
    hide Iterate, Nearest, Price, FeeAt, NoBetter, NoDuplicates, Grouped, Skips, Edge, Bound, Move, Arrive, TickAt;
    var best, nextTick, nextPrice, bound, moved, landed := PassMeaning(cfg, s);
    NextMeaning(cfg, s);
    EdgePrice();
    GroupBelow(cfg, s);
    BoundWithinTarget(cfg, s.group, s.liquidity, Toward(nextPrice, cfg.limit, cfg.down));
    BoundCases(cfg, s.group, s.liquidity, Toward(nextPrice, cfg.limit, cfg.down));
    MoveMeaning(cfg, s, bound, FeeAt(cfg, s.group), spot, amount);
    assert Skips(cfg, s.group, s.liquidity);
  }

  // ----- whole runs -----

  /** On the last stretch the liquidity is what the book says at the last boundary. */
  lemma StretchLiquidity(cfg: Config, from: int, liquidity: int, s: State, group: int)
    requires |cfg.ticks| == |s.orders| && Book(cfg, from, liquidity, s) && !cfg.down
    requires OnStretch(cfg, s, group) && s.tick < LAST_EDGE
    ensures s.liquidity == Expected(Engine.Clmm, cfg.ticks, liquidity, from, LAST_EDGE - 1, false)
  {
    hide Price;
    forall i | 0 <= i < |cfg.ticks| && s.tick < cfg.ticks[i].tick <= LAST_EDGE - 1
      ensures Weight(Engine.Clmm, cfg.ticks[i]) == 0
    {
      assert !Candidate(cfg, s.orders, s.tick, i);
    }
    NetOfNone(Engine.Clmm, cfg.ticks, s.tick, LAST_EDGE - 1);
    NetSplits(Engine.Clmm, cfg.ticks, from, s.tick, LAST_EDGE - 1);
  }

  /** A stretch that pauses at the last boundary has skipped none of its groups. */
  lemma StretchPauses(cfg: Config, s: State, group: int)
    requires |cfg.ticks| == |s.orders| && OnStretch(cfg, s, group)
    requires s.group + 1 == LAST_EDGE / cfg.spacing && !Skips(cfg, s.group, s.liquidity)
    ensures Pauses(cfg, group, s.liquidity)
  {
    hide Skips;
  }

  /** From next to the end a run stays next to it. */
  lemma NearRun(cfg: Config, from: int, liquidity: int, spot: int, amount: int, s: State, budget: nat)
    requires Book(cfg, from, liquidity, s) && Ledger(cfg, spot, amount, s) && s.tick == LAST_EDGE && !cfg.down
    requires NoDuplicates(cfg.ticks) && LimitInRange(cfg) && Run(cfg, s, budget).Ok?
    ensures
      var end := Run(cfg, s, budget).value;
      end.current == EndOfRange(false) ==> NearEnd(end.tick, false)
  {
    hide NoBetter, Run, NoDuplicates, LimitInRange, Expected, Price;
    GuardedRun(cfg, from, liquidity, spot, amount, s, budget);
    var end := Run(cfg, s, budget).value;
    if Coherent(Engine.Clmm, end.current, end.tick) {
      CoherentAtEnd(end.tick, false);
    }
  }

  /** A run from below the last boundary that reaches the end of the range lands next to
      it exactly when it skips no group of its last stretch. */
  lemma {:induction false} StretchRun(
      cfg: Config, from: int, liquidity: int, spot: int, amount: int, s: State, last: int, budget: nat)
    requires Book(cfg, from, liquidity, s) && Ledger(cfg, spot, amount, s)
    requires NoDuplicates(cfg.ticks) && LimitInRange(cfg) && AlignedTicks(cfg.ticks, cfg.spacing)
    requires BoundaryNextToEnd(cfg) && Below(cfg, s, last) && Run(cfg, s, budget).Ok?
    ensures
      var end := Run(cfg, s, budget).value;
      var final := Expected(Engine.Clmm, cfg.ticks, liquidity, from, LAST_EDGE - 1, false);
      end.current == EndOfRange(false) ==>
        (NearEnd(end.tick, false) <==> Pauses(cfg, last / cfg.spacing, final))
    decreases budget
  {
    hide Iterate, NoBetter, Expected, Coherent, NoDuplicates, LimitInRange, AlignedTicks, Stalled, Price, Pauses, Below,
      Guarded, TicksAhead;
    EdgePrice();
    BelowParts(cfg, s, last);
    if budget != 0 && !Finished(cfg, s) {
      PassKeepsLedger(cfg, spot, amount, s);
      PassKeepsBook(cfg, from, liquidity, spot, amount, s);
      var pass := Iterate(cfg, s).value;
      if pass.stopped {
        StopSkips(cfg, spot, amount, s, last);
        StretchLiquidity(cfg, from, liquidity, s, last / cfg.spacing);
        PassKeepsUnguarded(cfg, spot, amount, s);
      } else if Stalled(cfg, pass.state) {
        StalledNeverSucceeds(cfg, pass.state, budget - 1);
      } else if Finished(cfg, pass.state) {
        PassKeepsUnguarded(cfg, spot, amount, s);
      } else if TicksAhead(cfg, s, last) {
        PassTowardsLast(cfg, spot, amount, s, last);
        StretchRun(cfg, from, liquidity, spot, amount, pass.state, last, budget - 1);
      } else {
        PassOnStretch(cfg, spot, amount, s, last);
        if s.group + 1 < LAST_EDGE / cfg.spacing {
          StretchRun(cfg, from, liquidity, spot, amount, pass.state, last, budget - 1);
        } else {
          StretchLiquidity(cfg, from, liquidity, s, last / cfg.spacing);
          StretchPauses(cfg, s, last / cfg.spacing);
          NearRun(cfg, from, liquidity, spot, amount, pass.state, budget - 1);
        }
      }
    }
  }

  lemma BelowParts(cfg: Config, s: State, last: int)
    requires |cfg.ticks| == |s.orders| && Below(cfg, s, last)
    ensures Unguarded(cfg, s) && s.tick < LAST_EDGE && s.current < Price(Engine.Clmm, LAST_EDGE)
    ensures TicksAhead(cfg, s, last) || OnStretch(cfg, s, last / cfg.spacing)
  {
  }

  /** A run that stands at the last boundary with its tick below it never re-derives it. */
  lemma {:induction false} EdgeRun(
      cfg: Config, from: int, liquidity: int, spot: int, amount: int, s: State, budget: nat)
    requires Book(cfg, from, liquidity, s) && Ledger(cfg, spot, amount, s)
    requires NoDuplicates(cfg.ticks) && LimitInRange(cfg) && !cfg.down
    requires Unguarded(cfg, s) && s.tick == LAST_EDGE - 1 && s.current == Price(Engine.Clmm, LAST_EDGE)
    requires Run(cfg, s, budget).Ok?
    ensures
      var end := Run(cfg, s, budget).value;
      end.current == EndOfRange(false) ==> !NearEnd(end.tick, false)
    decreases budget
  {
    hide Iterate, NoBetter, Expected, Coherent, NoDuplicates, LimitInRange, Stalled, Price, Unguarded;
    EdgePrice();
    if budget != 0 && !Finished(cfg, s) {
      PassKeepsLedger(cfg, spot, amount, s);
      PassKeepsBook(cfg, from, liquidity, spot, amount, s);
      PassKeepsUnguarded(cfg, spot, amount, s);
      var pass := Iterate(cfg, s).value;
      if !pass.stopped {
        if Stalled(cfg, pass.state) {
          StalledNeverSucceeds(cfg, pass.state, budget - 1);
        } else if !Finished(cfg, pass.state) {
          EdgePass(cfg, spot, amount, s);
          EdgeRun(cfg, from, liquidity, spot, amount, pass.state, budget - 1);
        }
      }
    }
  }

  lemma EdgePass(cfg: Config, spot: int, amount: int, s: State)
    requires Ledger(cfg, spot, amount, s) && !Finished(cfg, s)
    requires NoDuplicates(cfg.ticks) && LimitInRange(cfg) && Coherent(Engine.Clmm, s.current, s.tick) && !cfg.down
    requires Unguarded(cfg, s) && s.tick == LAST_EDGE - 1 && s.current == Price(Engine.Clmm, LAST_EDGE)
    requires Iterate(cfg, s).Ok? && !Iterate(cfg, s).value.stopped
    requires !Finished(cfg, Iterate(cfg, s).value.state) && !Stalled(cfg, Iterate(cfg, s).value.state)
    ensures Iterate(cfg, s).value.state.tick == s.tick && Iterate(cfg, s).value.state.current == s.current
  {
    hide Iterate, Nearest, Price, NoBetter, Coherent, NoDuplicates, LimitInRange, Stalled, Bound, Skips, NextGroup, TickAt;
    EdgePrice();
    var nextPrice, bound, s' := UnfinishedPass(cfg, spot, amount, s);
    NextMeaning(cfg, s);
    forall i: nat | i < |cfg.ticks|
      ensures !Candidate(cfg, s.orders, s.tick, i)
    {
      assert !Guards(cfg, s, i);
    }
    var b := BoundaryBound(cfg, s.group, s.liquidity, Toward(nextPrice, cfg.limit, cfg.down));
    PriceOrder(Engine.Clmm, LAST_EDGE, b);
  }

  // ----- the whole swap -----

  /** From this pool an upward swap pauses at a group boundary on the last tick but one. */
  ghost predicate PausesNextToEnd(pool: Pool, ticks: seq<Tick>, cfg: Config) {
    && BoundaryNextToEnd(cfg) && pool.sqrtPrice < Price(Engine.Clmm, LAST_EDGE)
    && Pauses(cfg, LastTick(ticks, pool.tickCurrent) / cfg.spacing,
              Expected(Engine.Clmm, ticks, pool.liquidity, pool.tickCurrent, LAST_EDGE - 1, false))
  }

  lemma StartUnguarded(
      pool: Pool, ticks: seq<Tick>, amount: int, limit: int, feeOn: int, dynamic: Option<DynamicFee>,
      timestamp: int, down: bool)
    requires Prepare(pool, ticks, amount, limit, feeOn, dynamic, timestamp, down).Ok?
    ensures
      var (cfg, start) := Prepare(pool, ticks, amount, limit, feeOn, dynamic, timestamp, down).value;
      && (EndGuarded(pool.tickCurrent, ticks, down) ==> Guarded(cfg, start))
      && (!EndGuarded(pool.tickCurrent, ticks, down) ==> Unguarded(cfg, start) && !NearEnd(start.tick, cfg.down))
      && LimitInRange(cfg) && start.current != EndOfRange(down)
  {
    hide Prepare, LeadsToEnd, NoDuplicates;
    StartMeaning(pool, ticks, amount, limit, feeOn, dynamic, timestamp, down);
    var (cfg, start) := Prepare(pool, ticks, amount, limit, feeOn, dynamic, timestamp, down).value;
    if t :| t in ticks && LeadsToEnd(t.tick, down) && Marked(t) {
      var i: nat :| i < |ticks| && ticks[i] == t;
      assert Guards(cfg, start, i);
    } else {
      forall i: nat | i < |cfg.ticks|
        ensures !Guards(cfg, start, i)
      {
        assert ticks[i] in ticks;
      }
    }
  }

  lemma StartBelow(
      pool: Pool, ticks: seq<Tick>, amount: int, limit: int, feeOn: int, dynamic: Option<DynamicFee>,
      timestamp: int, down: bool)
    requires Prepare(pool, ticks, amount, limit, feeOn, dynamic, timestamp, down).Ok?
    requires Coherent(Engine.Clmm, pool.sqrtPrice, pool.tickCurrent) && !EndGuarded(pool.tickCurrent, ticks, down)
    requires BoundaryNextToEnd(Prepare(pool, ticks, amount, limit, feeOn, dynamic, timestamp, down).value.0)
    requires pool.sqrtPrice < Price(Engine.Clmm, LAST_EDGE)
    ensures
      var (cfg, start) := Prepare(pool, ticks, amount, limit, feeOn, dynamic, timestamp, down).value;
      AlignedTicks(cfg.ticks, cfg.spacing) && Below(cfg, start, LastTick(ticks, pool.tickCurrent))
  {
    hide Prepare, Price, NoDuplicates, Grouped, AlignedTicks, Unguarded, LastTick;
    StartMeaning(pool, ticks, amount, limit, feeOn, dynamic, timestamp, down);
    StartAligned(pool, ticks, amount, limit, feeOn, dynamic, timestamp, down);
    StartUnguarded(pool, ticks, amount, limit, feeOn, dynamic, timestamp, down);
    var (cfg, start) := Prepare(pool, ticks, amount, limit, feeOn, dynamic, timestamp, down).value;
    CoherentInGroup(cfg, start);
    LastTickMeaning(ticks, pool.tickCurrent);
    var last := LastTick(ticks, pool.tickCurrent);
    forall i: nat | i < |cfg.ticks| && Candidate(cfg, start.orders, start.tick, i)
      ensures start.tick < cfg.ticks[i].tick <= last
    {
      assert ticks[i] in ticks && Marked(ticks[i]);
    }
    if pool.tickCurrent < last {
      var t :| t in ticks && Marked(t) && t.tick == last;
      var i: nat :| i < |ticks| && ticks[i] == t;
      assert Candidate(cfg, start.orders, start.tick, i);
    }
  }

  /** A result from a coherent pool is coherent exactly when it does not stand at the end of
      the tick range, or the end is guarded, or the swap pauses next to it. All but the
      first is decided by the pool, its ticks and the fee rule; the first takes a limit set
      at the end. */
  lemma ResultIsCoherentExactly(
      pool: Pool, ticks: seq<Tick>, amount: int, limit: int, feeOn: int, dynamic: Option<DynamicFee>,
      timestamp: int, down: bool)
    requires Swap(pool, ticks, amount, limit, feeOn, dynamic, timestamp, down).Ok?
    requires Coherent(Engine.Clmm, pool.sqrtPrice, pool.tickCurrent)
    ensures
      var cfg := Prepare(pool, ticks, amount, limit, feeOn, dynamic, timestamp, down).value.0;
      var r := Swap(pool, ticks, amount, limit, feeOn, dynamic, timestamp, down).value;
      && (Coherent(Engine.Clmm, r.sqrtPrice, r.tickCurrent) <==>
            || r.sqrtPrice != EndOfRange(down)
            || EndGuarded(pool.tickCurrent, ticks, down)
            || PausesNextToEnd(pool, ticks, cfg))
      && (r.sqrtPrice == EndOfRange(down) ==> limit == EndOfRange(down))
  {
    hide Prepare, NoBetter, Run, Coherent, Expected, NoDuplicates, Price, LimitInRange, EndGuarded, Guarded, Unguarded,
      Pauses, Below, NearEnd, AlignedTicks, LastTick;
    SwapBook(pool, ticks, amount, limit, feeOn, dynamic, timestamp, down);
    StartMeaning(pool, ticks, amount, limit, feeOn, dynamic, timestamp, down);
    StartLedger(pool, ticks, amount, limit, feeOn, dynamic, timestamp, down);
    StartUnguarded(pool, ticks, amount, limit, feeOn, dynamic, timestamp, down);
    var (cfg, start) := Prepare(pool, ticks, amount, limit, feeOn, dynamic, timestamp, down).value;
    var from, liquidity, spot := pool.tickCurrent, pool.liquidity, pool.sqrtPrice;
    StartBook(cfg, start);
    var end := Run(cfg, start, BUDGET).value;
    if end.current == EndOfRange(down) {
      CoherentAtEnd(end.tick, down);
      if EndGuarded(pool.tickCurrent, ticks, down) {
        GuardedRun(cfg, from, liquidity, spot, amount, start, BUDGET);
      } else if NoBoundaryNextToEnd(cfg) {
        ApproachingRun(cfg, from, liquidity, spot, amount, start, BUDGET);
      } else if pool.sqrtPrice < Price(Engine.Clmm, LAST_EDGE) {
        StartBelow(pool, ticks, amount, limit, feeOn, dynamic, timestamp, down);
        StretchRun(cfg, from, liquidity, spot, amount, start, LastTick(ticks, from), BUDGET);
      } else {
        EdgeStart(start.current, start.tick);
        EdgeRun(cfg, from, liquidity, spot, amount, start, BUDGET);
      }
    }
  }

  /** So a coherent pool, with a limit short of the end of the range, or with the end guarded,
      or a pause next to it, has a coherent result whatever is offered. */
  lemma ResultIsCoherent(
      pool: Pool, ticks: seq<Tick>, amount: int, limit: int, feeOn: int, dynamic: Option<DynamicFee>,
      timestamp: int, down: bool)
    requires Swap(pool, ticks, amount, limit, feeOn, dynamic, timestamp, down).Ok?
    requires Coherent(Engine.Clmm, pool.sqrtPrice, pool.tickCurrent)
    requires
      || limit != EndOfRange(down)
      || EndGuarded(pool.tickCurrent, ticks, down)
      || PausesNextToEnd(pool, ticks, Prepare(pool, ticks, amount, limit, feeOn, dynamic, timestamp, down).value.0)
    ensures
      var r := Swap(pool, ticks, amount, limit, feeOn, dynamic, timestamp, down).value;
      Coherent(Engine.Clmm, r.sqrtPrice, r.tickCurrent)
  {
    hide Swap, Coherent, EndGuarded, PausesNextToEnd, Prepare;
    ResultIsCoherentExactly(pool, ticks, amount, limit, feeOn, dynamic, timestamp, down);
  }

  /** A coherent price at the last boundary with a lower tick has the tick just below. */
  lemma EdgeStart(price: int, tick: int)
    requires Coherent(Engine.Clmm, price, tick) && !NearEnd(tick, false) && Price(Engine.Clmm, LAST_EDGE) <= price
    ensures tick == LAST_EDGE - 1 && price == Price(Engine.Clmm, LAST_EDGE)
  {
    hide Price;
    if InRange(tick + 1) {
      PriceOrder(Engine.Clmm, LAST_EDGE, tick + 1);
    }
  }
}
