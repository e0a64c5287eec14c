/** The tick book of CLMM runs: at every loop head the tick brackets the price and
    the liquidity in range accounts for every tick crossed, partially filled orders
    included. */
module ClmmBook {
  import opened Results
  import opened Rounding
  import opened TickPrice
  import opened LiquidityStep
  import opened TickBook
  import opened Clmm
  import opened ClmmPass
  import opened ClmmLedger

  ghost predicate Book(cfg: Config, from: int, liquidity: int, s: State) {
    && Coherent(Engine.Clmm, s.current, s.tick)
    && (if cfg.down then s.tick <= from else from <= s.tick)
    && s.liquidity == Expected(Engine.Clmm, cfg.ticks, liquidity, from, s.tick, cfg.down)
  }

  predicate LimitInRange(cfg: Config) {
    MIN_SQRT_PRICE <= cfg.limit <= MaxSqrtPrice(Engine.Clmm)
  }

  /** Away from the limit there is always a tick ahead in the range. */
  lemma RoomAhead(cfg: Config, s: State)
    requires Coherent(Engine.Clmm, s.current, s.tick) && LimitInRange(cfg)
    requires Within(s.current, cfg.limit, cfg.down) && s.current != cfg.limit
    ensures if cfg.down then MIN_TICK <= s.tick else s.tick < MAX_TICK
  {
    hide Price;
    PriceBounds(Engine.Clmm);
  }

  /** A tick ahead whose liquidity the book counts. */
  predicate Contributes(cfg: Config, tick: int, i: nat)
    requires i < |cfg.ticks|
  {
    Ahead(cfg.ticks[i], tick, cfg.down) && Weight(Engine.Clmm, cfg.ticks[i]) != 0
  }

  predicate Further(t: Tick, next: int, down: bool) {
    if down then t.tick < next else next < t.tick
  }

  /** The tick a pass heads for is ahead, and no contributing tick lies before it. */
  lemma NextIsAhead(cfg: Config, s: State)
    requires |cfg.ticks| == |s.orders| && NoDuplicates(cfg.ticks)
    requires if cfg.down then MIN_TICK <= s.tick else s.tick < MAX_TICK
    ensures
      var next := NextTick(cfg, s);
      && (if cfg.down then next <= s.tick else s.tick < next)
      && forall i: nat :: i < |cfg.ticks| && Contributes(cfg, s.tick, i) ==>
        Next(cfg, s).Some? && (Next(cfg, s).value == i || Further(cfg.ticks[i], next, cfg.down))
  {
    NextMeaning(cfg, s);
    hide Next, NoDuplicates;
    forall i: nat | i < |cfg.ticks| && Contributes(cfg, s.tick, i)
      ensures Next(cfg, s).Some?
          && (Next(cfg, s).value == i || Further(cfg.ticks[i], NextTick(cfg, s), cfg.down))
    {
      assert Candidate(cfg, s.orders, s.tick, i);
    }
  }

  /** The net liquidity between the current tick and the tick a pass ends on. */
  lemma NetOfPass(cfg: Config, s: State, tick': int)
    requires |cfg.ticks| == |s.orders| && NoDuplicates(cfg.ticks)
    requires if cfg.down then MIN_TICK <= s.tick else s.tick < MAX_TICK
    requires
      var next := NextTick(cfg, s);
      if cfg.down then next - 1 <= tick' <= s.tick else s.tick <= tick' <= next
    requires tick' == (if cfg.down then NextTick(cfg, s) - 1 else NextTick(cfg, s)) ==> Next(cfg, s).Some?
    ensures NetBetween(Engine.Clmm, cfg.ticks, Min(s.tick, tick'), Max(s.tick, tick'))
         == if tick' == (if cfg.down then NextTick(cfg, s) - 1 else NextTick(cfg, s))
            then Weight(Engine.Clmm, cfg.ticks[Next(cfg, s).value]) else 0
  {
    NextIsAhead(cfg, s);
    NextMeaning(cfg, s);
    hide Next, NoDuplicates;
    forall i: nat | i < |cfg.ticks| && Ahead(cfg.ticks[i], s.tick, cfg.down) && Weight(Engine.Clmm, cfg.ticks[i]) != 0
      ensures Contributes(cfg, s.tick, i)
    {
    }
    if tick' == (if cfg.down then NextTick(cfg, s) - 1 else NextTick(cfg, s)) {
      NetOfOne(Engine.Clmm, cfg.ticks, Min(s.tick, tick'), Max(s.tick, tick'), Next(cfg, s).value);
    } else {
      NetOfNone(Engine.Clmm, cfg.ticks, Min(s.tick, tick'), Max(s.tick, tick'));
    }
  }

  /** Arriving at a tick crosses it exactly when no orders are left there. */
  lemma ArriveCrosses(cfg: Config, s: State, i: nat, fee: FeeRate)
    requires i < |cfg.ticks| == |s.orders| && Arrive(cfg, s, i, fee).Ok?
    ensures
      var a, t := Arrive(cfg, s, i, fee).value, cfg.ticks[i];
      var crossed := a.orders[i] == 0;
      && |a.orders| == |s.orders| && a.current == s.current
      && a.tick == (if crossed == cfg.down then t.tick - 1 else t.tick)
      && a.liquidity == s.liquidity +
        if !crossed then 0 else if cfg.down then -Weight(Engine.Clmm, t) else Weight(Engine.Clmm, t)
  {
    hide MatchOrders;
  }

  /** Where a pass that does not stop leaves tick and liquidity. */
  lemma LandMeaning(
      cfg: Config, s: State, moved: State, landed: State, nextPrice: nat, fee: FeeRate)
    requires |cfg.ticks| == |s.orders| == |moved.orders|
    requires Coherent(Engine.Clmm, s.current, s.tick) && NoDuplicates(cfg.ticks)
    requires if cfg.down then MIN_TICK <= s.tick else s.tick < MAX_TICK
    requires PriceAt(Engine.Clmm, NextTick(cfg, s)) == Ok(nextPrice)
    requires moved.tick == s.tick && moved.liquidity == s.liquidity
    requires if cfg.down then nextPrice <= moved.current <= s.current else s.current <= moved.current <= nextPrice
    requires
      if moved.current == nextPrice then
        Next(cfg, s).Some? && Arrive(cfg, moved, Next(cfg, s).value, fee) == Ok(landed)
      else if moved.current != s.current then
        TickAt(Engine.Clmm, moved.current).Ok? && landed == moved.(tick := TickAt(Engine.Clmm, moved.current).value)
      else landed == moved
    ensures Coherent(Engine.Clmm, landed.current, landed.tick)
    ensures if cfg.down then landed.tick <= s.tick else s.tick <= landed.tick
    ensures
      var net := NetBetween(Engine.Clmm, cfg.ticks, Min(s.tick, landed.tick), Max(s.tick, landed.tick));
      landed.liquidity == s.liquidity + if cfg.down then -net else net
  {
    hide Price, Next, NoDuplicates, Coherent, Arrive, TickAt, NetBetween;
    NextIsAhead(cfg, s);
    var next := NextTick(cfg, s);
    if moved.current == nextPrice {
      NextMeaning(cfg, s);
      ArriveCrosses(cfg, moved, Next(cfg, s).value, fee);
      CoherentAt(Engine.Clmm, next);
      NetOfPass(cfg, s, landed.tick);
    } else if moved.current != s.current {
      CoherentOnTheWay(Engine.Clmm, s.current, s.tick, moved.current, landed.tick, next, cfg.down);
      NetOfPass(cfg, s, landed.tick);
    } else {
      NetOfNone(Engine.Clmm, cfg.ticks, s.tick, s.tick);
    }
  }

  /** Every pass that does not stop keeps the book; one that stops leaves tick and
      liquidity alone and the price at the end of the tick range. */
  lemma PassKeepsBook(cfg: Config, from: int, liquidity: int, spot: int, amount: int, s: State)
    requires Book(cfg, from, liquidity, s) && Ledger(cfg, spot, amount, s) && !Finished(cfg, s)
    requires NoDuplicates(cfg.ticks) && LimitInRange(cfg)
    requires Iterate(cfg, s).Ok?
    ensures
      var pass := Iterate(cfg, s).value;
      if pass.stopped then
        && pass.state.tick == s.tick && pass.state.liquidity == s.liquidity
        && pass.state.current == Price(Engine.Clmm, if cfg.down then MIN_TICK else MAX_TICK)
      else Book(cfg, from, liquidity, pass.state)
  {
    hide Iterate, Next, Price, SwapStep, TickAt, FeeAt, Bound, Arrive, Move, NoBetter, Coherent, Expected, NoDuplicates;
    var best, nextTick, nextPrice, bound, moved, landed := PassMeaning(cfg, s);
    BoundWithinTarget(cfg, s.group, s.liquidity, Toward(nextPrice, cfg.limit, cfg.down));
    MoveMeaning(cfg, s, bound, FeeAt(cfg, s.group), spot, amount);
    RoomAhead(cfg, s);
    if !Iterate(cfg, s).value.stopped {
      LandMeaning(cfg, s, moved, landed, nextPrice, FeeAt(cfg, s.group));
      ExpectedAdvances(Engine.Clmm, cfg.ticks, liquidity, from, s.tick, landed.tick, cfg.down,
                       NetBetween(Engine.Clmm, cfg.ticks, Min(s.tick, landed.tick), Max(s.tick, landed.tick)));
    }
  }

  lemma {:induction false} VisitedKeepsBook(
      cfg: Config, from: int, liquidity: int, spot: int, amount: int, start: State, k: nat)
    requires Book(cfg, from, liquidity, start) && Ledger(cfg, spot, amount, start)
    requires NoDuplicates(cfg.ticks) && LimitInRange(cfg)
    requires Visited(cfg, start, k).Ok?
    ensures Book(cfg, from, liquidity, Visited(cfg, start, k).value)
  {
    hide Book, NoBetter, Iterate, NoDuplicates;
    if k > 0 {
      VisitedKeepsBook(cfg, from, liquidity, spot, amount, start, k - 1);
      VisitedKeepsLedger(cfg, spot, amount, start, k - 1);
      PassKeepsBook(cfg, from, liquidity, spot, amount, Visited(cfg, start, k - 1).value);
    }
  }

  lemma StartBook(cfg: Config, start: State)
    requires Coherent(Engine.Clmm, start.current, start.tick)
    ensures Book(cfg, start.tick, start.liquidity, start)
  {
    NetOfNone(Engine.Clmm, cfg.ticks, start.tick, start.tick);
  }

  /** At every loop head of a swap from a coherent pool, the tick brackets the price
      and liquidity is the starting liquidity minus (down) or plus (up) the summed
      `liquidityNet` of the ticks crossed since the start. */
  lemma VisitedBook(
      pool: Pool, ticks: seq<Tick>, amount: int, limit: int, feeOn: int, dynamic: Option<DynamicFee>,
      timestamp: int, down: bool, k: nat)
    requires Prepare(pool, ticks, amount, limit, feeOn, dynamic, timestamp, down).Ok?
    requires Coherent(Engine.Clmm, pool.sqrtPrice, pool.tickCurrent)
    requires
      var (cfg, start) := Prepare(pool, ticks, amount, limit, feeOn, dynamic, timestamp, down).value;
      Visited(cfg, start, k).Ok?
    ensures
      var (cfg, start) := Prepare(pool, ticks, amount, limit, feeOn, dynamic, timestamp, down).value;
      var s := Visited(cfg, start, k).value;
      && Coherent(Engine.Clmm, s.current, s.tick)
      && (if down then s.tick <= pool.tickCurrent else pool.tickCurrent <= s.tick)
      && s.liquidity == Expected(Engine.Clmm, ticks, pool.liquidity, pool.tickCurrent, s.tick, down)
  {
    hide Prepare, Iterate, Ledger, Coherent, Visited, NoDuplicates, Expected;
    StartMeaning(pool, ticks, amount, limit, feeOn, dynamic, timestamp, down);
    StartLedger(pool, ticks, amount, limit, feeOn, dynamic, timestamp, down);
    var (cfg, start) := Prepare(pool, ticks, amount, limit, feeOn, dynamic, timestamp, down).value;
    StartBook(cfg, start);
    VisitedKeepsBook(cfg, pool.tickCurrent, pool.liquidity, pool.sqrtPrice, amount, start, k);
  }

  /** The book of a result: the liquidity accounts for the ticks between the pool's and
      the returned tick, and the returned tick brackets the returned price unless the
      price is the end of the tick range, which takes a limit set there. */
  lemma SwapBook(
      pool: Pool, ticks: seq<Tick>, amount: int, limit: int, feeOn: int, dynamic: Option<DynamicFee>,
      timestamp: int, down: bool)
    requires Swap(pool, ticks, amount, limit, feeOn, dynamic, timestamp, down).Ok?
    requires Coherent(Engine.Clmm, pool.sqrtPrice, pool.tickCurrent)
    ensures
      var r := Swap(pool, ticks, amount, limit, feeOn, dynamic, timestamp, down).value;
      var end := if down then MIN_SQRT_PRICE else MaxSqrtPrice(Engine.Clmm);
      && (if down then r.tickCurrent <= pool.tickCurrent else pool.tickCurrent <= r.tickCurrent)
      && r.liquidity == Expected(Engine.Clmm, ticks, pool.liquidity, pool.tickCurrent, r.tickCurrent, down)
      && MIN_TICK - 1 <= r.tickCurrent <= MAX_TICK
      && (Coherent(Engine.Clmm, r.sqrtPrice, r.tickCurrent) || r.sqrtPrice == end)
      && (r.sqrtPrice == end ==> limit == end)
  {
    hide Prepare, Iterate, NoBetter, Run, Visited, Coherent, Expected, NoDuplicates, Price;
    StartMeaning(pool, ticks, amount, limit, feeOn, dynamic, timestamp, down);
    StartLedger(pool, ticks, amount, limit, feeOn, dynamic, timestamp, down);
    var (cfg, start) := Prepare(pool, ticks, amount, limit, feeOn, dynamic, timestamp, down).value;
    VisitedStart(cfg, start);
    StartBook(cfg, start);
    var j := RunVisits(cfg, start, 0, start, BUDGET);
    var s, end := Visited(cfg, start, j).value, Run(cfg, start, BUDGET).value;
    VisitedKeepsBook(cfg, pool.tickCurrent, pool.liquidity, pool.sqrtPrice, amount, start, j);
    VisitedKeepsLedger(cfg, pool.sqrtPrice, amount, start, j);
    EndLedger(cfg, pool.sqrtPrice, amount, start, j, end);
    CoherentInTicks(s.current, s.tick);
    if s != end {
      PassKeepsBook(cfg, pool.tickCurrent, pool.liquidity, pool.sqrtPrice, amount, s);
      PriceBounds(Engine.Clmm);
    }
  }

  lemma CoherentInTicks(sqrtPrice: int, tick: int)
    requires Coherent(Engine.Clmm, sqrtPrice, tick)
    ensures MIN_TICK - 1 <= tick <= MAX_TICK
  {
  }
}
