/** The tick book of Whirlpool runs: at every loop head the tick brackets the
    price, and the liquidity in range accounts for every tick passed. */
module WhirlpoolBook {
  import opened Results
  import opened Rounding
  import opened TickPrice
  import opened LiquidityStep
  import opened TickBook
  import opened Whirlpool
  import opened WhirlpoolPass
  import opened WhirlpoolLedger

  ghost predicate Book(cfg: Config, from: int, liquidity: int, s: State) {
    && Coherent(Engine.Whirlpool, s.current, s.tick)
    && (if cfg.down then s.tick <= from else from <= s.tick)
    && s.liquidity == Expected(Engine.Whirlpool, cfg.ticks, liquidity, from, s.tick, cfg.down)
  }

  /** The net liquidity between the current tick and the tick a pass ends on. */
  lemma NetOfPass(cfg: Config, tick: int, tick': int)
    requires Increasing(cfg.ticks) && Loaded(cfg, tick)
    requires
      var index := NextIndex(cfg, tick);
      if cfg.down then index - 1 <= tick' <= tick else tick <= tick' <= index
    ensures
      var next, index := NextTick(cfg.ticks, tick, cfg.down), NextIndex(cfg, tick);
      NetBetween(Engine.Whirlpool, cfg.ticks, Min(tick, tick'), Max(tick, tick'))
        == if tick' == (if cfg.down then index - 1 else index) && next.Some? then next.value.liquidityNet else 0
  {
    var next, index := NextTick(cfg.ticks, tick, cfg.down), NextIndex(cfg, tick);
    var k := NextTickMeaning(cfg.ticks, tick, cfg.down);
    hide NextTick;
    if tick' == (if cfg.down then index - 1 else index) && next.Some? {
      NetOfOne(Engine.Whirlpool, cfg.ticks, Min(tick, tick'), Max(tick, tick'), k);
    } else {
      NetOfNone(Engine.Whirlpool, cfg.ticks, Min(tick, tick'), Max(tick, tick'));
    }
  }

  /** The tick a pass from a coherent state ends on, and the liquidity it ends with. */
  lemma CrossMeaning(cfg: Config, s: State, nextPrice: nat, price: int)
    requires Coherent(Engine.Whirlpool, s.current, s.tick) && Loaded(cfg, s.tick) && Increasing(cfg.ticks)
    requires PriceAt(Engine.Whirlpool, NextIndex(cfg, s.tick)) == Ok(nextPrice)
    requires if cfg.down then nextPrice <= price <= s.current else s.current <= price <= nextPrice
    requires Cross(cfg, s, NextTick(cfg.ticks, s.tick, cfg.down), NextIndex(cfg, s.tick), nextPrice, price).Ok?
    ensures
      var next, index := NextTick(cfg.ticks, s.tick, cfg.down), NextIndex(cfg, s.tick);
      var (tick', liquidity') := Cross(cfg, s, next, index, nextPrice, price).value;
      && Coherent(Engine.Whirlpool, price, tick')
      && (if cfg.down then index - 1 <= tick' <= s.tick else s.tick <= tick' <= index)
      && (tick' == (if cfg.down then index - 1 else index) <==> price == nextPrice)
      && liquidity' == s.liquidity +
        if price == nextPrice && next.Some?
        then (if cfg.down then -next.value.liquidityNet else next.value.liquidityNet) else 0
  {
    hide Price;
    var k := NextTickMeaning(cfg.ticks, s.tick, cfg.down);
    var index := NextIndex(cfg, s.tick);
    hide NextTick, Increasing, Coherent;
    if price == nextPrice {
      CoherentAt(Engine.Whirlpool, index);
    } else if price != s.current {
      var tick' := TickAt(Engine.Whirlpool, price).value;
      CoherentOnTheWay(Engine.Whirlpool, s.current, s.tick, price, tick', index, cfg.down);
    }
  }

  /** Every pass keeps the book. */
  lemma PassKeepsBook(cfg: Config, from: int, liquidity: int, spot: int, amount: int, s: State)
    requires Book(cfg, from, liquidity, s) && Ledger(cfg, spot, amount, s) && Increasing(cfg.ticks)
    requires Iterate(cfg, s).Ok?
    ensures Book(cfg, from, liquidity, Iterate(cfg, s).value)
  {
    hide Iterate, SwapStep, ChargeFor, FeeAt, NextTick, NextIndex, Price, Cross, NextGroup, Loaded, Charged, NoBetter;
    hide Coherent, Expected, Increasing;
    var next, index, nextPrice, charge, step := PassMeaning(cfg, s);
    ChargeMeaning(cfg, s.group, s.liquidity, Toward(nextPrice, cfg.limit, cfg.down));
    StepBudget(s.current, charge.bound, s.liquidity, s.remaining, charge.fee, cfg.down);
    CrossMeaning(cfg, s, nextPrice, step.sqrtPrice);
    var s' := Iterate(cfg, s).value;
    NetOfPass(cfg, s.tick, s'.tick);
    ExpectedAdvances(Engine.Whirlpool, cfg.ticks, liquidity, from, s.tick, s'.tick, cfg.down,
                     NetBetween(Engine.Whirlpool, cfg.ticks, Min(s.tick, s'.tick), Max(s.tick, s'.tick)));
  }

  lemma {:induction false} VisitedKeepsBook(
      cfg: Config, from: int, liquidity: int, spot: int, amount: int, start: State, k: nat)
    requires Book(cfg, from, liquidity, start) && Ledger(cfg, spot, amount, start) && Increasing(cfg.ticks)
    requires Visited(cfg, start, k).Ok?
    ensures Book(cfg, from, liquidity, Visited(cfg, start, k).value)
  {
    hide Book, Ledger, Iterate, Increasing;
    if k > 0 {
      VisitedKeepsBook(cfg, from, liquidity, spot, amount, start, k - 1);
      VisitedKeepsLedger(cfg, spot, amount, start, k - 1);
      PassKeepsBook(cfg, from, liquidity, spot, amount, Visited(cfg, start, k - 1).value);
    }
  }

  /** The sums over the ordered ticks are those over the ticks as supplied. */
  lemma OrderedKeepsNet(ticks: seq<Tick>, low: int, high: int)
    ensures NetBetween(Engine.Whirlpool, Ordered(ticks), low, high)
         == NetBetween(Engine.Whirlpool, ticks, low, high)
  {
    SortKeepsNet(Engine.Whirlpool, ticks, low, high);
  }

  /** At every loop head of a swap from a coherent pool, the tick brackets the price
      and liquidity is the starting liquidity minus (down) or plus (up) the summed
      `liquidityNet` of exactly the supplied ticks between start and current tick. */
  lemma VisitedBook(
      pool: Pool, ticks: seq<Tick>, arrayStarts: seq<int>, amount: int, timestamp: int, down: bool,
      adaptive: Option<AdaptiveFee>, limit: int, k: nat)
    requires Prepare(pool, ticks, arrayStarts, amount, timestamp, down, adaptive, limit).Ok?
    requires Coherent(Engine.Whirlpool, pool.sqrtPrice, pool.tickCurrent)
    requires
      var (cfg, start) := Prepare(pool, ticks, arrayStarts, amount, timestamp, down, adaptive, limit).value;
      Visited(cfg, start, k).Ok?
    ensures
      var (cfg, start) := Prepare(pool, ticks, arrayStarts, amount, timestamp, down, adaptive, limit).value;
      var s := Visited(cfg, start, k).value;
      && Coherent(Engine.Whirlpool, s.current, s.tick)
      && (if down then s.tick <= pool.tickCurrent else pool.tickCurrent <= s.tick)
      && s.liquidity == pool.liquidity +
        if down then -NetBetween(Engine.Whirlpool, ticks, s.tick, pool.tickCurrent)
        else NetBetween(Engine.Whirlpool, ticks, pool.tickCurrent, s.tick)
  {
    hide Prepare, Iterate, Ledger, Coherent, Visited, Ordered, Increasing;
    StartMeaning(pool, ticks, arrayStarts, amount, timestamp, down, adaptive, limit);
    StartLedger(pool, ticks, arrayStarts, amount, timestamp, down, adaptive, limit);
    var (cfg, start) := Prepare(pool, ticks, arrayStarts, amount, timestamp, down, adaptive, limit).value;
    NetOfNone(Engine.Whirlpool, cfg.ticks, pool.tickCurrent, pool.tickCurrent);
    VisitedKeepsBook(cfg, pool.tickCurrent, pool.liquidity, pool.sqrtPrice, amount, start, k);
    var s := Visited(cfg, start, k).value;
    OrderedKeepsNet(ticks, s.tick, pool.tickCurrent);
    OrderedKeepsNet(ticks, pool.tickCurrent, s.tick);
  }

  /** The same accounts hold of the result. */
  lemma SwapBook(
      pool: Pool, ticks: seq<Tick>, arrayStarts: seq<int>, amount: int, timestamp: int, down: bool,
      adaptive: Option<AdaptiveFee>, limit: int)
    requires Swap(pool, ticks, arrayStarts, amount, timestamp, down, adaptive, limit).Ok?
    requires Coherent(Engine.Whirlpool, pool.sqrtPrice, pool.tickCurrent)
    ensures
      var r := Swap(pool, ticks, arrayStarts, amount, timestamp, down, adaptive, limit).value;
      && Coherent(Engine.Whirlpool, r.sqrtPrice, r.tickCurrent)
      && (if down then r.tickCurrent <= pool.tickCurrent else pool.tickCurrent <= r.tickCurrent)
      && r.liquidity == pool.liquidity +
        if down then -NetBetween(Engine.Whirlpool, ticks, r.tickCurrent, pool.tickCurrent)
        else NetBetween(Engine.Whirlpool, ticks, pool.tickCurrent, r.tickCurrent)
  {
    hide Prepare, Iterate, Coherent, Run, Visited;
    var (cfg, start) := Prepare(pool, ticks, arrayStarts, amount, timestamp, down, adaptive, limit).value;
    VisitedStart(cfg, start);
    var k := RunVisits(cfg, start, 0, start, BUDGET);
    VisitedBook(pool, ticks, arrayStarts, amount, timestamp, down, adaptive, limit, k);
  }
}
