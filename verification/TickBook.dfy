/** Pools, their initialized ticks, and what a traversal may say about them: a
    tick brackets a price, and the liquidity in range is the starting liquidity
    plus or minus the net liquidity of the ticks passed. */
module TickBook {
  import opened Results
  import opened Rounding
  import opened Sorting
  import opened TickPrice

  datatype Tick = Tick(tick: int, liquidityNet: int, liquidityGross: int, orders: int, partialOrders: int)

  datatype Pool = Pool(sqrtPrice: int, liquidity: int, tickCurrent: int, tickSpacing: int, feeRate: int)

  predicate Increasing(ticks: seq<Tick>) {
    forall i, j :: 0 <= i < j < |ticks| ==> ticks[i].tick < ticks[j].tick
  }

  /** The tick lies in the trade direction. */
  predicate Ahead(t: Tick, tick: int, down: bool) {
    if down then t.tick <= tick else tick < t.tick
  }

  /** The net liquidity a tick contributes: CLMM ignores ticks without gross liquidity. */
  function Weight(engine: Engine, t: Tick): int {
    if engine == Whirlpool || t.liquidityGross != 0 then t.liquidityNet else 0
  }

  /** The summed net liquidity of the ticks in `(low, high]`. */
  function NetBetween(engine: Engine, ticks: seq<Tick>, low: int, high: int): int {
    if ticks == [] then 0
    else
      (if low < ticks[0].tick <= high then Weight(engine, ticks[0]) else 0)
      + NetBetween(engine, ticks[1..], low, high)
  }

  lemma {:induction false} NetSplits(engine: Engine, ticks: seq<Tick>, low: int, middle: int, high: int)
    requires low <= middle <= high
    ensures NetBetween(engine, ticks, low, high)
         == NetBetween(engine, ticks, low, middle) + NetBetween(engine, ticks, middle, high)
  {
    if ticks != [] {
      NetSplits(engine, ticks[1..], low, middle, high);
    }
  }

  lemma {:induction false} NetOfNone(engine: Engine, ticks: seq<Tick>, low: int, high: int)
    requires forall i :: 0 <= i < |ticks| && low < ticks[i].tick <= high ==> Weight(engine, ticks[i]) == 0
    ensures NetBetween(engine, ticks, low, high) == 0
  {
    if ticks != [] {
      assert forall i :: 0 <= i < |ticks[1..]| ==> ticks[1..][i] == ticks[i + 1];
      NetOfNone(engine, ticks[1..], low, high);
    }
  }

  /** When only `ticks[k]` counts in `(low, high]`, the sum is its contribution. */
  lemma {:induction false} NetOfOne(engine: Engine, ticks: seq<Tick>, low: int, high: int, k: nat)
    requires k < |ticks| && low < ticks[k].tick <= high
    requires forall i :: 0 <= i < |ticks| && i != k && low < ticks[i].tick <= high ==> Weight(engine, ticks[i]) == 0
    ensures NetBetween(engine, ticks, low, high) == Weight(engine, ticks[k])
  {
    assert forall i :: 0 <= i < |ticks[1..]| ==> ticks[1..][i] == ticks[i + 1];
    if k == 0 {
      NetOfNone(engine, ticks[1..], low, high);
    } else {
      NetOfOne(engine, ticks[1..], low, high, k - 1);
    }
  }

  /** Liquidity after travelling from `from` to `to`, each tick in between crossed once. */
  ghost function Expected(engine: Engine, ticks: seq<Tick>, liquidity: int, from: int, to: int, down: bool): int {
    liquidity + if down then -NetBetween(engine, ticks, to, from) else NetBetween(engine, ticks, from, to)
  }

  /** Passing from `tick` to `tick'` crosses what the book says, and no more. */
  lemma ExpectedAdvances(
      engine: Engine, ticks: seq<Tick>, liquidity: int, from: int, tick: int, tick': int, down: bool, net: int)
    requires if down then tick' <= tick <= from else from <= tick <= tick'
    requires NetBetween(engine, ticks, Min(tick, tick'), Max(tick, tick')) == net
    ensures Expected(engine, ticks, liquidity, from, tick', down)
         == Expected(engine, ticks, liquidity, from, tick, down) + if down then -net else net
  {
    if down {
      NetSplits(engine, ticks, tick', tick, from);
    } else {
      NetSplits(engine, ticks, from, tick, tick');
    }
  }

  function TickOf(t: Tick): int {
    t.tick
  }

  lemma {:induction false} InsertKeepsNet(engine: Engine, t: Tick, ticks: seq<Tick>, low: int, high: int)
    ensures NetBetween(engine, Insert(t, ticks, TickOf), low, high)
         == NetBetween(engine, [t] + ticks, low, high)
  {
    assert ([t] + ticks)[1..] == ticks;
    if ticks == [] || t.tick <= ticks[0].tick {
    } else {
      InsertKeepsNet(engine, t, ticks[1..], low, high);
      assert ([t] + ticks[1..])[1..] == ticks[1..];
      var tail := Insert(t, ticks[1..], TickOf);
      assert ([ticks[0]] + tail)[1..] == tail;
    }
  }

  /** The sums over the sorted ticks are the sums over the ticks as supplied. */
  lemma {:induction false} SortKeepsNet(engine: Engine, ticks: seq<Tick>, low: int, high: int)
    ensures NetBetween(engine, Sort(ticks, TickOf), low, high) == NetBetween(engine, ticks, low, high)
  {
    if ticks != [] {
      var rest := Sort(ticks[1..], TickOf);
      SortKeepsNet(engine, ticks[1..], low, high);
      InsertKeepsNet(engine, ticks[0], rest, low, high);
      assert ([ticks[0]] + rest)[1..] == rest;
    }
  }

  /** The price of a tick, where the tick is in range. */
  function PriceAt(engine: Engine, tick: int): Result<nat> {
    if InRange(tick) then Ok(Price(engine, tick)) else Err(TickOutsideRange)
  }

  /** `price(tick) <= sqrtPrice <= price(tick + 1)`, wherever those ticks are in range. */
  ghost predicate Coherent(engine: Engine, sqrtPrice: int, tick: int) {
    && MIN_TICK - 1 <= tick <= MAX_TICK
    && MIN_SQRT_PRICE <= sqrtPrice <= MaxSqrtPrice(engine)
    && (InRange(tick) ==> Price(engine, tick) <= sqrtPrice)
    && (InRange(tick + 1) ==> sqrtPrice <= Price(engine, tick + 1))
  }

  /** Reaching the price of `next` leaves the pool coherent on either side of it. */
  lemma CoherentAt(engine: Engine, next: int)
    requires InRange(next)
    ensures Coherent(engine, Price(engine, next), next)
    ensures Coherent(engine, Price(engine, next), next - 1)
  {
    hide Price;
    PriceBounds(engine);
    PriceOrder(engine, MIN_TICK, next);
    PriceOrder(engine, next, MAX_TICK);
    if next < MAX_TICK {
      PriceOrder(engine, next, next + 1);
    }
    if MIN_TICK < next {
      PriceOrder(engine, next - 1, next);
    }
  }

  /** Moving part of the way to tick `next` re-derives a tick that is coherent,
      lies on the way, and has not reached `next`. */
  lemma CoherentOnTheWay(
      engine: Engine, before: int, tick: int, after: int, tick': int, next: int, down: bool)
    requires Coherent(engine, before, tick) && InRange(next)
    requires TickAt(engine, after) == Ok(tick')
    requires if down then next <= tick else tick < next
    requires if down then Price(engine, next) < after < before else before < after < Price(engine, next)
    ensures Coherent(engine, after, tick')
    ensures if down then next <= tick' <= tick else tick <= tick' < next
  {
    hide Price;
    PriceBounds(engine);
    if down {
      if tick' < next {
        PriceOrder(engine, tick' + 1, next);
      }
      if tick < tick' {
        PriceOrder(engine, tick + 1, tick');
      }
    } else {
      if tick' < tick {
        PriceOrder(engine, tick' + 1, tick);
      }
      if next <= tick' {
        PriceOrder(engine, next, tick');
      }
    }
  }
}
