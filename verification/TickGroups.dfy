/** Groups of ticks: equal runs of ticks that share a fee, and where each begins in price. */
module TickGroups {
  import opened Rounding
  import opened TickPrice
  import opened TickBook

  // ----- multiples of the group size -----

  lemma GroupBounds(t: int, size: Pos)
    ensures (t / size) * size <= t < (t / size + 1) * size
  {
    FloorBounds(t, size);
  }

  lemma GroupLe(t: int, g: int, size: Pos)
    ensures g <= t / size <==> g * size <= t
  {
    FloorGe(t, size, g);
  }

  lemma GroupOfMultiple(g: int, size: Pos)
    ensures g * size / size == g && g * size % size == 0
  {
    FloorGe(g * size, size, g);
    FloorGe(g * size, size, g + 1);
    assert g * size == size * (g * size / size) + g * size % size;
  }

  /** Below the end of a group, an aligned tick is at most the group's start. */
  lemma AlignedBelow(t: int, g: int, size: Pos)
    requires t % size == 0 && t < (g + 1) * size
    ensures t <= g * size
  {
    GroupLe(t, g + 1, size);
    assert t == size * (t / size);
    MulMono(t / size, g, size);
  }

  lemma AlignedAbove(t: int, g: int, size: Pos)
    requires t % size == 0 && g * size < t
    ensures (g + 1) * size <= t
  {
    if t < (g + 1) * size {
      AlignedBelow(t, g, size);
    }
  }

  // ----- where a group begins in price -----

  function Clamp(tick: int): int
    ensures InRange(Clamp(tick))
  {
    Max(MIN_TICK, Min(MAX_TICK, tick))
  }

  /** The price at which group `g` begins, clamped to the tick range. */
  function Edge(engine: Engine, g: int, size: Pos): nat {
    Price(engine, Clamp(g * size))
  }

  /** `t`'s price interval reaches below the start of tick `bound` only if `t < bound`. */
  lemma BelowBound(engine: Engine, t: int, bound: int)
    requires MIN_TICK <= t < MAX_TICK
    requires Price(engine, t) < Price(engine, Clamp(bound))
    ensures t < bound
  {
    hide Price;
    PriceOrder(engine, Clamp(bound), t);
  }

  lemma AboveBound(engine: Engine, t: int, bound: int)
    requires MIN_TICK <= t < MAX_TICK
    requires Price(engine, Clamp(bound)) < Price(engine, t + 1)
    ensures bound <= t
  {
    hide Price;
    PriceOrder(engine, t + 1, Clamp(bound));
  }

  /** Tick `t`'s price interval meets the open interval between two prices. */
  predicate Traversed(engine: Engine, t: int, from: int, to: int) {
    && MIN_TICK <= t < MAX_TICK
    && Price(engine, t) < Max(from, to)
    && Min(from, to) < Price(engine, t + 1)
  }

  /** The price lies within the group the next pass is charged in. */
  ghost predicate InGroup(engine: Engine, size: Pos, group: int, price: int) {
    Edge(engine, group, size) <= price <= Edge(engine, group + 1, size)
  }

  ghost predicate AlignedTicks(ticks: seq<Tick>, size: Pos) {
    forall i :: 0 <= i < |ticks| ==> ticks[i].tick % size == 0
  }

  /** The group has not left the tick range on the side the price moves away from. */
  predicate GroupReachable(size: Pos, group: int, down: bool) {
    if down then group * size <= MAX_TICK else MIN_TICK <= (group + 1) * size
  }

  lemma EdgeRises(engine: Engine, g: int, size: Pos)
    ensures Edge(engine, g, size) <= Edge(engine, g + 1, size)
  {
    hide Price;
    PriceOrder(engine, Clamp(g * size), Clamp((g + 1) * size));
  }

  /** An aligned tick in range is the edge of its group. */
  lemma EdgeOfAligned(engine: Engine, p: int, size: Pos)
    requires InRange(p) && p % size == 0
    ensures Price(engine, p) == Edge(engine, p / size, size)
  {
    hide Price;
    assert p == size * (p / size);
  }

  /** Among ticks, cheaper than a clamped bound is below the bound. */
  lemma TickBelow(engine: Engine, t: int, bound: int)
    requires InRange(t) && Price(engine, t) < Price(engine, Clamp(bound))
    ensures t < bound
  {
    hide Price;
    PriceOrder(engine, Clamp(bound), t);
  }

  lemma TickAbove(engine: Engine, t: int, bound: int)
    requires InRange(t) && Price(engine, Clamp(bound)) < Price(engine, t)
    ensures bound < t
  {
    hide Price;
    PriceOrder(engine, t, Clamp(bound));
  }

  /** A coherent price lies in the group of its tick. */
  lemma CoherentInEdges(engine: Engine, price: int, tick: int, size: Pos)
    requires Coherent(engine, price, tick) && InRange(tick)
    ensures InGroup(engine, size, tick / size, price)
  {
    hide Price;
    GroupBounds(tick, size);
    PriceOrder(engine, Clamp(tick / size * size), tick);
    PriceBounds(engine);
    if tick < MAX_TICK {
      PriceOrder(engine, tick + 1, Clamp((tick / size + 1) * size));
    }
  }

  lemma DividesTrans(t: int, spacing: Pos, size: Pos)
    requires t % spacing == 0 && spacing % size == 0
    ensures t % size == 0
  {
    var a: int, b: int := t / spacing, spacing / size;
    assert t == spacing * a && spacing == size * b;
    assert t == a * b * size;
    GroupOfMultiple(a * b, size);
  }
}
