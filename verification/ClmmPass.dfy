/** One pass of the CLMM loop taken apart: its parts, the states a run visits and
    how it ends, and what the nearest candidate is. */
module ClmmPass {
  import opened Results
  import opened TickPrice
  import opened LiquidityStep
  import opened TickBook
  import opened Clmm

  /** The parts of a successful pass. */
  lemma PassMeaning(cfg: Config, s: State)
    returns (best: Option<nat>, nextTick: int, nextPrice: nat, bound: int, moved: State, landed: State)
    requires |cfg.ticks| == |s.orders| && Iterate(cfg, s).Ok?
    ensures best == Next(cfg, s) && nextTick == NextTick(cfg, s)
    ensures PriceAt(Engine.Clmm, nextTick) == Ok(nextPrice)
    ensures bound == Bound(cfg, s.group, s.liquidity, Toward(nextPrice, cfg.limit, cfg.down))
    ensures Move(cfg, s, bound, FeeAt(cfg, s.group)) == Ok(moved)
    ensures |moved.orders| == |cfg.ticks|
    ensures
      var pass := Iterate(cfg, s).value;
      if moved.current == nextPrice && best.None? then pass == Pass(moved, true)
      else
        && !pass.stopped
        && pass.state == landed.(group := NextGroup(cfg, s.group, Skips(cfg, s.group, s.liquidity),
                                                    if landed.current == nextPrice then nextTick else landed.tick))
        && if moved.current == nextPrice then Arrive(cfg, moved, best.value, FeeAt(cfg, s.group)) == Ok(landed)
           else if moved.current != s.current then
             && TickAt(Engine.Clmm, moved.current).Ok?
             && landed == moved.(tick := TickAt(Engine.Clmm, moved.current).value)
           else landed == moved
  {
    hide Next, Price, SwapStep, TickAt, MatchOrders, FeeAt, Bound, Arrive, Skips, NextGroup;
    best, nextTick := Next(cfg, s), NextTick(cfg, s);
    nextPrice := PriceAt(Engine.Clmm, nextTick).value;
    bound := Bound(cfg, s.group, s.liquidity, Toward(nextPrice, cfg.limit, cfg.down));
    moved := Move(cfg, s, bound, FeeAt(cfg, s.group)).value;
    landed := moved;
    if moved.current == nextPrice {
      if best.Some? {
        landed := Arrive(cfg, moved, best.value, FeeAt(cfg, s.group)).value;
      }
    } else if moved.current != s.current {
      landed := moved.(tick := TickAt(Engine.Clmm, moved.current).value);
    }
  }

  /** A pass never moves past its target. */
  lemma BoundWithinTarget(cfg: Config, group: int, liquidity: int, target: int)
    ensures Within(Bound(cfg, group, liquidity, target), target, cfg.down)
  {
    hide Price, Skips;
  }

  /** The state at the `k`-th loop head of a run from `start`. */
  ghost function Visited(cfg: Config, start: State, k: nat): (r: Result<State>)
    requires |cfg.ticks| == |start.orders|
    ensures r.Ok? ==> |r.value.orders| == |cfg.ticks|
    decreases k
  {
    hide Iterate;
    if k == 0 then Ok(start)
    else
      var s :- Visited(cfg, start, k - 1);
      if Finished(cfg, s) then Err(BudgetExhausted)
      else
        var pass :- Iterate(cfg, s);
        if pass.stopped then Err(BudgetExhausted) else Ok(pass.state)
  }

  /** A run ends at a loop head, or in a pass that stops at the end of the tick range. */
  ghost predicate EndsAt(cfg: Config, s: State, end: State)
    requires |cfg.ticks| == |s.orders|
  {
    s == end || (!Finished(cfg, s) && Iterate(cfg, s) == Ok(Pass(end, true)))
  }

  lemma {:induction false} RunVisits(cfg: Config, start: State, k: nat, s: State, budget: nat) returns (j: nat)
    requires |cfg.ticks| == |start.orders| == |s.orders|
    requires Visited(cfg, start, k) == Ok(s) && Run(cfg, s, budget).Ok?
    ensures Visited(cfg, start, j).Ok?
    ensures EndsAt(cfg, Visited(cfg, start, j).value, Run(cfg, s, budget).value)
    ensures Finished(cfg, Run(cfg, s, budget).value)
    decreases budget
  {
    hide Iterate;
    if budget == 0 || Finished(cfg, s) || Iterate(cfg, s).value.stopped {
      j := k;
    } else {
      j := RunVisits(cfg, start, k + 1, Iterate(cfg, s).value.state, budget - 1);
    }
  }

  lemma VisitedStart(cfg: Config, start: State)
    requires |cfg.ticks| == |start.orders|
    ensures Visited(cfg, start, 0) == Ok(start)
  {
  }

  lemma {:induction false} NearestMeaning(cfg: Config, orders: seq<int>, tick: int, n: nat)
    requires n <= |cfg.ticks| == |orders| && NoDuplicates(cfg.ticks)
    ensures
      match Nearest(cfg, orders, tick, n)
      case None => forall i: nat :: i < n ==> !Candidate(cfg, orders, tick, i)
      case Some(k) => forall i: nat :: i < n && i != k && Candidate(cfg, orders, tick, i) ==>
        if cfg.down then cfg.ticks[i].tick < cfg.ticks[k].tick else cfg.ticks[k].tick < cfg.ticks[i].tick
  {
    if n > 0 {
      NearestMeaning(cfg, orders, tick, n - 1);
      hide Candidate;
    }
  }

  /** The pass heads for the nearest tick that has liquidity or orders; every other
      such tick ahead is further away, and there is none when the loop finds none. */
  lemma NextMeaning(cfg: Config, s: State)
    requires |cfg.ticks| == |s.orders| && NoDuplicates(cfg.ticks)
    ensures
      match Next(cfg, s)
      case None => forall i: nat :: i < |cfg.ticks| ==> !Candidate(cfg, s.orders, s.tick, i)
      case Some(k) =>
        && NextTick(cfg, s) == cfg.ticks[k].tick
        && Ahead(cfg.ticks[k], s.tick, cfg.down)
        && forall i: nat :: i < |cfg.ticks| && i != k && Candidate(cfg, s.orders, s.tick, i) ==>
          if cfg.down then cfg.ticks[i].tick < cfg.ticks[k].tick else cfg.ticks[k].tick < cfg.ticks[i].tick
  {
    NearestMeaning(cfg, s.orders, s.tick, |cfg.ticks|);
  }
}
