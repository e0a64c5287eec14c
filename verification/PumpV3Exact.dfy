/** Both Pump V3 quotes from the other side: an exact-in buy buys everything its budget pays
    for on either leg, an exact-out buy pays no more than it must, and the fees and the pool's
    reserves are those of the state's own fields. */
module PumpV3Exact {
  import opened Rounding
  import opened BasisPoints
  import opened ConstantProduct
  import opened PumpV3

  /** The reserves of the pool once the curve has sold out for `curveQuote`. */
  function PoolBase(s: State): int {
    s.curveBaseBalance - s.remainingBase
  }

  function PoolQuote(s: State, curveQuote: int): int {
    s.realQuote + curveQuote - s.migrationFee
  }

  /** The cost of `n` on the curve is one more than the exact cost, rounded down. */
  predicate CurveCharge(s: State, n: int, cost: int) {
    if n == 0 then cost == 0
    else (cost - 1) * (s.virtualBase - n) <= n * s.virtualQuote < cost * (s.virtualBase - n)
  }

  lemma CurveChargeMeaning(s: State, n: nat)
    requires s.Valid() && n < s.virtualBase
    ensures CurveCharge(s, n, CurveCost(s, n))
  {
    FloorBounds(n * s.virtualQuote, s.virtualBase - n);
  }

  /** The fees of a quote are those of its two legs, each rounded up on its own. */
  predicate FeesOfLegs(s: State, q: Quote)
    requires s.Valid() && 0 <= q.curveQuote && 0 <= q.poolQuote
  {
    && q.protocolFee == Fee(q.curveQuote, s.protocolBps) + Fee(q.poolQuote, s.protocolBps)
    && q.creatorFee == Fee(q.curveQuote, s.creatorBps) + Fee(q.poolQuote, s.creatorBps)
  }

  /** The budget pays for one more than the curve has left, and the pool may open. */
  predicate Spills(s: State, budget: nat)
    requires s.Valid()
  {
    !s.mayhem && s.remainingBase + 1 < s.virtualBase
    && In(s.virtualQuote, s.virtualBase, s.remainingBase + 1) < Net(s, budget)
  }

  /** What the curve leg leaves of the budget. */
  function LeftFor(s: State, budget: nat, curveQuote: nat): int
    requires s.Valid()
  {
    budget - curveQuote - Fee(curveQuote, s.protocolBps) - Fee(curveQuote, s.creatorBps)
  }

  lemma TokensGe(s: State, net: Pos, n: Pos)
    requires s.Valid()
    ensures n <= Tokens(s, net) <==> n < s.virtualBase && In(s.virtualQuote, s.virtualBase, n) < net
  {
    OutConserves(s.virtualQuote, s.virtualBase, net - 1);
    if n < s.virtualBase {
      InIsAdjoint(s.virtualQuote, s.virtualBase, n, net - 1);
    }
    hide Out, In;
  }

  /** On the curve: a buy takes an amount exactly when there is that much and the net budget
      exceeds its cost, and is charged one more than the floored exact cost. */
  lemma ExactInOnCurve(s: State, budget: int, n: Pos)
    requires ExactIn(s, budget).Ok?
    ensures s.Valid() && 0 <= budget
    ensures
      var q := ExactIn(s, budget).value;
      && 0 <= q.curveBase <= s.remainingBase && 0 <= q.curveQuote && 0 <= q.poolQuote
      && (n <= q.curveBase <==>
            n <= s.remainingBase && In(s.virtualQuote, s.virtualBase, n) < Net(s, budget))
      && CurveCharge(s, q.curveBase, q.curveQuote)
      && FeesOfLegs(s, q)
  {
    hide Net, Tokens, CurveCost, Out, In, Fee, WithFees, CurveCharge;
    FeeMonotone(0, 0, s.protocolBps);
    FeeMonotone(0, 0, s.creatorBps);
    CurveChargeMeaning(s, 0);
    assert CurveCost(s, 0) == 0 by {
      CurveCostBounds(s, 0);
    }
    if 1 < Net(s, budget) {
      TokensGe(s, Net(s, budget), n);
      CurveChargeMeaning(s, Min(Tokens(s, Net(s, budget)), s.remainingBase));
    } else if n <= s.remainingBase {
      CostsSomething(s.virtualQuote, s.virtualBase, n);
    }
  }

  lemma CostsSomething(x: Pos, y: Pos, n: Pos)
    requires n < y
    ensures 0 < In(x, y, n)
  {
    MulStrict(0, x, n);
    CeilLe(x * n, y - n, 0);
  }

  /** In the pool: a buy takes an amount exactly when its budget spills, the pool has more
      than that, and the net of what the curve leaves exceeds its cost; it then spends that
      net. */
  lemma ExactInInPool(s: State, budget: int, n: Pos)
    requires ExactIn(s, budget).Ok?
    ensures s.Valid() && 0 <= budget
    ensures
      var q := ExactIn(s, budget).value;
      && 0 <= q.curveQuote
      && var base, quote, left := PoolBase(s), PoolQuote(s, q.curveQuote), LeftFor(s, budget, q.curveQuote);
      && (n <= q.poolBase <==>
            && Spills(s, budget) && 0 < quote && n < base && 0 < left && In(quote, base, n) < Net(s, left))
      && (if q.poolBase > 0 then 0 < left && q.poolQuote == Net(s, left) else q.poolBase == 0 && q.poolQuote == 0)
  {
    hide Net, Tokens, CurveCost, Out, In, Fee;
    ExactInOnCurve(s, budget, n);
    var q := ExactIn(s, budget).value;
    var net := Net(s, budget);
    FeeMonotone(0, 0, s.protocolBps);
    FeeMonotone(0, 0, s.creatorBps);
    CurveCostBounds(s, 0);
    var base, quote := PoolBase(s), PoolQuote(s, q.curveQuote);
    if 1 < net {
      TokensGe(s, net, s.remainingBase + 1);
      var left := LeftFor(s, budget, q.curveQuote);
      if 0 < base && 0 < quote && 0 < left && 1 < Net(s, left) {
        PoolTakes(Pool(base, quote), Net(s, left), n);
      }
    } else if s.remainingBase + 1 < s.virtualBase {
      CostsSomething(s.virtualQuote, s.virtualBase, s.remainingBase + 1);
    }
    if 0 < quote && n < base {
      CostsSomething(quote, base, n);
    }
  }

  lemma PoolTakes(pool: Pool, leg: Pos, n: Pos)
    ensures n <= Out(pool.quote, pool.base, leg - 1) <==> n < pool.base && In(pool.quote, pool.base, n) < leg
  {
    OutConserves(pool.quote, pool.base, leg - 1);
    if n < pool.base {
      InIsAdjoint(pool.quote, pool.base, n, leg - 1);
    }
    hide Out, In;
  }

  /** An exact-out buy takes what the curve has first and the rest from the pool, pays the
      curve's charge and the least amount that buys the rest, and both fees on each leg. */
  lemma ExactOutPays(s: State, amount: int, partialFill: bool, k: nat)
    requires ExactOut(s, amount, partialFill).Ok?
    ensures s.Valid() && 0 <= amount
    ensures
      var q := ExactOut(s, amount, partialFill).value;
      && q.curveBase == Min(amount, s.remainingBase) && 0 <= q.curveQuote && 0 <= q.poolQuote
      && CurveCharge(s, q.curveBase, q.curveQuote) && FeesOfLegs(s, q)
      && var base, quote := PoolBase(s), PoolQuote(s, q.curveQuote);
      if s.mayhem || amount <= s.remainingBase then q.poolBase == 0 && q.poolQuote == 0
      else
        && q.poolBase == amount - s.remainingBase && q.poolBase < base && 0 < quote
        && (q.poolQuote <= k <==> q.poolBase <= Out(quote, base, k))
  {
    hide CurveCost, Out, In, Fee, CurveCharge;
    FeeMonotone(0, 0, s.protocolBps);
    FeeMonotone(0, 0, s.creatorBps);
    var q := ExactOut(s, amount, partialFill).value;
    CurveChargeMeaning(s, Min(amount, s.remainingBase));
    if q.poolBase > 0 {
      InIsAdjoint(PoolQuote(s, q.curveQuote), PoolBase(s), q.poolBase, k);
    }
  }
}
