/** Pump V3 buys, by exact output and by exact budget. A buy fills the bonding curve
    first and spills what is left into the pool the curve is about to become. */
module PumpV3 {
  import opened Results
  import opened Rounding
  import opened BasisPoints
  import opened ConstantProduct

  datatype State = State(
    virtualBase: int, virtualQuote: int, remainingBase: int, realQuote: int, curveBaseBalance: int,
    migrationFee: int, protocolBps: int, creatorBps: int, complete: bool, mayhem: bool)
  {
    predicate InRange() {
      && 0 <= virtualBase <= U64 && 0 <= virtualQuote <= U64 && 0 <= remainingBase <= U64
      && 0 <= realQuote <= U64 && 0 <= curveBaseBalance <= U64 && 0 <= migrationFee <= U64
      && 0 <= protocolBps <= U64 && 0 <= creatorBps <= U64
    }

    predicate Valid() {
      && InRange() && !complete
      && remainingBase < virtualBase && 0 < virtualQuote && protocolBps + creatorBps <= BPS
    }
  }

  datatype Quote = Quote(
    curveBase: int, curveQuote: int, poolBase: int, poolQuote: int, protocolFee: int, creatorFee: int)
  {
    function BaseOut(): int {
      curveBase + poolBase
    }

    function QuoteIn(): int {
      curveQuote + poolQuote + protocolFee + creatorFee
    }
  }

  function Validate(s: State, amount: int): (r: Result<nat>)
    ensures r.Ok? <==> s.Valid() && 0 <= amount <= U64
    ensures r.Ok? ==> r.value == amount
  {
    if !s.InRange() || !(0 <= amount <= U64) then Err(OutsideUnsignedRange)
    else if s.complete then Err(Complete)
    else if s.virtualBase <= s.remainingBase || s.virtualQuote == 0 || s.protocolBps + s.creatorBps > BPS
      then Err(InvalidPool)
    else Ok(amount)
  }

  /** An amount with both of its fees. */
  function WithFees(s: State, n: nat): nat
    requires s.Valid()
  {
    n + Fee(n, s.protocolBps) + Fee(n, s.creatorBps)
  }

  /** What a budget leaves after fees. */
  function Net(s: State, budget: nat): int
    requires s.Valid()
  {
    FloorGe(budget * BPS, BPS + s.protocolBps + s.creatorBps, 0);
    var n: nat := budget * BPS / (BPS + s.protocolBps + s.creatorBps);
    n - Max(0, WithFees(s, n) - budget)
  }

  function CurveCost(s: State, n: nat): nat
    requires s.Valid() && n < s.virtualBase
  {
    MulMono(0, n, s.virtualQuote);
    FloorGe(n * s.virtualQuote, s.virtualBase - n, 0);
    if n == 0 then 0 else n * s.virtualQuote / (s.virtualBase - n) + 1
  }

  /** The reserves of the pool the finished curve becomes. */
  datatype Pool = Pool(base: Pos, quote: Pos)

  function PoolToBe(s: State, curveQuote: nat): Result<Pool> {
    var base := s.curveBaseBalance - s.remainingBase;
    var quote := s.realQuote + curveQuote - s.migrationFee;
    if base <= 0 || quote <= 0 then Err(EmptyReserves) else Ok(Pool(base, quote))
  }

  /** The quote of two legs, priced with the fees of each. */
  function Legs(s: State, curveBase: nat, curveQuote: nat, poolBase: nat, poolQuote: nat): Quote
    requires s.Valid()
  {
    Quote(curveBase, curveQuote, poolBase, poolQuote,
          Fee(curveQuote, s.protocolBps) + Fee(poolQuote, s.protocolBps),
          Fee(curveQuote, s.creatorBps) + Fee(poolQuote, s.creatorBps))
  }

  function Checked(quote: Quote): Result<Quote> {
    if quote.BaseOut() > U64 || quote.QuoteIn() > U64 then Err(OutsideUnsignedRange) else Ok(quote)
  }

  function ExactOut(s: State, amount: int, partialFill: bool): Result<Quote> {
    hide Fee, CurveCost, In, Out;
    var amount :- Validate(s, amount);
    var cb: nat := Min(amount, s.remainingBase);
    var cq := CurveCost(s, cb);
    if amount <= s.remainingBase then Checked(Legs(s, cb, cq, 0, 0))
    else if s.mayhem then
      if !partialFill then Err(NotEnoughTokens) else Checked(Legs(s, cb, cq, 0, 0))
    else
      var pool :- PoolToBe(s, cq);
      var pb := amount - cb;
      if pb >= pool.base then Err(NotEnoughTokens)
      else Checked(Legs(s, cb, cq, pb, In(pool.quote, pool.base, pb)))
  }

  /** What the curve alone would sell for a net amount. */
  function Tokens(s: State, net: Pos): nat
    requires s.Valid()
  {
    Out(s.virtualQuote, s.virtualBase, net - 1)
  }

  function ExactIn(s: State, budget: int): Result<Quote> {
    hide Fee, Net, CurveCost, In, Out;
    var budget :- Validate(s, budget);
    var net := Net(s, budget);
    if net <= 1 then Ok(Quote(0, 0, 0, 0, 0, 0))
    else
      var tokens := Tokens(s, net);
      var cb: nat := Min(tokens, s.remainingBase);
      var cq := CurveCost(s, cb);
      var left := budget - WithFees(s, cq);
      if tokens <= s.remainingBase || s.mayhem || left <= 0 || Net(s, left) <= 1 then
        Checked(Legs(s, cb, cq, 0, 0))
      else
        var pool :- PoolToBe(s, cq);
        var leg := Net(s, left);
        var pb := Out(pool.quote, pool.base, leg - 1);
        if pb == 0 then Checked(Legs(s, cb, cq, 0, 0))
        else Checked(Legs(s, cb, cq, pb, leg))
  }

  // ----- fees -----

  lemma WithFeesMonotone(s: State, less: nat, more: nat)
    requires s.Valid() && less <= more
    ensures WithFees(s, more) - WithFees(s, less) >= more - less
    ensures WithFees(s, 0) == 0
  {
    FeeMonotone(less, more, s.protocolBps);
    FeeMonotone(less, more, s.creatorBps);
    hide Fee;
  }

  lemma WithFeesBounds(s: State, n: nat)
    requires s.Valid()
    ensures n * (BPS + s.protocolBps + s.creatorBps) <= BPS * WithFees(s, n)
    ensures BPS * WithFees(s, n) < n * (BPS + s.protocolBps + s.creatorBps) + 2 * BPS
  {
    FeeBounds(n, s.protocolBps);
    FeeBounds(n, s.creatorBps);
    hide Fee;
  }

  /** A net amount is affordable exactly when it is at most `Net`. */
  lemma NetIsGreatest(s: State, budget: nat, q: nat)
    requires s.Valid()
    ensures 0 <= Net(s, budget) <= budget
    ensures q <= Net(s, budget) <==> WithFees(s, q) <= budget
  {
    var scale := BPS + s.protocolBps + s.creatorBps;
    FloorGe(budget * BPS, scale, 0);
    FloorGe(budget * BPS, scale, q);
    FloorBounds(budget * BPS, scale);
    var n: nat := budget * BPS / scale;
    WithFeesBounds(s, n);
    WithFeesBounds(s, q);
    assert WithFees(s, n) <= budget + 1;
    WithFeesMonotone(s, 0, n);
    if q <= n {
      WithFeesMonotone(s, q, n);
    }
    if 0 < n {
      WithFeesMonotone(s, n - 1, n);
      if q <= n - 1 {
        WithFeesMonotone(s, q, n - 1);
      }
    }
    hide WithFees;
  }

  lemma NetMonotone(s: State, less: nat, more: nat)
    requires s.Valid() && less <= more
    ensures 0 <= Net(s, less) <= Net(s, more)
  {
    hide Net, WithFees;
    NetIsGreatest(s, less, 0);
    NetIsGreatest(s, less, Net(s, less));
    NetIsGreatest(s, more, Net(s, less));
  }

  /** Budgeting exactly the cost of an amount leaves exactly that amount. */
  lemma NetOfCost(s: State, q: nat)
    requires s.Valid()
    ensures Net(s, WithFees(s, q)) == q
  {
    hide Net, WithFees;
    NetIsGreatest(s, WithFees(s, q), q);
    NetIsGreatest(s, WithFees(s, q), q + 1);
    WithFeesMonotone(s, q, q + 1);
  }

  // ----- the curve leg -----

  lemma CurveCostBounds(s: State, n: nat)
    requires s.Valid() && n < s.virtualBase
    ensures (CurveCost(s, n) - 1) * (s.virtualBase - n) <= n * s.virtualQuote <= CurveCost(s, n) * (s.virtualBase - n)
    ensures CurveCost(s, n) == 0 <==> n == 0
  {
    var left := s.virtualBase - n;
    var paid := n * s.virtualQuote;
    FloorBounds(paid, left);
    MulMono(0, n, s.virtualQuote);
    FloorGe(paid, left, 0);
  }

  /** What the curve sells for a net amount costs no more than that amount. */
  lemma CurveCostCovered(s: State, n: nat, net: Pos)
    requires s.Valid() && n < s.virtualBase && n <= Tokens(s, net)
    ensures CurveCost(s, n) <= net
  {
    InIsAdjoint(s.virtualQuote, s.virtualBase, n, net - 1);
    CeilLe(s.virtualQuote * n, s.virtualBase - n, net - 1);
    CurveCostBounds(s, n);
    hide Out, In, CurveCost;
    if net < CurveCost(s, n) {
      MulStrict(net - 1, CurveCost(s, n) - 1, s.virtualBase - n);
    }
  }

  lemma ChargeTooSmall(x: Pos, n: nat, left: Pos, charge: nat, top: nat)
    requires charge <= top && top * left <= n * x
    ensures charge * (left - 1) < x * (n + 1)
  {
    MulMono(charge, top, left);
    MulMono(left - 1, left, charge);
  }

  /** The charge for `n` never buys more than `n`. */
  lemma CurveCostTight(s: State, n: nat, net: Pos)
    requires s.Valid() && n < s.virtualBase && net <= CurveCost(s, n)
    ensures Tokens(s, net) <= n
  {
    OutConserves(s.virtualQuote, s.virtualBase, net - 1);
    if n < Tokens(s, net) {
      InIsAdjoint(s.virtualQuote, s.virtualBase, n + 1, net - 1);
      CeilLe(s.virtualQuote * (n + 1), s.virtualBase - n - 1, net - 1);
      CurveCostBounds(s, n);
      hide Out, In, CurveCost;
      ChargeTooSmall(s.virtualQuote, n, s.virtualBase - n, net - 1, CurveCost(s, n) - 1);
    }
  }

  lemma CurveConserves(s: State, n: nat)
    requires s.Valid() && n < s.virtualBase
    ensures (s.virtualQuote + CurveCost(s, n)) * (s.virtualBase - n) >= s.virtualQuote * s.virtualBase
  {
    CurveCostBounds(s, n);
    hide CurveCost;
  }

  // ----- whole quotes -----

  /** Neither leg lowers the product of its reserves, the pool opens only once the curve
      is sold out, and neither leg empties its side. */
  ghost predicate KeepsProducts(s: State, quote: Quote)
    requires s.Valid()
  {
    && 0 <= quote.curveBase <= s.remainingBase && 0 <= quote.curveQuote
    && (s.virtualQuote + quote.curveQuote) * (s.virtualBase - quote.curveBase) >= s.virtualQuote * s.virtualBase
    && 0 <= quote.poolBase && 0 <= quote.poolQuote
    && (quote.poolBase > 0 ==>
          && !s.mayhem && quote.curveBase == s.remainingBase
          && PoolToBe(s, quote.curveQuote).Ok?
          && var pool := PoolToBe(s, quote.curveQuote).value;
          && quote.poolBase < pool.base
          && (pool.quote + quote.poolQuote) * (pool.base - quote.poolBase) >= pool.quote * pool.base)
  }

  lemma PoolLegConserves(pool: Pool, paid: nat, out: nat)
    requires out < pool.base && In(pool.quote, pool.base, out) <= paid
    ensures (pool.quote + paid) * (pool.base - out) >= pool.quote * pool.base
  {
    CeilLe(pool.quote * out, pool.base - out, paid);
    hide In;
  }

  lemma CurveLegFits(s: State, budget: nat)
    requires s.Valid() && 1 < Net(s, budget)
    ensures
      var n := Min(Tokens(s, Net(s, budget)), s.remainingBase);
      0 <= n && CurveCost(s, n) <= Net(s, budget) && WithFees(s, CurveCost(s, n)) <= budget
  {
    hide Net, Tokens, CurveCost, WithFees;
    var n := Min(Tokens(s, Net(s, budget)), s.remainingBase);
    CurveCostCovered(s, n, Net(s, budget));
    NetIsGreatest(s, budget, CurveCost(s, n));
  }

  /** The pool leg of an exact-in buy is paid for by what the curve leg leaves. */
  lemma PoolLegFits(s: State, pool: Pool, left: nat)
    requires s.Valid() && 1 < Net(s, left)
    ensures
      var leg := Net(s, left);
      var out := Out(pool.quote, pool.base, leg - 1);
      && WithFees(s, leg) <= left && out < pool.base
      && (pool.quote + leg) * (pool.base - out) >= pool.quote * pool.base
  {
    hide Net, WithFees, Out, In;
    var leg := Net(s, left);
    var out := Out(pool.quote, pool.base, leg - 1);
    NetIsGreatest(s, left, leg);
    OutConserves(pool.quote, pool.base, leg - 1);
    InIsAdjoint(pool.quote, pool.base, out, leg - 1);
    PoolLegConserves(pool, leg, out);
  }

  /** An exact-in buy stays within its budget over both legs and all four fees, and
      lowers neither product. */
  lemma ExactInIsSound(s: State, budget: int)
    requires ExactIn(s, budget).Ok?
    ensures s.Valid()
    ensures ExactIn(s, budget).value.QuoteIn() <= budget
    ensures KeepsProducts(s, ExactIn(s, budget).value)
  {
    hide Net, Tokens, CurveCost, Out, In, Fee;
    var r := ExactIn(s, budget).value;
    WithFeesMonotone(s, 0, 0);
    CurveConserves(s, 0);
    CurveCostBounds(s, 0);
    if 1 < Net(s, budget) {
      CurveLegFits(s, budget);
      CurveConserves(s, r.curveBase);
      if r.poolBase > 0 {
        PoolLegFits(s, PoolToBe(s, r.curveQuote).value, budget - WithFees(s, r.curveQuote));
      }
    }
  }

  /** An exact-out buy delivers what was asked for, or the whole curve when a partial
      fill is allowed, and lowers neither product. */
  lemma ExactOutIsSound(s: State, amount: int, partialFill: bool)
    requires ExactOut(s, amount, partialFill).Ok?
    ensures s.Valid()
    ensures ExactOut(s, amount, partialFill).value.BaseOut()
            == if s.mayhem then Min(amount, s.remainingBase) else amount
    ensures s.mayhem && s.remainingBase < amount ==> partialFill
    ensures KeepsProducts(s, ExactOut(s, amount, partialFill).value)
  {
    hide CurveCost, Out, In, Fee;
    var r := ExactOut(s, amount, partialFill).value;
    CurveConserves(s, r.curveBase);
    if r.poolBase > 0 {
      PoolLegConserves(PoolToBe(s, r.curveQuote).value, r.poolQuote, r.poolBase);
    }
  }

  /** Re-asking for what a budget bought costs no more than the budget spent. */
  lemma ExactOutOfExactIn(s: State, budget: int, partialFill: bool)
    requires ExactIn(s, budget).Ok?
    ensures
      var bought := ExactIn(s, budget).value;
      var again := ExactOut(s, bought.BaseOut(), partialFill);
      again.Ok? && again.value.BaseOut() == bought.BaseOut() && again.value.QuoteIn() <= bought.QuoteIn()
  {
    hide Net, Tokens, CurveCost, Out, In, Fee;
    var r := ExactIn(s, budget).value;
    ExactInIsSound(s, budget);
    CurveCostBounds(s, 0);
    WithFeesMonotone(s, 0, 0);
    if r.poolBase > 0 {
      var pool := PoolToBe(s, r.curveQuote).value;
      InIsAdjoint(pool.quote, pool.base, r.poolBase, r.poolQuote - 1);
      WithFeesMonotone(s, In(pool.quote, pool.base, r.poolBase), r.poolQuote);
    }
  }

  /** A quote over the curve alone is bought back by the curve alone. */
  lemma RebuyOnCurve(s: State, n: nat)
    requires s.Valid() && n <= s.remainingBase && WithFees(s, CurveCost(s, n)) <= U64
    ensures
      var again := ExactIn(s, WithFees(s, CurveCost(s, n)));
      again.Ok? && again.value.BaseOut() <= n
  {
    hide Net, Tokens, CurveCost, Out, In, Fee;
    var budget := WithFees(s, CurveCost(s, n));
    NetOfCost(s, CurveCost(s, n));
    WithFeesMonotone(s, 0, 0);
    if 1 < Net(s, budget) {
      CurveCostTight(s, n, Net(s, budget));
      CurveLegFits(s, budget);
    }
  }

  /** A quote that spills into the pool is bought back with less from the pool. */
  lemma RebuyOverPool(s: State, pool: Pool, pb: Pos)
    requires s.Valid() && !s.mayhem && PoolToBe(s, CurveCost(s, s.remainingBase)) == Ok(pool) && pb < pool.base
    requires WithFees(s, CurveCost(s, s.remainingBase)) + WithFees(s, In(pool.quote, pool.base, pb)) <= U64
    requires s.remainingBase + pb <= U64
    ensures
      var again := ExactIn(s, WithFees(s, CurveCost(s, s.remainingBase)) + WithFees(s, In(pool.quote, pool.base, pb)));
      again.Ok? && again.value.BaseOut() < s.remainingBase + pb
  {
    hide Net, Tokens, CurveCost, Out, In, Fee, PoolToBe;
    var pq := In(pool.quote, pool.base, pb);
    var budget := WithFees(s, CurveCost(s, s.remainingBase)) + WithFees(s, pq);
    NetOfCost(s, pq);
    WithFeesMonotone(s, 0, 0);
    if 1 < Net(s, budget) {
      CurveLegFits(s, budget);
      if 1 < pq {
        InIsAdjoint(pool.quote, pool.base, pb, pq - 1);
      }
    }
  }

  /** Spending what an amount was quoted at buys no more than that amount. */
  lemma ExactInOfExactOut(s: State, amount: int, partialFill: bool)
    requires ExactOut(s, amount, partialFill).Ok?
    ensures
      var asked := ExactOut(s, amount, partialFill).value;
      var again := ExactIn(s, asked.QuoteIn());
      again.Ok? && again.value.BaseOut() <= asked.BaseOut()
  {
    hide Net, Tokens, CurveCost, Out, In, Fee;
    var r := ExactOut(s, amount, partialFill).value;
    WithFeesMonotone(s, 0, 0);
    if r.poolBase > 0 {
      RebuyOverPool(s, PoolToBe(s, r.curveQuote).value, r.poolBase);
    } else {
      RebuyOnCurve(s, r.curveBase);
    }
    hide ExactIn;
  }

  /** A larger budget never buys less. */
  lemma ExactInMonotone(s: State, less: int, more: int)
    requires ExactIn(s, less).Ok? && ExactIn(s, more).Ok? && less <= more
    ensures ExactIn(s, less).value.BaseOut() <= ExactIn(s, more).value.BaseOut()
  {
    hide Net, CurveCost, Out, Fee;
    NetMonotone(s, less, more);
    if 1 < Net(s, less) {
      var x, y := Net(s, less), Net(s, more);
      OutMonotone(s.virtualQuote, s.virtualBase, x - 1, y - 1);
      var sold := CurveCost(s, s.remainingBase);
      var spent := WithFees(s, sold);
      if ExactIn(s, less).value.poolBase > 0 {
        NetMonotone(s, less - spent, more - spent);
        var pool := PoolToBe(s, sold).value;
        OutMonotone(pool.quote, pool.base, Net(s, less - spent) - 1, Net(s, more - spent) - 1);
      }
    }
  }
}
