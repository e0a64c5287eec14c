/** All four PumpSwap quotes to the unit, from the pool's own fields: the least or greatest
    amount behind every number they report, and the slippage allowances around them. */
module PumpSwapExact {
  import opened Rounding
  import opened BasisPoints
  import opened ConstantProduct
  import opened PumpSwap

  /** The quote reserve that prices trades, the real vault and the signed virtual part. */
  function Priced(p: Pool): int {
    p.quote + p.virtualQuote
  }

  /** `fee` is the exact share, rounded up. */
  predicate RoundedUp(fee: int, n: int, bps: int) {
    (fee - 1) * BPS < n * bps <= fee * BPS
  }

  /** `total` is `n` with its three fees, each rounded up on its own. */
  ghost predicate WithFees(total: int, n: int, fees: Fees) {
    exists lp: int, protocol: int, creator: int ::
      && RoundedUp(lp, n, fees.lp) && RoundedUp(protocol, n, fees.protocol) && RoundedUp(creator, n, fees.creator)
      && total == n + lp + protocol + creator
  }

  lemma FeesMeaning(n: nat, fees: Fees)
    requires fees.InRange()
    ensures WithFees(n + AllFees(fees, n), n, fees)
  {
    FeeBounds(n, fees.lp);
    FeeBounds(n, fees.protocol);
    FeeBounds(n, fees.creator);
    hide Fee;
    assert RoundedUp(Fee(n, fees.lp), n, fees.lp);
    assert RoundedUp(Fee(n, fees.protocol), n, fees.protocol);
    assert RoundedUp(Fee(n, fees.creator), n, fees.creator);
  }

  /** A slippage allowance counts up to 9999 basis points. */
  function Allowed(slippageBps: int): int {
    if slippageBps < 9999 then slippageBps else 9999
  }

  /** The greatest budget up to u64 within the allowance above an amount. */
  predicate BudgetOf(budget: int, amount: int, slippageBps: int) {
    && budget <= U64 && (budget - amount) * BPS <= amount * Allowed(slippageBps)
    && (budget < U64 ==> amount * Allowed(slippageBps) < (budget + 1 - amount) * BPS)
  }

  lemma BudgetMeaning(amount: nat, slippageBps: nat)
    requires amount <= U64
    ensures BudgetOf(Budget(amount, slippageBps), amount, slippageBps)
  {
    FloorBounds(amount * Allowed(slippageBps), BPS);
    MulMono(0, Allowed(slippageBps), amount);
  }

  /** The greatest minimum within the allowance below an amount. */
  predicate MinimumOf(minimum: int, amount: int, slippageBps: int) {
    minimum * BPS <= amount * (BPS - Allowed(slippageBps)) < (minimum + 1) * BPS
  }

  lemma MinimumMeaning(amount: nat, slippageBps: nat)
    ensures MinimumOf(Minimum(amount, slippageBps), amount, slippageBps)
  {
    FloorBounds(amount * (BPS - Allowed(slippageBps)), BPS);
  }

  /** Every quote but a sale by quote amount, which checks that first, starts exactly from u64
      arguments, positive vaults and a priced reserve that is positive and fits u64. */
  lemma ReserveAccepts(p: Pool, amount: int, slippageBps: int)
    ensures Reserve(p, amount, slippageBps).Ok? <==>
      && 0 <= amount <= U64 && 0 <= slippageBps <= U64 && 0 < p.base <= U64 && 0 < p.quote <= U64 && p.fees.InRange()
      && I128_MIN <= p.virtualQuote <= I128_MAX && 0 < Priced(p) <= U64
  {
  }

  lemma ReservesMeaning(p: Pool, amount: int, slippageBps: int)
    requires Reserve(p, amount, slippageBps).Ok?
    ensures 0 <= amount <= U64 && 0 <= slippageBps && p.fees.InRange()
    ensures 0 < p.base && 0 < p.quote && 0 < Priced(p) <= U64
    ensures Reserve(p, amount, slippageBps).value == Reserves(p.base, Priced(p))
  {
  }

  /** Buying base is quoted at the least amount that buys it, with its fees and the budget
      above both. */
  lemma BuyBaseMeaning(p: Pool, base: int, slippageBps: int, k: nat)
    requires BuyBase(p, base, slippageBps).Ok?
    ensures 0 < p.base && 0 < Priced(p)
    ensures
      var r := BuyBase(p, base, slippageBps).value;
      && 0 <= base < p.base
      && (r.internal <= k <==> base <= Out(Priced(p), p.base, k))
      && WithFees(r.uiQuote, r.internal, p.fees) && BudgetOf(r.maxQuote, r.uiQuote, slippageBps)
  {
    hide In, Out, AllFees, Reserve, WithFees, BudgetOf, Budget;
    ReservesMeaning(p, base, slippageBps);
    InIsAdjoint(Priced(p), p.base, base, k);
    var r := BuyBase(p, base, slippageBps).value;
    FeesMeaning(r.internal, p.fees);
    BudgetMeaning(r.uiQuote, slippageBps);
  }

  lemma ShareBounds(fees: Fees, quote: nat)
    requires fees.InRange()
    ensures
      var share, scale := Share(fees, quote), BPS + fees.Total();
      share * scale <= quote * BPS < (share + 1) * scale
  {
    FloorBounds(quote * BPS, BPS + fees.Total());
  }

  /** Buying with a quote budget spends the greatest share whose unrounded fees fit, or what
      its rounded fees leave of the budget if that is less, and takes every base amount that
      costs less than what is spent. */
  lemma BuyQuoteMeaning(p: Pool, quote: int, slippageBps: int, k: Pos) returns (share: nat, total: int)
    requires BuyQuote(p, quote, slippageBps).Ok?
    ensures 0 < p.base && 0 < Priced(p) && 0 <= p.fees.Total()
    ensures
      var r := BuyQuote(p, quote, slippageBps).value;
      && share * (BPS + p.fees.Total()) <= quote * BPS < (share + 1) * (BPS + p.fees.Total())
      && WithFees(total, share, p.fees)
      && r.internal == (if total <= quote then share else share - (total - quote)) && 0 < r.internal
      && (k <= r.base <==> k < p.base && In(Priced(p), p.base, k) < r.internal)
      && BudgetOf(r.maxQuote, quote, slippageBps)
  {
    hide In, Out, AllFees, Reserve, WithFees, BudgetOf, Budget, Share;
    ReservesMeaning(p, quote, slippageBps);
    ShareBounds(p.fees, quote);
    share := Share(p.fees, quote);
    total := share + AllFees(p.fees, share);
    FeesMeaning(share, p.fees);
    BudgetMeaning(quote, slippageBps);
    var r := BuyQuote(p, quote, slippageBps).value;
    OutConserves(Priced(p), p.base, r.internal - 1);
    if k < p.base {
      InIsAdjoint(Priced(p), p.base, k, r.internal - 1);
    }
  }

  /** Selling base is quoted at the greatest amount it buys, less its fees, with the minimum
      below that. */
  lemma SellBaseMeaning(p: Pool, base: int, slippageBps: int, k: Pos) returns (total: int)
    requires SellBase(p, base, slippageBps).Ok?
    ensures 0 < p.base && 0 < Priced(p)
    ensures
      var r := SellBase(p, base, slippageBps).value;
      && (k <= r.internal <==> k < Priced(p) && In(p.base, Priced(p), k) <= base)
      && WithFees(total, r.internal, p.fees) && r.uiQuote == r.internal - (total - r.internal)
      && MinimumOf(r.minQuote, r.uiQuote, slippageBps)
  {
    hide In, Out, AllFees, Reserve, WithFees, MinimumOf, Minimum;
    ReservesMeaning(p, base, slippageBps);
    var r := SellBase(p, base, slippageBps).value;
    total := r.internal + AllFees(p.fees, r.internal);
    FeesMeaning(r.internal, p.fees);
    MinimumMeaning(r.uiQuote, slippageBps);
    OutConserves(p.base, Priced(p), base);
    if k < Priced(p) {
      InIsAdjoint(p.base, Priced(p), k, base);
    }
  }

  /** Asking for a quote amount is quoted at the least gross whose unrounded fees leave it, and
      the least base that sells for that gross, with the minimum below the amount. */
  lemma SellQuoteMeaning(p: Pool, quote: int, slippageBps: int, k: nat)
    requires SellQuote(p, quote, slippageBps).Ok?
    ensures 0 < p.base && 0 < Priced(p) && 0 <= quote <= p.quote && p.fees.Total() < BPS
    ensures
      var r := SellQuote(p, quote, slippageBps).value;
      && (r.internal <= k <==> quote * BPS <= k * (BPS - p.fees.Total()))
      && (r.base <= k <==> r.internal <= Out(p.base, Priced(p), k))
      && MinimumOf(r.minQuote, quote, slippageBps)
  {
    hide In, Out, Fee, Reserve, MinimumOf, Minimum;
    ReservesMeaning(p, quote, slippageBps);
    CeilLe(quote * BPS, BPS - p.fees.Total(), k);
    MinimumMeaning(quote, slippageBps);
    var r := SellQuote(p, quote, slippageBps).value;
    hide Ceil;
    InIsAdjoint(p.base, Priced(p), r.internal, k);
  }
}
