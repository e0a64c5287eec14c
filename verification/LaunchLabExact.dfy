/** What a LaunchLab quote delivers, exactly and from the launch's own fields: the least offer
    behind every amount received, through both transfer fees, the trade fee, the curve and
    the sale cap. */
module LaunchLabExact {
  import opened Rounding
  import opened ConstantProduct
  import opened TradeFee
  import opened TransferFee
  import opened BasisPoints
  import opened LaunchLab

  /** The curve's reserves and the sum of the four fee rates. */
  function BaseReserve(p: Launch): int {
    p.virtualBase - p.realBase
  }

  function QuoteReserve(p: Launch): int {
    p.virtualQuote + p.realQuote
  }

  function TotalRate(p: Launch, shareFeeRate: int): int {
    p.tradeFeeRate + p.platformFeeRate + p.creatorFeeRate + shareFeeRate
  }

  /** A quote is set up exactly for a positive amount, a constant-product curve with reserves in
      range, and fee and slippage rates in range. */
  lemma SetUpAccepts(p: Launch, amount: int, slippageBps: int, shareFeeRate: int)
    ensures SetUp(p, amount, slippageBps, shareFeeRate).Ok? <==>
      && 0 < amount <= U64 && p.curveType == 0 && 0 <= slippageBps < BPS
      && 0 <= p.realBase <= p.virtualBase <= U128 && 0 <= p.virtualQuote <= U128 && 0 <= p.realQuote <= U128
      && p.virtualQuote + p.realQuote <= U128 && 0 <= p.totalBaseSell <= U128
      && 0 <= p.tradeFeeRate && 0 <= p.platformFeeRate && 0 <= p.creatorFeeRate && 0 <= shareFeeRate
      && TotalRate(p, shareFeeRate) <= FEE_SCALE
  {
  }

  lemma SetUpMeaning(p: Launch, amount: int, slippageBps: int, shareFeeRate: int)
    requires SetUp(p, amount, slippageBps, shareFeeRate).Ok?
    ensures SetUp(p, amount, slippageBps, shareFeeRate).value.base == BaseReserve(p)
    ensures SetUp(p, amount, slippageBps, shareFeeRate).value.quote == QuoteReserve(p)
    ensures SetUp(p, amount, slippageBps, shareFeeRate).value.rate == TotalRate(p, shareFeeRate) <= FEE_SCALE
    ensures 0 < amount <= U64 && p.curveType == 0 && 0 <= slippageBps < BPS && 0 <= p.totalBaseSell && 0 <= p.realBase
  {
  }

  /** Of `amount`, at least `x` is left after its transfer fee and a fee at `rate`. */
  predicate Covers(fee: TokenFee, rate: nat, amount: nat, x: nat)
    requires Valid(fee)
  {
    x == 0 || (rate < FEE_SCALE && BeforeRate(x, rate, FEE_SCALE) + GrossUp(fee, BeforeRate(x, rate, FEE_SCALE)) <= amount)
  }

  lemma CoversMeaning(fee: TokenFee, rate: Rate, amount: nat, x: nat)
    requires Valid(fee)
    ensures x <= AfterRate(Arrives(fee, amount), rate, FEE_SCALE) <==> Covers(fee, rate, amount, x)
  {
    hide AfterRate, BeforeRate, Arrives, GrossUp;
    if rate < FEE_SCALE {
      RateIsAdjoint(x, Arrives(fee, amount), rate, FEE_SCALE);
      GrossUpIsAdjoint(fee, BeforeRate(x, rate, FEE_SCALE), amount);
    } else {
      AfterRateGe(Arrives(fee, amount), rate, FEE_SCALE, x);
    }
  }

  /** `minimum` is what a slippage allowance leaves of `received`, the allowance rounded down. */
  predicate Allows(received: nat, minimum: int, slippageBps: int) {
    received * (BPS - slippageBps) <= BPS * minimum < received * (BPS - slippageBps) + BPS
  }

  lemma AllowsMeaning(received: nat, slippageBps: nat)
    ensures Allows(received, Least(received, slippageBps), slippageBps)
  {
    FloorBounds(received * slippageBps, BPS);
  }

  /** A buy delivers at least `k` exactly when what must leave the sale for it is still there
      and the offer covers its cost on the curve. */
  lemma BuyReceives(p: Launch, amount: int, slippageBps: int, shareFeeRate: int, k: Pos) returns (received: nat)
    requires Quote(p, amount, true, slippageBps, shareFeeRate).Ok?
    ensures 0 < amount && 0 <= BaseReserve(p) && 0 <= QuoteReserve(p) && 0 <= TotalRate(p, shareFeeRate) <= FEE_SCALE
    ensures Valid(p.baseFee) && Valid(p.quoteFee) && 0 <= GrossUp(p.baseFee, k)
    ensures Allows(received, Quote(p, amount, true, slippageBps, shareFeeRate).value.minimumAmountOut, slippageBps)
    ensures
      var gross: nat := k + GrossUp(p.baseFee, k);
      gross < BaseReserve(p) ==>
        (k <= received <==>
          && (p.totalBaseSell == 0 || p.realBase + gross <= p.totalBaseSell)
          && Covers(p.quoteFee, TotalRate(p, shareFeeRate), amount, In(QuoteReserve(p), BaseReserve(p), gross)))
  {
    hide AfterRate, BeforeRate, Out, In, Withheld, GrossUp, Covers, Allows, SetUp, Least, Arrives;
    SetUpMeaning(p, amount, slippageBps, shareFeeRate);
    var c := SetUp(p, amount, slippageBps, shareFeeRate).value;
    var bought := Buy(p, c, amount).value;
    received := Arrives(p.baseFee, bought.out);
    AllowsMeaning(received, slippageBps);
    WithheldBounds(p.baseFee, k);
    GrossUpIsAdjoint(p.baseFee, k, bought.out);
    var gross := k + GrossUp(p.baseFee, k);
    if gross < BaseReserve(p) {
      InIsAdjoint(c.quote, c.base, gross, NetInput(p, c.rate, amount));
      CoversMeaning(p.quoteFee, c.rate, amount, In(c.quote, c.base, gross));
      BoughtOut(p, c, amount);
    }
  }

  /** What a buy takes off the sale: what the curve gives, up to what is left. */
  lemma BoughtOut(p: Launch, c: Curve, amount: nat)
    requires Buy(p, c, amount).Ok?
    ensures c.rate <= FEE_SCALE && Valid(p.quoteFee) && 0 < c.quote + NetInput(p, c.rate, amount)
    ensures
      var out := Out(c.quote, c.base, NetInput(p, c.rate, amount));
      Buy(p, c, amount).value.out == if p.totalBaseSell == 0 then out else Min(out, p.totalBaseSell - p.realBase)
  {
    hide AfterRate, BeforeRate, Out, In, Withheld, GrossUp;
  }

  /** A sell delivers at least `k` exactly when the offer covers the cost on the curve of what
      must come out of it for that. */
  lemma SellReceives(p: Launch, amount: int, slippageBps: int, shareFeeRate: int, k: Pos) returns (received: nat)
    requires Quote(p, amount, false, slippageBps, shareFeeRate).Ok?
    ensures 0 < amount && 0 <= BaseReserve(p) && 0 <= QuoteReserve(p) && 0 <= TotalRate(p, shareFeeRate) <= FEE_SCALE
    ensures Valid(p.baseFee) && Valid(p.quoteFee) && 0 <= GrossUp(p.quoteFee, k)
    ensures Allows(received, Quote(p, amount, false, slippageBps, shareFeeRate).value.minimumAmountOut, slippageBps)
    ensures Quote(p, amount, false, slippageBps, shareFeeRate).value.amountIn == amount
    ensures TotalRate(p, shareFeeRate) == FEE_SCALE ==> received == 0
    ensures TotalRate(p, shareFeeRate) < FEE_SCALE ==>
      var gross := BeforeRate(k + GrossUp(p.quoteFee, k), TotalRate(p, shareFeeRate), FEE_SCALE);
      gross < QuoteReserve(p) ==>
        (k <= received <==> Covers(p.baseFee, 0, amount, In(BaseReserve(p), QuoteReserve(p), gross)))
  {
    hide AfterRate, BeforeRate, Out, In, Withheld, GrossUp, Covers, Allows, SetUp, Least, Arrives;
    SetUpMeaning(p, amount, slippageBps, shareFeeRate);
    var c := SetUp(p, amount, slippageBps, shareFeeRate).value;
    received := Sell(p, c, amount).value;
    AllowsMeaning(received, slippageBps);
    var vault := AfterRate(Gross(p, c, amount), c.rate, FEE_SCALE);
    WithheldBounds(p.quoteFee, k);
    WithheldBounds(p.quoteFee, vault);
    GrossUpIsAdjoint(p.quoteFee, k, vault);
    if c.rate < FEE_SCALE {
      var gross := BeforeRate(k + GrossUp(p.quoteFee, k), c.rate, FEE_SCALE);
      RateIsAdjoint(k + GrossUp(p.quoteFee, k), Gross(p, c, amount), c.rate, FEE_SCALE);
      if gross < QuoteReserve(p) {
        InIsAdjoint(c.base, c.quote, gross, Arrives(p.baseFee, amount));
        CoversMeaning(p.baseFee, 0, amount, In(c.base, c.quote, gross));
        NoRate(Arrives(p.baseFee, amount));
      }
    } else {
      AfterRateGe(Gross(p, c, amount), c.rate, FEE_SCALE, 1);
      ArrivesAtMost(p.quoteFee, vault);
    }
  }

  lemma NoRate(amount: nat)
    ensures AfterRate(amount, 0, FEE_SCALE) == amount
  {
    AfterRateGe(amount, 0, FEE_SCALE, amount);
    AfterRateGe(amount, 0, FEE_SCALE, amount + 1);
    hide AfterRate;
  }

  lemma ArrivesAtMost(fee: TokenFee, amount: nat)
    requires Valid(fee)
    ensures Arrives(fee, amount) <= amount
  {
    WithheldBounds(fee, amount);
    hide Withheld;
  }

  /** A capped buy is charged the least offer that covers the cost of everything left, and
      every other buy the whole offer. */
  lemma BuyCharges(p: Launch, amount: int, slippageBps: int, shareFeeRate: int, less: nat)
    requires Quote(p, amount, true, slippageBps, shareFeeRate).Ok?
    ensures
      var charged := Quote(p, amount, true, slippageBps, shareFeeRate).value.amountIn;
      && 0 <= charged <= amount
      && (charged < amount ==>
            var left := p.totalBaseSell - p.realBase;
            && 0 < p.totalBaseSell && 0 <= left < BaseReserve(p) && 0 <= QuoteReserve(p) && 0 <= TotalRate(p, shareFeeRate)
            && Valid(p.quoteFee)
            && Covers(p.quoteFee, TotalRate(p, shareFeeRate), charged, In(QuoteReserve(p), BaseReserve(p), left))
            && (less < charged ==> !Covers(p.quoteFee, TotalRate(p, shareFeeRate), less, In(QuoteReserve(p), BaseReserve(p), left))))
  {
    hide AfterRate, BeforeRate, Out, In, NetInput, Withheld, GrossUp, Cap, Buy, Least, Arrives, SetUp;
    SetUpMeaning(p, amount, slippageBps, shareFeeRate);
    var c := SetUp(p, amount, slippageBps, shareFeeRate).value;
    ChargedInput(p, c, amount, slippageBps, shareFeeRate);
    if HitsCap(p, c, amount) {
      NothingCovered(p.quoteFee, c.rate);
      CapInputPositive(p, c);
    }
    hide Quote;
  }

  lemma NothingCovered(fee: TokenFee, rate: nat)
    requires Valid(fee) && rate < FEE_SCALE
    ensures BeforeRate(0, rate, FEE_SCALE) == 0 && GrossUp(fee, 0) == 0
  {
    BeforeRateLe(0, rate, FEE_SCALE, 0);
    hide BeforeRate;
  }
}
