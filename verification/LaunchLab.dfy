/** LaunchLab exact-in quotes: a constant-product curve behind a transfer fee and a
    trade fee, and the sale cap that back-solves the input through all three. */
module LaunchLab {
  import opened Results
  import opened Rounding
  import opened ConstantProduct
  import opened TradeFee
  import opened TransferFee
  import opened BasisPoints

  datatype Launch = Launch(
    virtualBase: int, virtualQuote: int, realBase: int, realQuote: int, totalBaseSell: int, curveType: int,
    tradeFeeRate: int, platformFeeRate: int, creatorFeeRate: int, baseFee: TokenFee, quoteFee: TokenFee)

  datatype LaunchQuote = LaunchQuote(amountIn: int, minimumAmountOut: int)

  /** The curve a quote runs on. */
  datatype Curve = Curve(base: nat, quote: nat, rate: nat)

  function SetUp(p: Launch, amount: int, slippageBps: int, shareFeeRate: int): Result<Curve> {
    if !(0 <= amount <= U64) then Err(OutsideUnsignedRange)
    else if amount == 0 then Err(InvalidPool)
    else if p.curveType != 0 then Err(InvalidPool)
    else if !(0 <= p.virtualBase <= U128 && 0 <= p.virtualQuote <= U128 && 0 <= p.realBase <= U128
              && 0 <= p.realQuote <= U128 && 0 <= p.totalBaseSell <= U128) then Err(OutsideUnsignedRange)
    else if p.realBase > p.virtualBase then Err(EmptyReserves)
    else if p.virtualQuote + p.realQuote > U128 then Err(OutsideUnsignedRange)
    else if !(0 <= p.tradeFeeRate <= U64 && 0 <= p.platformFeeRate <= U64 && 0 <= p.creatorFeeRate <= U64
              && 0 <= shareFeeRate <= U64) then Err(OutsideUnsignedRange)
    else if p.tradeFeeRate + p.platformFeeRate + p.creatorFeeRate + shareFeeRate > FEE_SCALE then Err(InvalidFee)
    else if !(0 <= slippageBps <= 9999) then Err(InvalidLimit)
    else
      Ok(Curve(p.virtualBase - p.realBase, p.virtualQuote + p.realQuote,
               p.tradeFeeRate + p.platformFeeRate + p.creatorFeeRate + shareFeeRate))
  }

  datatype Bought = Bought(amountIn: int, out: int)

  /** Limits a buy to what is left of the sale and solves back for its input. */
  function Cap(p: Launch, c: Curve, amount: int, out: int): Result<Bought> {
    if p.totalBaseSell == 0 then Ok(Bought(amount, out))
    else if p.realBase > p.totalBaseSell then Err(CapExceeded)
    else
      var remaining := p.totalBaseSell - p.realBase;
      if out <= remaining then Ok(Bought(amount, out))
      else if c.base <= remaining || c.rate >= FEE_SCALE then Err(Exhausted)
      else
        var product :- Unsigned(c.quote * remaining, U128);
        var required := In(c.quote, c.base, remaining);
        var scaled :- Unsigned(required * FEE_SCALE, U128);
        var vault :- Unsigned(BeforeRate(required, c.rate, FEE_SCALE), U64);
        var fee :- Calculate(p.quoteFee, vault, true);
        var actual :- Unsigned(vault + fee, U64);
        Ok(Bought(Min(actual, amount), remaining))
  }

  /** What reaches the curve of a buy's input. */
  function NetInput(p: Launch, rate: Rate, amount: nat): nat
    requires Valid(p.quoteFee)
  {
    AfterRate(Arrives(p.quoteFee, amount), rate, FEE_SCALE)
  }

  function Buy(p: Launch, c: Curve, amount: nat): Result<Bought> {
    if c.rate > FEE_SCALE then Err(InvalidFee)
    else
      var fee :- Calculate(p.quoteFee, amount, false);
      var net := NetInput(p, c.rate, amount);
      var denominator :- Unsigned(c.quote + net, U128);
      if denominator == 0 then Err(EmptyReserves)
      else
        var product :- Unsigned(net * c.base, U128);
        Cap(p, c, amount, Out(c.quote, c.base, net))
  }

  /** What the curve gives for a sale, before its own fee. */
  function Gross(p: Launch, c: Curve, amount: nat): nat
    requires Valid(p.baseFee) && c.base + Arrives(p.baseFee, amount) > 0
  {
    Out(c.base, c.quote, Arrives(p.baseFee, amount))
  }

  function Sell(p: Launch, c: Curve, amount: nat): Result<nat> {
    hide Arrives, Out, Ceil, AfterRate, Withheld;
    if c.rate > FEE_SCALE then Err(InvalidFee)
    else
      var fee :- Calculate(p.baseFee, amount, false);
      var net := Arrives(p.baseFee, amount);
      var denominator :- Unsigned(c.base + net, U128);
      if denominator == 0 then Err(EmptyReserves)
      else
        var product :- Unsigned(net * c.quote, U128);
        var vault :- Unsigned(AfterRate(Gross(p, c, amount), c.rate, FEE_SCALE), U64);
        var outFee :- Calculate(p.quoteFee, vault, false);
        Ok(Arrives(p.quoteFee, vault))
  }

  function Quote(p: Launch, amount: int, buy: bool, slippageBps: int, shareFeeRate: int): Result<LaunchQuote> {
    var c :- SetUp(p, amount, slippageBps, shareFeeRate);
    if buy then
      var bought :- Buy(p, c, amount);
      var out :- Unsigned(bought.out, U64);
      var fee :- Calculate(p.baseFee, out, false);
      var minimum :- Unsigned(Least(Arrives(p.baseFee, out), slippageBps), U64);
      Ok(LaunchQuote(bought.amountIn, minimum))
    else
      var received :- Sell(p, c, amount);
      var minimum :- Unsigned(Least(received, slippageBps), U64);
      Ok(LaunchQuote(amount, minimum))
  }

  // ----- the sale cap -----

  /** What is left to sell. */
  function Remaining(p: Launch): int {
    p.totalBaseSell - p.realBase
  }

  /** A buy of `amount` hits the sale cap: the curve alone would give more than is left. */
  ghost predicate HitsCap(p: Launch, c: Curve, amount: nat) {
    && c.rate <= FEE_SCALE && Valid(p.quoteFee)
    && c.quote + NetInput(p, c.rate, amount) > 0
    && p.totalBaseSell != 0 && p.realBase <= p.totalBaseSell
    && Remaining(p) < Out(c.quote, c.base, NetInput(p, c.rate, amount))
  }

  /** The back-solved input: the remaining supply pushed back through curve, trade fee
      and transfer fee. */
  function CapInput(p: Launch, c: Curve): int
    requires Valid(p.quoteFee) && c.rate < FEE_SCALE && 0 <= Remaining(p) < c.base
  {
    var vault := BeforeRate(In(c.quote, c.base, Remaining(p)), c.rate, FEE_SCALE);
    vault + GrossUp(p.quoteFee, vault)
  }

  /** The curve gives the remaining supply for exactly the inputs from `CapInput` on. */
  lemma CapInputIsLeast(p: Launch, c: Curve, amount: nat)
    requires Valid(p.quoteFee) && c.rate < FEE_SCALE && 0 <= Remaining(p) < c.base
    requires c.quote + NetInput(p, c.rate, amount) > 0
    ensures Remaining(p) <= Out(c.quote, c.base, NetInput(p, c.rate, amount)) <==> CapInput(p, c) <= amount
  {
    hide AfterRate, BeforeRate, Out, In, Withheld, GrossUp;
    WithheldBounds(p.quoteFee, amount);
    var required := In(c.quote, c.base, Remaining(p));
    InIsAdjoint(c.quote, c.base, Remaining(p), NetInput(p, c.rate, amount));
    RateIsAdjoint(required, Arrives(p.quoteFee, amount), c.rate, FEE_SCALE);
    GrossUpIsAdjoint(p.quoteFee, BeforeRate(required, c.rate, FEE_SCALE), amount);
  }

  /** A successful capped buy takes the least sufficient input, sells exactly what is
      left, and never needs the final clamp to the offered amount. */
  lemma CappedBuy(p: Launch, c: Curve, amount: nat)
    requires Buy(p, c, amount).Ok? && HitsCap(p, c, amount)
    ensures c.rate < FEE_SCALE && 0 <= Remaining(p) < c.base
    ensures Buy(p, c, amount).value == Bought(CapInput(p, c), Remaining(p))
    ensures CapInput(p, c) <= amount
  {
    hide AfterRate, BeforeRate, Out, In, Withheld, GrossUp;
    CapInputIsLeast(p, c, amount);
  }

  lemma NetInputMonotone(p: Launch, rate: Rate, less: nat, more: nat)
    requires Valid(p.quoteFee) && rate < FEE_SCALE && less <= more
    ensures NetInput(p, rate, less) <= NetInput(p, rate, more)
  {
    hide Arrives, AfterRate, BeforeRate;
    ArrivesMonotone(p.quoteFee, less, more);
    var net := NetInput(p, rate, less);
    RateIsAdjoint(net, Arrives(p.quoteFee, less), rate, FEE_SCALE);
    RateIsAdjoint(net, Arrives(p.quoteFee, more), rate, FEE_SCALE);
  }

  /** The back-solved input is nothing exactly when the curve sells for free or has
      nothing left to sell. */
  lemma CapInputPositive(p: Launch, c: Curve)
    requires Valid(p.quoteFee) && c.rate < FEE_SCALE && 0 <= Remaining(p) < c.base
    ensures 0 <= CapInput(p, c)
    ensures 0 < CapInput(p, c) <==> c.quote > 0 && Remaining(p) > 0
  {
    var required := In(c.quote, c.base, Remaining(p));
    var vault := BeforeRate(required, c.rate, FEE_SCALE);
    CeilLe(c.quote * Remaining(p), c.base - Remaining(p), 0);
    CeilLe(required * FEE_SCALE, FEE_SCALE - c.rate, 0);
    WithheldBounds(p.quoteFee, vault);
    hide GrossUp, In, BeforeRate, Withheld;
    if c.quote > 0 && Remaining(p) > 0 {
      MulStrict(0, c.quote, Remaining(p));
      assert required > 0 && vault > 0;
    } else {
      assert c.quote * Remaining(p) == 0;
      assert required == 0 && vault == 0;
      EdgeCases(p.quoteFee, vault);
    }
  }

  /** Offering just the back-solved input buys the same. */
  lemma RebuyAtCap(p: Launch, c: Curve, amount: nat)
    requires Buy(p, c, amount).Ok? && HitsCap(p, c, amount)
    requires c.rate < FEE_SCALE && 0 <= Remaining(p) < c.base && 0 < CapInput(p, c)
    ensures Buy(p, c, CapInput(p, c)) == Buy(p, c, amount)
  {
    hide AfterRate, BeforeRate, In, NetInput, Withheld, GrossUp;
    CappedBuy(p, c, amount);
    CapInputPositive(p, c);
    var least := CapInput(p, c);
    CapInputIsLeast(p, c, least);
    NetInputMonotone(p, c.rate, least, amount);
    MulMono(NetInput(p, c.rate, least), NetInput(p, c.rate, amount), c.base);
    hide Out, CapInput;
  }

  /** A successful capped quote charges the least input whose curve output reaches what is
      left of the sale, and quoting that input again gives the same quote exactly when the
      curve has a price and something left to sell. */
  lemma CappedQuote(p: Launch, amount: int, slippageBps: int, shareFeeRate: int, other: nat)
    requires Quote(p, amount, true, slippageBps, shareFeeRate).Ok?
    requires HitsCap(p, SetUp(p, amount, slippageBps, shareFeeRate).value, amount)
    ensures
      var c := SetUp(p, amount, slippageBps, shareFeeRate).value;
      var quote := Quote(p, amount, true, slippageBps, shareFeeRate).value;
      && 0 <= quote.amountIn <= amount
      && (c.quote + NetInput(p, c.rate, other) > 0 ==>
            (Remaining(p) <= Out(c.quote, c.base, NetInput(p, c.rate, other)) <==> quote.amountIn <= other))
      && (c.quote > 0 && Remaining(p) > 0 <==> Quote(p, quote.amountIn, true, slippageBps, shareFeeRate) == Ok(quote))
  {
    hide Out, CapInput, NetInput, GrossUp, Withheld, Cap, Buy, Remaining;
    var c := SetUp(p, amount, slippageBps, shareFeeRate).value;
    CappedBuy(p, c, amount);
    CapInputPositive(p, c);
    if c.quote + NetInput(p, c.rate, other) > 0 {
      CapInputIsLeast(p, c, other);
    }
    if 0 < CapInput(p, c) {
      RebuyAtCap(p, c, amount);
    }
    hide HitsCap;
  }

  /** A sale with nothing left: its whole supply is sold but the curve still has a price. */
  const SOLD_OUT := Launch(1000, 1000, 100, 0, 100, 0, 0, 0, 0, NO_FEE, NO_FEE)
  const NO_FEE := TokenFee(0, 0)

  lemma FreeTransfer(amount: nat, inverse: bool)
    requires amount <= U64
    ensures Arrives(NO_FEE, amount) == amount && Calculate(NO_FEE, amount, inverse) == Ok(0)
  {
  }

  lemma FreeTrade(amount: nat)
    ensures AfterRate(amount, 0, FEE_SCALE) == amount && BeforeRate(amount, 0, FEE_SCALE) == amount
  {
    hide AfterRate, BeforeRate;
    AfterRateGe(amount, 0, FEE_SCALE, amount);
    AfterRateGe(amount, 0, FEE_SCALE, amount + 1);
    BeforeRateLe(amount, 0, FEE_SCALE, amount);
    BeforeRateLe(amount, 0, FEE_SCALE, amount - 1);
  }

  lemma SoldOutCurve()
    ensures Out(1000, 900, 10) == 8 && In(1000, 900, 0) == 0
  {
  }

  lemma SoldOutCap()
    ensures Cap(SOLD_OUT, Curve(900, 1000, 0), 10, 8) == Ok(Bought(0, 0))
  {
    hide AfterRate, BeforeRate, Out, In, Arrives, Calculate;
    FreeTransfer(0, true);
    FreeTrade(0);
    SoldOutCurve();
  }

  lemma SoldOutBuy()
    ensures HitsCap(SOLD_OUT, Curve(900, 1000, 0), 10)
    ensures Buy(SOLD_OUT, Curve(900, 1000, 0), 10) == Ok(Bought(0, 0))
  {
    hide AfterRate, BeforeRate, Out, In, Arrives, Calculate, Cap;
    FreeTransfer(10, false);
    FreeTrade(10);
    SoldOutCurve();
    SoldOutCap();
  }

  lemma SoldOutSetUp()
    ensures SetUp(SOLD_OUT, 10, 0, 0) == Ok(Curve(900, 1000, 0))
    ensures SetUp(SOLD_OUT, 0, 0, 0).Err?
  {
  }

  /** It does happen that a capped quote cannot be repeated: with nothing left to sell a
      buy is quoted at an input of zero, and zero cannot be offered. */
  lemma UnrepeatableQuoteHappens()
    ensures SetUp(SOLD_OUT, 10, 0, 0) == Ok(Curve(900, 1000, 0)) && HitsCap(SOLD_OUT, Curve(900, 1000, 0), 10)
    ensures Quote(SOLD_OUT, 10, true, 0, 0) == Ok(LaunchQuote(0, 0))
    ensures Quote(SOLD_OUT, 0, true, 0, 0).Err?
  {
    hide SetUp, Buy, Sell, HitsCap, Arrives, Calculate, Least, KeptShare;
    SoldOutSetUp();
    FreeTransfer(0, false);
    SoldOutBuy();
    assert Least(0, 0) == 0 by {
      LeastMeaning(0, 0);
    }
    assert Quote(SOLD_OUT, 0, true, 0, 0).Err?;
  }

  /** Every other successful buy charges the whole offer. */
  lemma UncappedQuote(p: Launch, amount: int, slippageBps: int, shareFeeRate: int)
    requires Quote(p, amount, true, slippageBps, shareFeeRate).Ok?
    requires !HitsCap(p, SetUp(p, amount, slippageBps, shareFeeRate).value, amount)
    ensures Quote(p, amount, true, slippageBps, shareFeeRate).value.amountIn == amount
  {
    hide Out, AfterRate, BeforeRate, In, Withheld, GrossUp;
  }

  // ----- what is charged -----

  /** An offer that sells no more than is left, so is charged in full, although a smaller
      one would sell as much. */
  ghost predicate Overpays(p: Launch, c: Curve, amount: nat) {
    && Valid(p.quoteFee) && c.rate < FEE_SCALE && 0 <= Remaining(p) < c.base
    && !HitsCap(p, c, amount) && CapInput(p, c) < amount
  }

  /** A larger offer is charged no less, exactly unless it is capped below a smaller offer
      that is charged in full. */
  lemma ChargeMonotoneExactly(p: Launch, less: int, more: int, slippageBps: int, shareFeeRate: int)
    requires less <= more
    requires Quote(p, less, true, slippageBps, shareFeeRate).Ok?
    requires Quote(p, more, true, slippageBps, shareFeeRate).Ok?
    ensures
      var c := SetUp(p, less, slippageBps, shareFeeRate).value;
      Quote(p, less, true, slippageBps, shareFeeRate).value.amountIn
      <= Quote(p, more, true, slippageBps, shareFeeRate).value.amountIn
      <==> !(HitsCap(p, c, more) && Overpays(p, c, less))
  {
    var c := SetUp(p, less, slippageBps, shareFeeRate).value;
    assert SetUp(p, more, slippageBps, shareFeeRate) == Ok(c);
    hide SetUp, Out, NetInput, CapInput, Cap, HitsCap, Sell, Arrives, Least;
    ChargedInput(p, c, less, slippageBps, shareFeeRate);
    ChargedInput(p, c, more, slippageBps, shareFeeRate);
    hide Quote, Buy;
  }

  /** A buy is charged the back-solved input when it is capped, and else the whole offer. */
  lemma ChargedInput(p: Launch, c: Curve, amount: int, slippageBps: int, shareFeeRate: int)
    requires Quote(p, amount, true, slippageBps, shareFeeRate).Ok? && SetUp(p, amount, slippageBps, shareFeeRate) == Ok(c)
    ensures 0 <= amount
    ensures
      var charged := Quote(p, amount, true, slippageBps, shareFeeRate).value.amountIn;
      if HitsCap(p, c, amount) then
        && Valid(p.quoteFee) && c.rate < FEE_SCALE && 0 <= Remaining(p) < c.base
        && charged == CapInput(p, c) <= amount
      else charged == amount
  {
    assert 0 <= amount;
    if HitsCap(p, c, amount) {
      assert Valid(p.quoteFee);
      hide Out, CapInput, NetInput, Cap, Buy, Remaining, HitsCap;
      CappedBuy(p, c, amount);
    } else {
      UncappedQuote(p, amount, slippageBps, shareFeeRate);
    }
  }

  const FRESH := Launch(1000, 10000, 0, 0, 100, 0, 0, 0, 0, NO_FEE, NO_FEE)
  const FRESH_CURVE := Curve(1000, 10000, 0)

  lemma FreshCurve()
    ensures SetUp(FRESH, 1120, 0, 0) == Ok(FRESH_CURVE) && SetUp(FRESH, 1124, 0, 0) == Ok(FRESH_CURVE)
    ensures Out(10000, 1000, 1120) == 100 && Out(10000, 1000, 1124) == 101 && In(10000, 1000, 100) == 1112
  {
  }

  lemma FreshCap()
    ensures Cap(FRESH, FRESH_CURVE, 1120, 100) == Ok(Bought(1120, 100))
    ensures Cap(FRESH, FRESH_CURVE, 1124, 101) == Ok(Bought(1112, 100))
  {
    hide AfterRate, BeforeRate, Out, In, Arrives, Calculate;
    FreeTransfer(1112, true);
    FreeTrade(1112);
    FreshCurve();
  }

  lemma FreshNet()
    ensures NetInput(FRESH, 0, 1120) == 1120 && NetInput(FRESH, 0, 1124) == 1124
  {
    hide AfterRate, BeforeRate, Arrives, Calculate;
    FreeTransfer(1120, false);
    FreeTransfer(1124, false);
    FreeTrade(1120);
    FreeTrade(1124);
  }

  lemma FreshBuys()
    ensures !HitsCap(FRESH, FRESH_CURVE, 1120) && HitsCap(FRESH, FRESH_CURVE, 1124)
    ensures Buy(FRESH, FRESH_CURVE, 1120) == Ok(Bought(1120, 100))
    ensures Buy(FRESH, FRESH_CURVE, 1124) == Ok(Bought(1112, 100))
  {
    hide AfterRate, BeforeRate, Out, In, Arrives, Calculate, Cap, NetInput, SetUp;
    FreshNet();
    FreshCurve();
    FreshCap();
    FreeTransfer(1120, false);
    FreeTransfer(1124, false);
    assert 1120 * 1000 <= U128;
  }

  /** It does happen: both offers buy the last 100 units, the larger one for eight less. */
  lemma LargerOfferChargedLess()
    ensures Quote(FRESH, 1120, true, 0, 0) == Ok(LaunchQuote(1120, 100))
    ensures Quote(FRESH, 1124, true, 0, 0) == Ok(LaunchQuote(1112, 100))
  {
    hide SetUp, Buy, Sell, HitsCap, Arrives, Calculate, KeptShare;
    FreshCurve();
    FreshBuys();
    FreeTransfer(100, false);
    assert Least(100, 0) == 100;
    hide Least;
  }

  // ----- a larger trade is never worth less -----

  lemma BuyMonotone(p: Launch, c: Curve, less: nat, more: nat)
    requires less <= more && Buy(p, c, less).Ok? && Buy(p, c, more).Ok?
    ensures Buy(p, c, less).value.out <= Buy(p, c, more).value.out
  {
    hide AfterRate, BeforeRate, Arrives, Withheld, GrossUp, Out, In;
    ArrivesMonotone(p.quoteFee, less, more);
    AfterRateMonotone(Arrives(p.quoteFee, less), Arrives(p.quoteFee, more), c.rate, FEE_SCALE);
    OutMonotone(c.quote, c.base, NetInput(p, c.rate, less), NetInput(p, c.rate, more));
    if HitsCap(p, c, more) {
      CappedBuy(p, c, more);
      if HitsCap(p, c, less) {
        CappedBuy(p, c, less);
      }
    }
  }

  lemma SellMonotone(p: Launch, c: Curve, less: nat, more: nat)
    requires less <= more && Sell(p, c, less).Ok? && Sell(p, c, more).Ok?
    ensures Sell(p, c, less).value <= Sell(p, c, more).value
  {
    hide AfterRate, Arrives, Withheld, Out;
    ArrivesMonotone(p.baseFee, less, more);
    OutMonotone(c.base, c.quote, Arrives(p.baseFee, less), Arrives(p.baseFee, more));
    var a, b := Gross(p, c, less), Gross(p, c, more);
    AfterRateMonotone(a, b, c.rate, FEE_SCALE);
    ArrivesMonotone(p.quoteFee, AfterRate(a, c.rate, FEE_SCALE), AfterRate(b, c.rate, FEE_SCALE));
  }

  /** Offering more never lowers the guaranteed output, through every fee, the curve,
      the sale cap and the slippage allowance. */
  lemma QuoteMonotone(p: Launch, less: int, more: int, buy: bool, slippageBps: int, shareFeeRate: int)
    requires less <= more
    requires Quote(p, less, buy, slippageBps, shareFeeRate).Ok?
    requires Quote(p, more, buy, slippageBps, shareFeeRate).Ok?
    ensures
      Quote(p, less, buy, slippageBps, shareFeeRate).value.minimumAmountOut
      <= Quote(p, more, buy, slippageBps, shareFeeRate).value.minimumAmountOut
  {
    hide Buy, Sell, Arrives, Least;
    var c := SetUp(p, less, slippageBps, shareFeeRate).value;
    if buy {
      BuyMonotone(p, c, less, more);
      var a, b := Buy(p, c, less).value.out, Buy(p, c, more).value.out;
      ArrivesMonotone(p.baseFee, a, b);
      LeastMonotone(Arrives(p.baseFee, a), Arrives(p.baseFee, b), slippageBps);
    } else {
      SellMonotone(p, c, less, more);
      LeastMonotone(Sell(p, c, less).value, Sell(p, c, more).value, slippageBps);
    }
  }
}
