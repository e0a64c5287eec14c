/** What a cached CPMM quote delivers, exactly and from the pool's own fields: the least input
    behind every amount received, through both transfer fees, the trade fee and the creator
    fee on its side. */
module CpmmExact {
  import opened Rounding
  import opened BasisPoints
  import opened ConstantProduct
  import opened TradeFee
  import opened TransferFee
  import opened Cpmm

  /** The creator fee counts only when enabled. It is on the input in mode 0 and when the mode
      names the token paid in: base (1) or quote (2). */
  function CreatorRate(p: Pool): int {
    if p.enableCreatorFee then p.creatorRate else 0
  }

  predicate CreatorOnInput(p: Pool, baseIn: bool) {
    p.creatorFeeOn != if baseIn then 2 else 1
  }

  function RateOnInput(p: Pool, baseIn: bool): int {
    p.tradeRate + if CreatorOnInput(p, baseIn) then CreatorRate(p) else 0
  }

  /** A quote is set up exactly for a positive amount, positive u64 reserves, and fee and
      slippage rates in range. */
  lemma SetUpAccepts(p: Pool, amount: int, baseIn: bool, slippageBps: int)
    ensures SetUp(p, amount, baseIn, slippageBps).Ok? <==>
      && 0 < amount <= U64 && 0 <= slippageBps < BPS && 0 < p.baseReserve <= U64 && 0 < p.quoteReserve <= U64
      && 0 <= p.creatorRate <= U64 && 0 <= p.tradeRate && p.tradeRate + CreatorRate(p) < FEE_SCALE
      && 0 <= p.protocolRate && 0 <= p.fundRate && p.protocolRate + p.fundRate <= FEE_SCALE
      && (p.creatorFeeOn == 0 || p.creatorFeeOn == 1 || p.creatorFeeOn == 2)
  {
  }

  lemma SetUpMeaning(p: Pool, amount: int, baseIn: bool, slippageBps: int)
    requires SetUp(p, amount, baseIn, slippageBps).Ok?
    ensures 0 < amount <= U64 && 0 <= slippageBps < BPS && p.tradeRate + CreatorRate(p) < FEE_SCALE
    ensures p.protocolRate + p.fundRate <= FEE_SCALE
    ensures
      var m := SetUp(p, amount, baseIn, slippageBps).value;
      && (if baseIn then m.reserveIn == p.baseReserve && m.reserveOut == p.quoteReserve && m.inFee == p.baseFee && m.outFee == p.quoteFee
          else m.reserveIn == p.quoteReserve && m.reserveOut == p.baseReserve && m.inFee == p.quoteFee && m.outFee == p.baseFee)
      && m.tradeRate == p.tradeRate && m.creatorRate == CreatorRate(p)
      && m.onInput == CreatorOnInput(p, baseIn) && m.InputRate() == RateOnInput(p, baseIn)
  {
  }

  /** What must come out of the curve for `gross` to be left of it after the creator fee. */
  function BeforeCreator(p: Pool, baseIn: bool, gross: nat): nat
    requires 0 <= CreatorRate(p) < FEE_SCALE
  {
    if CreatorOnInput(p, baseIn) then gross else BeforeRate(gross, CreatorRate(p), FEE_SCALE)
  }

  /** The input behind `x` on the curve: grossed up by the input rate and the transfer fee. */
  function BeforeFees(p: Pool, baseIn: bool, x: nat): int
    requires 0 <= RateOnInput(p, baseIn) < FEE_SCALE && Valid(if baseIn then p.baseFee else p.quoteFee)
  {
    var vault := BeforeRate(x, RateOnInput(p, baseIn), FEE_SCALE);
    vault + GrossUp(if baseIn then p.baseFee else p.quoteFee, vault)
  }

  /** At least `k` arrives exactly when the input covers the cost of what must come out of the
      curve for it. */
  lemma QuoteReceives(p: Pool, amount: int, baseIn: bool, slippageBps: int, k: Pos)
    requires Quote(p, amount, baseIn, slippageBps).Ok?
    ensures 0 <= CreatorRate(p) < FEE_SCALE && 0 <= RateOnInput(p, baseIn) < FEE_SCALE
    ensures 0 < p.baseReserve && 0 < p.quoteReserve && Valid(p.baseFee) && Valid(p.quoteFee)
    ensures
      var q := Quote(p, amount, baseIn, slippageBps).value;
      var reserveIn, reserveOut := if baseIn then p.baseReserve else p.quoteReserve, if baseIn then p.quoteReserve else p.baseReserve;
      var grossUp := GrossUp(if baseIn then p.quoteFee else p.baseFee, k);
      && q.amountIn == amount && 0 <= grossUp && 0 <= q.amountOut
      && q.minimumAmountOut * BPS <= q.amountOut * (BPS - slippageBps) < (q.minimumAmountOut + 1) * BPS
      && var out := BeforeCreator(p, baseIn, k + grossUp);
      (k <= q.amountOut <==> out < reserveOut && BeforeFees(p, baseIn, In(reserveIn, reserveOut, out)) <= amount)
  {
    hide AfterRate, BeforeRate, Out, In, Withheld, GrossUp, SetUp, KeptShare, CreatorPart, Traded, Net;
    SetUpMeaning(p, amount, baseIn, slippageBps);
    QuoteParts(p, amount, baseIn, slippageBps);
    var m := SetUp(p, amount, baseIn, slippageBps).value;
    var swapped, gross := Swapped(m, amount), Gross(m, amount);
    WithheldBounds(m.outFee, k);
    GrossUpIsAdjoint(m.outFee, k, gross);
    var needed := k + GrossUp(m.outFee, k);
    if !m.onInput {
      RateIsAdjoint(needed, swapped, m.creatorRate, FEE_SCALE);
    }
    var out := BeforeCreator(p, baseIn, needed);
    TradedGe(m, amount, 0);
    OutConserves(m.reserveIn, m.reserveOut, Traded(m, amount));
    if out < m.reserveOut {
      InIsAdjoint(m.reserveIn, m.reserveOut, out, Traded(m, amount));
      TradedGe(m, amount, In(m.reserveIn, m.reserveOut, out));
    }
    hide Quote, Swapped, Gross;
  }

  lemma TradedGe(m: Market, amount: nat, x: nat)
    requires m.Sound()
    ensures
      var vault := BeforeRate(x, m.InputRate(), FEE_SCALE);
      x <= Traded(m, amount) <==> vault + GrossUp(m.inFee, vault) <= amount
  {
    hide AfterRate, BeforeRate, Arrives, GrossUp;
    RateIsAdjoint(x, Arrives(m.inFee, amount), m.InputRate(), FEE_SCALE);
    GrossUpIsAdjoint(m.inFee, BeforeRate(x, m.InputRate(), FEE_SCALE), amount);
  }

  lemma QuoteParts(p: Pool, amount: int, baseIn: bool, slippageBps: int)
    requires Quote(p, amount, baseIn, slippageBps).Ok?
    ensures SetUp(p, amount, baseIn, slippageBps).Ok? && 0 < amount && Valid(p.baseFee) && Valid(p.quoteFee)
    ensures
      var m, q := SetUp(p, amount, baseIn, slippageBps).value, Quote(p, amount, baseIn, slippageBps).value;
      && m.Sound() && Valid(m.outFee) && q.amountIn == amount
      && q.amountOut == Arrives(m.outFee, Gross(m, amount))
      && q.minimumAmountOut * BPS <= q.amountOut * (BPS - slippageBps) < (q.minimumAmountOut + 1) * BPS
  {
    hide Arrives, Gross, Swapped, CreatorPart, Traded, Withheld;
    var m := SetUp(p, amount, baseIn, slippageBps).value;
    var received := Arrives(m.outFee, Gross(m, amount));
    FloorBounds(received * (BPS - slippageBps), BPS);
  }
}
