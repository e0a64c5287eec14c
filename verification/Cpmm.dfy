/** Cached Raydium CPMM exact-in quotes: a constant product between two transfer fees,
    with a trade fee on the input and a creator fee on either side. */
module Cpmm {
  import opened Results
  import opened Rounding
  import opened BasisPoints
  import opened ConstantProduct
  import opened TradeFee
  import opened TransferFee

  datatype Pool = Pool(
    baseReserve: int, quoteReserve: int, tradeRate: int, protocolRate: int, fundRate: int, creatorRate: int,
    creatorFeeOn: int, enableCreatorFee: bool, baseFee: TokenFee, quoteFee: TokenFee)

  datatype CpmmQuote = CpmmQuote(
    amountIn: int, amountOut: int, minimumAmountOut: int, tradeFee: int, creatorFee: int)

  /** A checked pool seen from one direction of trade. */
  datatype Market = Market(
    reserveIn: Pos, reserveOut: Pos, tradeRate: Rate, creatorRate: Rate, onInput: bool, inFee: TokenFee, outFee: TokenFee)
  {
    /** The rate charged on the input. */
    function InputRate(): nat {
      tradeRate + if onInput then creatorRate else 0
    }

    predicate Sound() {
      tradeRate + creatorRate < FEE_SCALE && Valid(inFee)
    }
  }

  function EnabledRate(p: Pool): int {
    if p.enableCreatorFee then p.creatorRate else 0
  }

  predicate RatesFit(p: Pool) {
    && 0 <= p.creatorRate <= U64 && 0 <= p.tradeRate <= U64
    && p.tradeRate + EnabledRate(p) < FEE_SCALE
    && 0 <= p.protocolRate <= U64 && 0 <= p.fundRate <= U64 && p.protocolRate + p.fundRate <= FEE_SCALE
    && 0 <= p.creatorFeeOn <= 2
  }

  function SetUp(p: Pool, amount: int, baseIn: bool, slippageBps: int): Result<Market> {
    if !(0 <= amount <= U64) then Err(OutsideUnsignedRange)
    else if amount == 0 then Err(InvalidPool)
    else if !(0 <= slippageBps <= 9999) then Err(InvalidLimit)
    else if !RatesFit(p) then Err(InvalidFee)
    else
      var i :- Unsigned(if baseIn then p.baseReserve else p.quoteReserve, U64);
      if i == 0 then Err(EmptyReserves)
      else
        var o :- Unsigned(if baseIn then p.quoteReserve else p.baseReserve, U64);
        if o == 0 then Err(EmptyReserves)
        else
          var onInput := p.creatorFeeOn == 0 || (p.creatorFeeOn == 1 && baseIn) || (p.creatorFeeOn == 2 && !baseIn);
          Ok(if baseIn then Market(i, o, p.tradeRate, EnabledRate(p), onInput, p.baseFee, p.quoteFee)
             else Market(i, o, p.tradeRate, EnabledRate(p), onInput, p.quoteFee, p.baseFee))
  }

  /** What reaches the pool of an input, fees included. */
  function Net(m: Market, amount: nat): nat
    requires m.Sound()
  {
    Arrives(m.inFee, amount)
  }

  /** What the pool trades on. */
  function Traded(m: Market, amount: nat): nat
    requires m.Sound()
  {
    AfterRate(Net(m, amount), m.InputRate(), FEE_SCALE)
  }

  function InputFee(m: Market, amount: nat): int
    requires m.Sound()
  {
    Net(m, amount) - Traded(m, amount)
  }

  /** The creator's part of the input fee. */
  function CreatorPart(m: Market, fee: int): int {
    if m.onInput && m.InputRate() > 0 then fee * m.creatorRate / m.InputRate() else 0
  }

  function Swapped(m: Market, amount: nat): nat
    requires m.Sound()
  {
    Out(m.reserveIn, m.reserveOut, Traded(m, amount))
  }

  /** What the pool pays, after a creator fee on the output. */
  function Gross(m: Market, amount: nat): nat
    requires m.Sound()
  {
    if m.onInput then Swapped(m, amount) else AfterRate(Swapped(m, amount), m.creatorRate, FEE_SCALE)
  }

  function Quote(p: Pool, amount: int, baseIn: bool, slippageBps: int): Result<CpmmQuote> {
    hide Swapped, Gross, Arrives, Net, Traded;
    var m :- SetUp(p, amount, baseIn, slippageBps);
    var withheld :- Calculate(m.inFee, amount, false);
    var fee := InputFee(m, amount);
    var creatorIn := CreatorPart(m, fee);
    var gross := Gross(m, amount);
    var outFee :- Calculate(m.outFee, gross, false);
    var received :- Unsigned(Arrives(m.outFee, gross), U64);
    Ok(CpmmQuote(amount, received, KeptShare(received, slippageBps), fee - creatorIn,
                 if m.onInput then creatorIn else Swapped(m, amount) - gross))
  }

  /** The creator's part of an input fee is its floored proportion. */
  lemma CreatorPartBounds(m: Market, fee: nat)
    ensures 0 <= CreatorPart(m, fee) <= fee && (!m.onInput ==> CreatorPart(m, fee) == 0)
    ensures m.onInput && 0 < m.InputRate() ==>
      CreatorPart(m, fee) * m.InputRate() <= fee * m.creatorRate < (CreatorPart(m, fee) + 1) * m.InputRate()
  {
    if m.onInput && 0 < m.InputRate() {
      FloorBounds(fee * m.creatorRate, m.InputRate());
      MulMono(0, m.creatorRate, fee);
      FloorGe(fee * m.creatorRate, m.InputRate(), 0);
      FloorGe(fee * m.creatorRate, m.InputRate(), fee + 1);
      MulMono(m.creatorRate, m.InputRate(), fee);
    }
  }

  /** A quote accounts for every unit: the input is the withheld transfer fee, the input
      fees and what the pool trades on; what the pool gives up is the output creator fee,
      the withheld transfer fee and what arrives. */
  lemma QuoteAccounts(p: Pool, amount: int, baseIn: bool, slippageBps: int)
    requires Quote(p, amount, baseIn, slippageBps).Ok?
    ensures SetUp(p, amount, baseIn, slippageBps).Ok? && 0 < amount
    ensures
      var m := SetUp(p, amount, baseIn, slippageBps).value;
      var q := Quote(p, amount, baseIn, slippageBps).value;
      && m.Sound() && Valid(m.outFee) && 0 <= q.tradeFee && 0 <= q.creatorFee
      && amount == Withheld(m.inFee, amount) + q.tradeFee + (if m.onInput then q.creatorFee else 0) + Traded(m, amount)
      && Swapped(m, amount)
         == (if m.onInput then 0 else q.creatorFee) + Withheld(m.outFee, Gross(m, amount)) + q.amountOut
      && (m.onInput ==> q.creatorFee == CreatorPart(m, q.tradeFee + q.creatorFee))
  {
    hide Swapped, Withheld, KeptShare, AfterRate, CreatorPart;
    var m := SetUp(p, amount, baseIn, slippageBps).value;
    AfterRateMonotone(Net(m, amount), Net(m, amount), m.InputRate(), FEE_SCALE);
    AfterRateMonotone(Swapped(m, amount), Swapped(m, amount), m.creatorRate, FEE_SCALE);
    CreatorPartBounds(m, InputFee(m, amount));
  }

  /** A quote never lowers the product of the reserves and never empties the pool. */
  lemma QuoteConserves(p: Pool, amount: int, baseIn: bool, slippageBps: int)
    requires Quote(p, amount, baseIn, slippageBps).Ok?
    ensures SetUp(p, amount, baseIn, slippageBps).Ok? && 0 < amount
    ensures
      var m := SetUp(p, amount, baseIn, slippageBps).value;
      && m.Sound()
      && (m.reserveIn + Traded(m, amount)) * (m.reserveOut - Swapped(m, amount)) >= m.reserveIn * m.reserveOut
      && Quote(p, amount, baseIn, slippageBps).value.amountOut <= Swapped(m, amount) < m.reserveOut
  {
    hide Traded, Withheld, KeptShare, Out;
    var m := SetUp(p, amount, baseIn, slippageBps).value;
    OutConserves(m.reserveIn, m.reserveOut, Traded(m, amount));
    WithheldBounds(m.outFee, Gross(m, amount));
    AfterRateMonotone(Swapped(m, amount), Swapped(m, amount), m.creatorRate, FEE_SCALE);
    hide AfterRate;
  }

  lemma GrossMonotone(m: Market, less: nat, more: nat)
    requires m.Sound() && less <= more
    ensures Gross(m, less) <= Gross(m, more)
  {
    hide Arrives, AfterRate, Out;
    ArrivesMonotone(m.inFee, less, more);
    AfterRateMonotone(Net(m, less), Net(m, more), m.InputRate(), FEE_SCALE);
    OutMonotone(m.reserveIn, m.reserveOut, Traded(m, less), Traded(m, more));
    AfterRateMonotone(Swapped(m, less), Swapped(m, more), m.creatorRate, FEE_SCALE);
  }

  /** Offering more never lowers what arrives or its guaranteed minimum, through both
      transfer fees, both fee sides and the slippage allowance. */
  lemma QuoteMonotone(p: Pool, less: int, more: int, baseIn: bool, slippageBps: int)
    requires less <= more
    requires Quote(p, less, baseIn, slippageBps).Ok? && Quote(p, more, baseIn, slippageBps).Ok?
    ensures
      var small, large := Quote(p, less, baseIn, slippageBps).value, Quote(p, more, baseIn, slippageBps).value;
      small.amountOut <= large.amountOut && small.minimumAmountOut <= large.minimumAmountOut
  {
    hide Gross, Net, Traded, Arrives, KeptShare, CreatorPart;
    var m := SetUp(p, less, baseIn, slippageBps).value;
    GrossMonotone(m, less, more);
    ArrivesMonotone(m.outFee, Gross(m, less), Gross(m, more));
    LeastMonotone(Arrives(m.outFee, Gross(m, less)), Arrives(m.outFee, Gross(m, more)), slippageBps);
  }

  /** The pool with its two sides exchanged. */
  function Mirror(p: Pool): Pool {
    p.(baseReserve := p.quoteReserve, quoteReserve := p.baseReserve, baseFee := p.quoteFee, quoteFee := p.baseFee,
       creatorFeeOn := if p.creatorFeeOn == 1 then 2 else if p.creatorFeeOn == 2 then 1 else p.creatorFeeOn)
  }

  /** The two sides of a pool are treated alike. */
  lemma QuoteIsSymmetric(p: Pool, amount: int, baseIn: bool, slippageBps: int)
    ensures Quote(Mirror(p), amount, !baseIn, slippageBps) == Quote(p, amount, baseIn, slippageBps)
  {
    hide Arrives, Gross, Swapped, Traded, CreatorPart, Withheld, KeptShare;
    assert SetUp(Mirror(p), amount, !baseIn, slippageBps) == SetUp(p, amount, baseIn, slippageBps);
  }
}
