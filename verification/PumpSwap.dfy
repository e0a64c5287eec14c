/** PumpSwap quotes: buying and selling, each by base and by quote amount, over a
    constant-product pool with three fees and a signed virtual quote reserve. */
module PumpSwap {
  import opened Results
  import opened Rounding
  import opened BasisPoints
  import opened ConstantProduct

  const I128_MIN: int := -0x8000_0000_0000_0000_0000_0000_0000_0000
  const I128_MAX: int := 0x7FFF_FFFF_FFFF_FFFF_FFFF_FFFF_FFFF_FFFF
  const MAX_SLIPPAGE: nat := 9999

  datatype Fees = Fees(lp: int, protocol: int, creator: int) {
    predicate InRange() {
      0 <= lp <= U64 && 0 <= protocol <= U64 && 0 <= creator <= U64
    }

    function Total(): int {
      lp + protocol + creator
    }
  }

  datatype Pool = Pool(base: int, quote: int, virtualQuote: int, fees: Fees)

  /** The quote reserve with its signed virtual part. */
  function EffectiveQuote(vault: int, virtualQuote: int): (r: Result<nat>)
    ensures r.Ok? <==> 0 <= vault <= U64 && I128_MIN <= virtualQuote <= I128_MAX && 0 <= vault + virtualQuote <= U64
    ensures r.Ok? ==> r.value == vault + virtualQuote
  {
    if !(0 <= vault <= U64) || !(I128_MIN <= virtualQuote <= I128_MAX) then Err(OutsideUnsignedRange)
    else Unsigned(vault + virtualQuote, U64)
  }

  /** The checked reserves every quote starts from. */
  datatype Reserves = Reserves(base: Pos, quote: Pos)

  predicate InputsFit(p: Pool, amount: int, slippageBps: int) {
    0 <= amount <= U64 && 0 <= slippageBps <= U64 && 0 <= p.base <= U64 && 0 <= p.quote <= U64 && p.fees.InRange()
  }

  function Reserve(p: Pool, amount: int, slippageBps: int): (r: Result<Reserves>)
    ensures r.Ok? ==> InputsFit(p, amount, slippageBps)
    ensures r.Ok? ==> r.value.base == p.base && r.value.quote == p.quote + p.virtualQuote
  {
    if !InputsFit(p, amount, slippageBps) then Err(OutsideUnsignedRange)
    else if p.base == 0 || p.quote == 0 then Err(EmptyReserves)
    else
      var effective :- EffectiveQuote(p.quote, p.virtualQuote);
      if effective == 0 then Err(EmptyReserves) else Ok(Reserves(p.base, effective))
  }

  /** The three rounded-up fees on an amount. */
  function AllFees(fees: Fees, n: nat): nat
    requires fees.InRange()
  {
    Fee(n, fees.lp) + Fee(n, fees.protocol) + Fee(n, fees.creator)
  }

  function CheckedFees(fees: Fees, n: nat): (r: Result<nat>)
    requires fees.InRange()
    ensures r.Ok? ==> r.value == AllFees(fees, n)
    ensures r.Ok? <== AllFees(fees, n) <= U64
  {
    hide Fee;
    var lp :- Unsigned(Fee(n, fees.lp), U64);
    var protocol :- Unsigned(Fee(n, fees.protocol), U64);
    var creator :- Unsigned(Fee(n, fees.creator), U64);
    Ok(lp + protocol + creator)
  }

  /** The budget that a slippage allowance permits. */
  function Budget(amount: nat, slippageBps: nat): int {
    Min(U64, amount + amount * Min(slippageBps, MAX_SLIPPAGE) / BPS)
  }

  function Minimum(amount: nat, slippageBps: nat): int {
    KeptShare(amount, Min(slippageBps, MAX_SLIPPAGE))
  }

  datatype BuyBaseQuote = BuyBaseQuote(internal: nat, uiQuote: nat, maxQuote: int)

  datatype BuyQuoteQuote = BuyQuoteQuote(base: nat, internal: nat, maxQuote: int)

  datatype SellBaseQuote = SellBaseQuote(uiQuote: nat, minQuote: int, internal: nat)

  datatype SellQuoteQuote = SellQuoteQuote(internal: nat, base: nat, minQuote: int)

  function BuyBase(p: Pool, base: int, slippageBps: int): Result<BuyBaseQuote> {
    hide In, Fee;
    var pool :- Reserve(p, base, slippageBps);
    if base >= pool.base then Err(EmptyReserves)
    else
      var raw :- Unsigned(In(pool.quote, pool.base, base), U64);
      var fee :- CheckedFees(p.fees, raw);
      var total :- Unsigned(raw + fee, U64);
      Ok(BuyBaseQuote(raw, total, Budget(total, slippageBps)))
  }

  /** The part of a budget that would be spent if fees were not rounded. */
  function Share(fees: Fees, quote: nat): nat
    requires fees.InRange()
  {
    FloorGe(quote * BPS, BPS + fees.Total(), 0);
    quote * BPS / (BPS + fees.Total())
  }

  /** What a quote budget leaves after fees, corrected once for their rounding. */
  function Spendable(fees: Fees, quote: nat): int
    requires fees.InRange()
  {
    var n := Share(fees, quote);
    n - Max(0, n + AllFees(fees, n) - quote)
  }

  function BuyQuote(p: Pool, quote: int, slippageBps: int): Result<BuyQuoteQuote> {
    hide Out, Fee, Share;
    var pool :- Reserve(p, quote, slippageBps);
    var denominator :- Unsigned(BPS + p.fees.Total(), U64);
    var fee :- CheckedFees(p.fees, Share(p.fees, quote));
    var effective := Spendable(p.fees, quote);
    if effective <= 0 then Err(InvalidFee)
    else Ok(BuyQuoteQuote(Out(pool.quote, pool.base, effective - 1), effective, Budget(quote, slippageBps)))
  }

  function SellBase(p: Pool, base: int, slippageBps: int): Result<SellBaseQuote> {
    hide Out, Fee;
    var pool :- Reserve(p, base, slippageBps);
    var gross := Out(pool.base, pool.quote, base);
    var fee :- CheckedFees(p.fees, gross);
    var total :- Unsigned(fee, U64);
    if total > gross || gross - Fee(gross, p.fees.lp) > p.quote then Err(EmptyReserves)
    else Ok(SellBaseQuote(gross - total, Minimum(gross - total, slippageBps), gross))
  }

  function SellQuote(p: Pool, quote: int, slippageBps: int): Result<SellQuoteQuote> {
    hide In, Fee;
    if !InputsFit(p, quote, slippageBps) then Err(OutsideUnsignedRange)
    else if p.base == 0 || p.quote == 0 || quote > p.quote then Err(EmptyReserves)
    else
      var pool :- Reserve(p, quote, slippageBps);
      if BPS - p.fees.Total() <= 0 then Err(InvalidFee)
      else
        var raw :- Unsigned(Ceil(quote * BPS, BPS - p.fees.Total()), U64);
        var lp :- Unsigned(Fee(raw, p.fees.lp), U64);
        if raw - lp > p.quote || raw >= pool.quote then Err(EmptyReserves)
        else
          var base :- Unsigned(In(pool.base, pool.quote, raw), U64);
          Ok(SellQuoteQuote(raw, base, Minimum(quote, slippageBps)))
  }

  // ----- fees -----

  lemma AllFeesBounds(fees: Fees, n: nat)
    requires fees.InRange()
    ensures n * fees.Total() <= BPS * AllFees(fees, n) <= n * fees.Total() + 3 * (BPS - 1)
  {
    FeeBounds(n, fees.lp);
    FeeBounds(n, fees.protocol);
    FeeBounds(n, fees.creator);
    hide Fee;
  }

  lemma AllFeesMonotone(fees: Fees, less: nat, more: nat)
    requires fees.InRange() && less <= more
    ensures AllFees(fees, less) <= AllFees(fees, more)
    ensures AllFees(fees, 0) == 0
  {
    FeeMonotone(less, more, fees.lp);
    FeeMonotone(less, more, fees.protocol);
    FeeMonotone(less, more, fees.creator);
    hide Fee;
  }

  /** At most one of the fees is charged at all. */
  predicate AtMostOne(fees: Fees) {
    (fees.lp == 0 || fees.protocol == 0) && (fees.lp == 0 || fees.creator == 0) && (fees.protocol == 0 || fees.creator == 0)
  }

  /** One of the fees is a whole multiple of the amount, zero included, and never rounds. */
  predicate OneNeverRounds(fees: Fees) {
    fees.lp % BPS == 0 || fees.protocol % BPS == 0 || fees.creator % BPS == 0
  }

  /** The fewer the fees, the smaller their joint rounding; a fee that never rounds does not count. */
  lemma AllFeesTighter(fees: Fees, n: nat)
    requires fees.InRange()
    ensures OneNeverRounds(fees) ==> BPS * AllFees(fees, n) <= n * fees.Total() + 2 * (BPS - 1)
    ensures AtMostOne(fees) ==> BPS * AllFees(fees, n) <= n * fees.Total() + (BPS - 1)
  {
    FeeBounds(n, fees.lp);
    FeeBounds(n, fees.protocol);
    FeeBounds(n, fees.creator);
    FeeMonotone(n, n, 0);
    WholeFee(n, fees.lp);
    WholeFee(n, fees.protocol);
    WholeFee(n, fees.creator);
    hide Fee;
  }

  lemma WholeFee(n: nat, bps: nat)
    ensures bps % BPS == 0 ==> BPS * Fee(n, bps) == n * bps
  {
    FeeBounds(n, bps);
    if bps % BPS == 0 {
      var whole := bps / BPS;
      assert n * bps == BPS * (n * whole);
    }
    hide Fee;
  }

  // ----- buying -----

  /** The unrounded share is at least every affordable amount. */
  lemma ShareIsUpper(fees: Fees, quote: nat, other: nat)
    requires fees.InRange() && other + AllFees(fees, other) <= quote
    ensures other <= Share(fees, quote)
  {
    FloorGe(quote * BPS, BPS + fees.Total(), other);
    AllFeesBounds(fees, other);
    hide AllFees, Share;
  }

  lemma ShareScaled(fees: Fees, quote: nat)
    requires fees.InRange()
    ensures Share(fees, quote) * (BPS + fees.Total()) <= quote * BPS
  {
    FloorBounds(quote * BPS, BPS + fees.Total());
  }

  lemma RoundingOvershoot(n: nat, total: nat, fee: nat, quote: nat, count: nat)
    requires n * (BPS + total) <= quote * BPS && BPS * fee <= n * total + count * (BPS - 1)
    ensures n <= quote
    ensures 1 <= count <= 3 ==> n + fee <= quote + count - 1
  {
    assert n * (BPS + total) == n * BPS + n * total;
    MulMono(0, total, n);
  }

  /** It overshoots by at most one less than the number of fees. */
  lemma ShareOvershoot(fees: Fees, quote: nat)
    requires fees.InRange()
    ensures Share(fees, quote) <= quote
    ensures Share(fees, quote) + AllFees(fees, Share(fees, quote)) <= quote + 2
    ensures OneNeverRounds(fees) ==> Share(fees, quote) + AllFees(fees, Share(fees, quote)) <= quote + 1
  {
    hide AllFees, Share, OneNeverRounds, AtMostOne;
    var n := Share(fees, quote);
    ShareScaled(fees, quote);
    AllFeesBounds(fees, n);
    AllFeesTighter(fees, n);
    RoundingOvershoot(n, fees.Total(), AllFees(fees, n), quote, 3);
    if OneNeverRounds(fees) {
      RoundingOvershoot(n, fees.Total(), AllFees(fees, n), quote, 2);
    }
  }

  /** The corrected budget pays for itself and its three fees, and falls short of the
      greatest amount that would by at most two, and by nothing when a fee never rounds. */
  lemma SpendableFits(fees: Fees, quote: nat, other: nat)
    requires fees.InRange()
    ensures Spendable(fees, quote) <= quote && (OneNeverRounds(fees) ==> 0 <= Spendable(fees, quote))
    ensures 0 <= Spendable(fees, quote) ==> Spendable(fees, quote) + AllFees(fees, Spendable(fees, quote)) <= quote
    ensures other + AllFees(fees, other) <= quote ==> other <= Spendable(fees, quote) + 2
    ensures OneNeverRounds(fees) ==> (other + AllFees(fees, other) <= quote <==> other <= Spendable(fees, quote))
  {
    hide AllFees, OneNeverRounds, Share;
    ShareOvershoot(fees, quote);
    if other + AllFees(fees, other) <= quote {
      ShareIsUpper(fees, quote, other);
    }
    var n := Share(fees, quote);
    AllFeesMonotone(fees, 0, n);
    if 2 <= n {
      AllFeesMonotone(fees, n - 2, n);
    }
    if 1 <= n {
      AllFeesMonotone(fees, n - 1, n);
    }
    if other <= Spendable(fees, quote) {
      AllFeesMonotone(fees, other, Spendable(fees, quote));
    }
  }

  /** Buying back the base a budget bought costs no more than the budget. */
  lemma BuyBaseOfBuyQuote(p: Pool, quote: int, slippageBps: int)
    requires BuyQuote(p, quote, slippageBps).Ok?
    ensures
      var bought := BuyQuote(p, quote, slippageBps).value;
      var again := BuyBase(p, bought.base, slippageBps);
      && bought.internal + AllFees(p.fees, bought.internal) <= quote
      && again.Ok? && again.value.internal < bought.internal && again.value.uiQuote <= quote
  {
    hide Out, In, Spendable, Fee;
    var bought := BuyQuote(p, quote, slippageBps).value;
    SpendableFits(p.fees, quote, 0);
    var x, y := p.quote + p.virtualQuote, p.base;
    OutConserves(x, y, bought.internal - 1);
    InIsAdjoint(x, y, bought.base, bought.internal - 1);
    AllFeesMonotone(p.fees, In(x, y, bought.base), bought.internal);
  }

  /** A larger budget spends at most two less, and nothing less with a fee that
      never rounds. */
  lemma BuyQuoteMonotone(p: Pool, less: int, more: int, slippageBps: int)
    requires less <= more && BuyQuote(p, less, slippageBps).Ok? && BuyQuote(p, more, slippageBps).Ok?
    ensures BuyQuote(p, less, slippageBps).value.internal <= BuyQuote(p, more, slippageBps).value.internal + 2
    ensures OneNeverRounds(p.fees) ==>
      BuyQuote(p, less, slippageBps).value.base <= BuyQuote(p, more, slippageBps).value.base
  {
    hide Out, Spendable, AllFees, OneNeverRounds, Share;
    var a, b := Spendable(p.fees, less), Spendable(p.fees, more);
    SpendableFits(p.fees, less, 0);
    SpendableFits(p.fees, more, a);
    if OneNeverRounds(p.fees) {
      OutMonotone(p.quote + p.virtualQuote, p.base, a - 1, b - 1);
    }
  }

  /** At a whole number of scales a fee is exact; one unit later it has just jumped. */
  lemma FeeAtScale(k: nat, bps: nat)
    ensures Fee(BPS * k, bps) == k * bps
    ensures Fee(BPS * k + 1, bps) == k * bps + Fee(1, bps)
    ensures Fee(1, bps) == bps / BPS + if bps % BPS == 0 then 0 else 1
  {
    FeeBounds(BPS * k, bps);
    FeeBounds(BPS * k + 1, bps);
    FeeBounds(1, bps);
    hide Fee;
    assert (BPS * k) * bps == BPS * (k * bps);
    assert (BPS * k + 1) * bps == BPS * (k * bps) + bps;
  }

  lemma AllFeesAtScale(fees: Fees, k: nat)
    requires fees.InRange()
    ensures AllFees(fees, BPS * k) == k * fees.Total()
    ensures AllFees(fees, BPS * k + 1) == k * fees.Total() + AllFees(fees, 1)
  {
    FeeAtScale(k, fees.lp);
    FeeAtScale(k, fees.protocol);
    FeeAtScale(k, fees.creator);
    hide Fee;
    Distributes(k, fees.lp, fees.protocol, fees.creator);
  }

  lemma Distributes(k: int, a: int, b: int, c: int)
    ensures k * (a + b + c) == k * a + k * b + k * c
  {
  }

  /** The parts of the rates beyond whole multiples of the amount, and those multiples. */
  function Residues(fees: Fees): nat {
    fees.lp % BPS + fees.protocol % BPS + fees.creator % BPS
  }

  function Wholes(fees: Fees): int {
    fees.lp / BPS + fees.protocol / BPS + fees.creator / BPS
  }

  lemma FeesOnOne(fees: Fees)
    requires fees.InRange()
    ensures fees.Total() == BPS * Wholes(fees) + Residues(fees) && 0 <= Wholes(fees)
    ensures !OneNeverRounds(fees) ==> AllFees(fees, 1) == Wholes(fees) + 3
    ensures fees.Total() < BPS && !AtMostOne(fees) ==> 2 <= AllFees(fees, 1) <= 3
  {
    FeeAtScale(0, fees.lp);
    FeeAtScale(0, fees.protocol);
    FeeAtScale(0, fees.creator);
    hide Fee;
  }

  const DEEP: int := 1000000000000

  lemma DeepPool()
    ensures Out(DEEP, DEEP, 20001) == 20000 && Out(DEEP, DEEP, 20002) == 20001
  {
  }

  function DeepPoolOf(fees: Fees): Pool {
    Pool(DEEP, DEEP, 0, fees)
  }

  // ----- selling -----

  /** What the fees leave of a sale. */
  function Left(fees: Fees, n: nat): int
    requires fees.InRange()
  {
    n - AllFees(fees, n)
  }

  lemma LeftBounds(fees: Fees, n: nat)
    requires fees.InRange()
    ensures n * (BPS - fees.Total()) - 3 * (BPS - 1) <= BPS * Left(fees, n) <= n * (BPS - fees.Total())
    ensures AtMostOne(fees) ==> n * (BPS - fees.Total()) - (BPS - 1) <= BPS * Left(fees, n)
  {
    AllFeesBounds(fees, n);
    AllFeesTighter(fees, n);
    hide AllFees, AtMostOne;
    assert n * (BPS - fees.Total()) == n * BPS - n * fees.Total();
  }

  lemma LeftNearlyMonotone(fees: Fees, less: nat, more: nat)
    requires fees.InRange() && less <= more
    ensures fees.Total() < BPS ==> Left(fees, less) <= Left(fees, more) + 2
    ensures fees.Total() < BPS && AtMostOne(fees) ==> Left(fees, less) <= Left(fees, more)
    ensures fees.Total() >= BPS ==> Left(fees, less) <= 0
  {
    LeftBounds(fees, less);
    LeftBounds(fees, more);
    hide Left, AtMostOne;
    if fees.Total() < BPS {
      MulMono(less, more, BPS - fees.Total());
    } else {
      MulMono(0, less, fees.Total() - BPS);
    }
  }

  /** A sell succeeds exactly when its fees leave something and the real vault covers what
      leaves it, virtual reserves notwithstanding; it never lowers the product of the
      reserves. */
  lemma SellBaseIsCovered(p: Pool, base: int, slippageBps: int)
    requires Reserve(p, base, slippageBps).Ok?
    ensures
      var gross := Out(p.base, p.quote + p.virtualQuote, base);
      && (SellBase(p, base, slippageBps).Ok? <==> 0 <= Left(p.fees, gross) && gross - Fee(gross, p.fees.lp) <= p.quote)
      && (p.base + base) * (p.quote + p.virtualQuote - gross) >= p.base * (p.quote + p.virtualQuote)
    ensures SellBase(p, base, slippageBps).Ok? ==>
      var r := SellBase(p, base, slippageBps).value;
      && r.uiQuote + Fee(r.internal, p.fees.protocol) + Fee(r.internal, p.fees.creator) <= p.quote
      && r.minQuote <= r.uiQuote
  {
    hide Out, Fee, KeptShare;
    var gross := Out(p.base, p.quote + p.virtualQuote, base);
    OutConserves(p.base, p.quote + p.virtualQuote, base);
    if SellBase(p, base, slippageBps).Ok? {
      LeastMeaning(SellBase(p, base, slippageBps).value.uiQuote, Min(slippageBps, MAX_SLIPPAGE));
    }
  }

  /** Selling the base quoted for an amount returns at most two units less of it, and nothing
      less when at most one fee is charged. */
  lemma SellBaseOfSellQuote(p: Pool, quote: int, slippageBps: int)
    requires SellQuote(p, quote, slippageBps).Ok?
    requires SellBase(p, SellQuote(p, quote, slippageBps).value.base, slippageBps).Ok?
    ensures
      var returned := SellBase(p, SellQuote(p, quote, slippageBps).value.base, slippageBps).value.uiQuote;
      returned >= quote - 2 && (AtMostOne(p.fees) ==> returned >= quote)
  {
    hide AllFees, Out, In, CheckedFees, Ceil, AtMostOne;
    var asked := SellQuote(p, quote, slippageBps).value;
    var sold := SellBase(p, asked.base, slippageBps).value;
    var t := p.fees.Total();
    CeilLe(quote * BPS, BPS - t, asked.internal);
    InIsAdjoint(p.base, p.quote + p.virtualQuote, asked.internal, asked.base);
    LeftBounds(p.fees, sold.internal);
    MulMono(asked.internal, sold.internal, BPS - t);
  }

  /** The two units are reached. */
  lemma SellReturnsTwoLess()
    ensures
      var p := Pool(847734, 80134, 0, Fees(5, 5, 1));
      && SellQuote(p, 14166, 0).Ok? && SellBase(p, SellQuote(p, 14166, 0).value.base, 0).Ok?
      && SellBase(p, SellQuote(p, 14166, 0).value.base, 0).value.uiQuote == 14164
  {
    assert Fee(14182, 5) == 8 && Fee(14182, 1) == 2 && In(847734, 80134, 14182) == 182293;
    assert Ceil(14166 * BPS, BPS - 11) == 14182 && Out(847734, 80134, 182293) == 14182;
    hide Fee, In, Out, Ceil;
  }

  /** Selling the base quoted for an amount never returns less than the amount with these
      fees, whatever the pool. */
  ghost predicate NeverReturnsShort(fees: Fees) {
    forall p: Pool, quote: int, slippageBps: int ::
      && p.fees == fees && SellQuote(p, quote, slippageBps).Ok?
      && SellBase(p, SellQuote(p, quote, slippageBps).value.base, slippageBps).Ok?
      ==> quote <= SellBase(p, SellQuote(p, quote, slippageBps).value.base, slippageBps).value.uiQuote
  }

  /** A pool whose only unit of base sells for one more than two whole scales. */
  function ThinPool(fees: Fees): Pool {
    Pool(1, 40002, 0, fees)
  }

  lemma ThinPoolSells(fees: Fees)
    requires fees.InRange() && fees.Total() < BPS
    ensures In(1, 40002, 20000) == 1 && Out(1, 40002, 1) == 20001
    ensures Ceil(2 * (BPS - fees.Total()) * BPS, BPS - fees.Total()) == 20000
  {
    CeilLe(2 * (BPS - fees.Total()) * BPS, BPS - fees.Total(), 20000);
    CeilLe(2 * (BPS - fees.Total()) * BPS, BPS - fees.Total(), 19999);
  }

  /** With two fees, the unit beyond the amount asked for costs more than it brings. */
  lemma ReturnsShort(fees: Fees)
    requires fees.InRange() && fees.Total() < BPS && !AtMostOne(fees)
    ensures
      var quote := 2 * (BPS - fees.Total());
      var asked := SellQuote(ThinPool(fees), quote, 0);
      && asked.Ok? && SellBase(ThinPool(fees), asked.value.base, 0).Ok?
      && SellBase(ThinPool(fees), asked.value.base, 0).value.uiQuote < quote
  {
    hide AllFees, Fee, Out, In, CheckedFees, Ceil, AtMostOne;
    ThinPoolSells(fees);
    AllFeesAtScale(fees, 2);
    FeesOnOne(fees);
    FeeBounds(20000, fees.lp);
    MulMono(fees.lp, BPS, 20000);
    assert CheckedFees(fees, 20001).Ok?;
    assert Fee(20001, fees.lp) >= 0;
  }

  /** Selling back is never short exactly when at most one fee is charged, or the fees leave
      nothing and no amount is quoted. */
  lemma SellBackExactly(fees: Fees)
    requires fees.InRange()
    ensures NeverReturnsShort(fees) <==> AtMostOne(fees) || fees.Total() >= BPS
  {
    if AtMostOne(fees) || fees.Total() >= BPS {
      forall p: Pool, quote: int, slippageBps: int
        | && p.fees == fees && SellQuote(p, quote, slippageBps).Ok?
          && SellBase(p, SellQuote(p, quote, slippageBps).value.base, slippageBps).Ok?
        ensures quote <= SellBase(p, SellQuote(p, quote, slippageBps).value.base, slippageBps).value.uiQuote
      {
        assert fees.Total() < BPS;
        hide SellQuote, SellBase;
        SellBaseOfSellQuote(p, quote, slippageBps);
      }
    } else {
      hide SellQuote, SellBase;
      ReturnsShort(fees);
    }
  }

  /** Selling more base never returns less quote with these fees, whatever the pool. */
  ghost predicate NeverSellsWorse(fees: Fees) {
    forall p: Pool, less: int, more: int, slippageBps: int ::
      p.fees == fees && less <= more && SellBase(p, less, slippageBps).Ok? && SellBase(p, more, slippageBps).Ok?
      ==> SellBase(p, less, slippageBps).value.uiQuote <= SellBase(p, more, slippageBps).value.uiQuote
  }

  /** Selling more returns at most two units less, and nothing less when at most one fee
      is charged or the fees take everything. */
  lemma SellBaseMonotone(p: Pool, less: int, more: int, slippageBps: int)
    requires less <= more && SellBase(p, less, slippageBps).Ok? && SellBase(p, more, slippageBps).Ok?
    ensures SellBase(p, less, slippageBps).value.uiQuote <= SellBase(p, more, slippageBps).value.uiQuote + 2
    ensures AtMostOne(p.fees) || p.fees.Total() >= BPS ==>
      SellBase(p, less, slippageBps).value.uiQuote <= SellBase(p, more, slippageBps).value.uiQuote
  {
    hide Out, AllFees, CheckedFees, AtMostOne;
    OutMonotone(p.base, p.quote + p.virtualQuote, less, more);
    var a, b := SellBase(p, less, slippageBps).value, SellBase(p, more, slippageBps).value;
    LeftNearlyMonotone(p.fees, a.internal, b.internal);
  }

  /** With two fees that leave something, one more unit sold can return less. */
  lemma SellBaseDrops(fees: Fees)
    requires fees.InRange() && fees.Total() < BPS && !AtMostOne(fees)
    ensures SellBase(DeepPoolOf(fees), 20001, 0).Ok? && SellBase(DeepPoolOf(fees), 20002, 0).Ok?
    ensures SellBase(DeepPoolOf(fees), 20002, 0).value.uiQuote < SellBase(DeepPoolOf(fees), 20001, 0).value.uiQuote
  {
    hide AllFees, Out, CheckedFees;
    AllFeesAtScale(fees, 2);
    FeesOnOne(fees);
    DeepPool();
    assert CheckedFees(fees, 20000).Ok? && CheckedFees(fees, 20001).Ok?;
  }

  /** Selling is monotone over every pool exactly when at most one fee is charged or the
      fees leave nothing. */
  lemma SellBaseMonotoneExactly(fees: Fees)
    requires fees.InRange()
    ensures NeverSellsWorse(fees) <==> AtMostOne(fees) || fees.Total() >= BPS
  {
    hide SellBase;
    if AtMostOne(fees) || fees.Total() >= BPS {
      forall p: Pool, less: int, more: int, slippageBps: int
        | p.fees == fees && less <= more && SellBase(p, less, slippageBps).Ok? && SellBase(p, more, slippageBps).Ok?
        ensures SellBase(p, less, slippageBps).value.uiQuote <= SellBase(p, more, slippageBps).value.uiQuote
      {
        SellBaseMonotone(p, less, more, slippageBps);
      }
    } else {
      SellBaseDrops(fees);
    }
  }
}
