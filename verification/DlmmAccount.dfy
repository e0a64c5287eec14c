/** What a DLMM quote sells and charges, from the bins' and the pool's own fields: which token
    a bin pays out, what a whole quote can pay at most, what it pays when input is left over,
    and the fee rate of every bin. */
module DlmmAccount {
  import opened Results
  import opened Rounding
  import opened TradeFee
  import opened Dlmm
  import opened DlmmWalk

  // ----- one bin -----

  /** What a bin holds for a trade: token Y when token X is sold into it, and its orders if
      they count and sell that token. */
  function Holdings(b: Bin, swapForY: bool, supportOrders: bool): nat {
    if swapForY then b.amountY + (if supportOrders && b.askSide == 0 then b.processedOrder + b.openOrder else 0)
    else b.amountX + (if supportOrders && b.askSide != 0 then b.processedOrder + b.openOrder else 0)
  }

  lemma TiersAreHoldings(b: Bin, flags: Flags)
    ensures Sum(Tiers(b, flags)) == Holdings(b, flags.swapForY, flags.supportOrders)
    ensures AllZero(Tiers(b, flags)) <==> Holdings(b, flags.swapForY, flags.supportOrders) == 0
  {
    var tiers := Tiers(b, flags);
    SumOfThree(tiers[0], tiers[1], tiers[2]);
    assert tiers == [tiers[0], tiers[1], tiers[2]];
    assert tiers[0] in tiers && tiers[1] in tiers && tiers[2] in tiers;
    assert forall t :: t in tiers ==> t == tiers[0] || t == tiers[1] || t == tiers[2];
    hide Sum;
  }

  lemma SumOfThree(a: nat, b: nat, c: nat)
    ensures Sum([a, b, c]) == a + b + c
  {
    assert [a, b, c][1..] == [b, c] && [b, c][1..] == [c] && [c][1..] == [];
    assert Sum([b, c]) == b + Sum([c]) && Sum([c]) == c + Sum([]);
  }

  /** A bin sells its own token first, then its processed and then its open orders. */
  lemma TierOrder(b: Bin, flags: Flags)
    ensures
      var sells := flags.supportOrders && (flags.swapForY <==> b.askSide == 0);
      Tiers(b, flags) == [if flags.swapForY then b.amountY else b.amountX,
                          if sells then b.processedOrder else 0, if sells then b.openOrder else 0]
  {
  }

  /** Tiers are filled one after the other: the first is bought in full for the least amount
      that pays for it exactly when the input does, and takes all the input otherwise, for the
      most that it pays for. */
  lemma FillFirst(left: Pos, tiers: seq<nat>, numerator: Pos, denominator: Pos) returns (cost: nat)
    requires tiers != []
    ensures (cost - 1) * denominator < tiers[0] * numerator <= cost * denominator
    ensures
      var f := FillTiers(left, tiers, numerator, denominator);
      if tiers[0] * numerator <= left * denominator then
        && cost <= left
        && var rest := FillTiers(left - cost, tiers[1..], numerator, denominator);
        f == Filled(rest.left, cost + rest.used, tiers[0] + rest.out)
      else f.left == 0 && f.used == left && f.out * numerator <= left * denominator < (f.out + 1) * numerator
  {
    cost := TierCost(tiers[0], numerator, denominator);
    TierCostLe(tiers[0], numerator, denominator, left);
    CeilBounds(tiers[0] * numerator, denominator);
    BuysGe(left, numerator, denominator, Buys(left, numerator, denominator));
    BuysGe(left, numerator, denominator, Buys(left, numerator, denominator) + 1);
    NothingFills(tiers[1..], numerator, denominator);
    NothingCostsNothing(numerator, denominator);
    hide TierCost, Buys;
    assert tiers[0] == 0 ==> tiers[0] * numerator == 0 <= left * denominator by {
      MulMono(0, left, denominator);
    }
  }

  /** What a visit charges: with the fee on the input a bin is offered the most whose fee fits,
      and is paid the least that covers what it used and its fee; with the fee on the output
      it is offered and paid the plain amounts, and the trader receives what the fee leaves. */
  lemma VisitCharges(cfg: Config, b: PricedBin, s: State)
    ensures
      var rate, f := FeeRate(cfg, s.current), FillBin(cfg, b, s);
      var offer := f.used + f.left;
      && (if cfg.feeInput then offer * PRECISION <= s.remaining * (PRECISION - rate) < (offer + 1) * PRECISION
          else offer == s.remaining)
      && match VisitBin(cfg, b, s)
         case Continue(s') =>
           var spent, received := s.remaining - s'.remaining, s'.total - s.total;
           if cfg.feeInput then
             received == f.out && (spent - 1) * (PRECISION - rate) < f.used * PRECISION <= spent * (PRECISION - rate)
           else
             spent == f.used && received * PRECISION <= f.out * (PRECISION - rate) < (received + 1) * PRECISION
         case Done(Quoted(q)) =>
           var received := q.amountOut - s.total;
           if cfg.feeInput then received == f.out
           else received * PRECISION <= f.out * (PRECISION - rate) < (received + 1) * PRECISION
         case Done(outcome) => outcome.Refused?
  {
    hide FillBin, FillTiers, VisitBin, Tiers, FeeRate, BeforeRate, AfterRate;
    VisitMeaning(cfg, b, s);
    var rate, f := FeeRate(cfg, s.current), FillBin(cfg, b, s);
    var offer, received := AfterRate(s.remaining, rate, PRECISION), AfterRate(f.out, rate, PRECISION);
    AfterRateGe(s.remaining, rate, PRECISION, offer);
    AfterRateGe(s.remaining, rate, PRECISION, offer + 1);
    AfterRateGe(f.out, rate, PRECISION, received);
    AfterRateGe(f.out, rate, PRECISION, received + 1);
    BeforeRateLe(f.used, rate, PRECISION, BeforeRate(f.used, rate, PRECISION));
    BeforeRateLe(f.used, rate, PRECISION, BeforeRate(f.used, rate, PRECISION) - 1);
  }

  /** A bin pays at most its holdings, at its own price or worse, and exactly its holdings
      when the walk goes on. */
  lemma VisitPaysHoldings(cfg: Config, b: PricedBin, s: State)
    ensures
      var f, held := FillBin(cfg, b, s), Holdings(b, cfg.flags.swapForY, cfg.flags.supportOrders);
      && f.out <= held
      && (if cfg.flags.swapForY then f.out * Q64 <= f.used * b.price else f.out * b.price <= f.used * Q64)
      && match VisitBin(cfg, b, s)
         case Continue(s') => f.out == held && s'.total == s.total + Received(cfg, s.current, held) && s'.crossed == s.crossed + 1
         case Done(Quoted(q)) => q.amountOut == s.total + Received(cfg, s.current, f.out) && q.remainingIn == 0
         case Done(outcome) => outcome.Refused?
  {
    hide FillBin, VisitBin, Tiers, Sum, Received, TotalCost;
    TiersAreHoldings(b, cfg.flags);
    VisitMeaning(cfg, b, s);
    VisitConserves(cfg, b, s);
  }

  // ----- the bins ahead -----

  predicate IsAhead(swapForY: bool, current: int, id: int) {
    if swapForY then id <= current else current <= id
  }

  function HeldBy(cfg: Config, b: Bin): nat {
    Holdings(b, cfg.flags.swapForY, cfg.flags.supportOrders)
  }

  /** What the trader receives if every bin from `current` on is sold out. */
  function SoldOut(cfg: Config, bins: seq<Bin>, current: int): nat {
    if bins == [] then 0
    else
      var b := bins[0];
      (if b.price != 0 && IsAhead(cfg.flags.swapForY, current, b.binId) then Received(cfg, b.binId, HeldBy(cfg, b)) else 0)
      + SoldOut(cfg, bins[1..], current)
  }

  /** How many of them hold something. */
  function LiveAhead(cfg: Config, bins: seq<Bin>, current: int): nat {
    if bins == [] then 0
    else
      var b := bins[0];
      (if b.price != 0 && IsAhead(cfg.flags.swapForY, current, b.binId) && HeldBy(cfg, b) != 0 then 1 else 0)
      + LiveAhead(cfg, bins[1..], current)
  }

  lemma NothingReceived(cfg: Config, id: int)
    ensures Received(cfg, id, 0) == 0
  {
    hide FeeRate;
    AfterRateMonotone(0, 0, FeeRate(cfg, id), PRECISION);
    hide AfterRate;
  }

  /** Passing over bins that hold nothing changes neither. */
  lemma {:induction false} SkipKeeps(cfg: Config, bins: seq<Bin>, from: int, to: int)
    requires if cfg.flags.swapForY then to <= from else from <= to
    requires forall i :: 0 <= i < |bins| && bins[i].price != 0 && OnTheWay(cfg, from, to, bins[i].binId) ==> HeldBy(cfg, bins[i]) == 0
    ensures SoldOut(cfg, bins, from) == SoldOut(cfg, bins, to) && LiveAhead(cfg, bins, from) == LiveAhead(cfg, bins, to)
  {
    hide Received, HeldBy;
    if bins != [] {
      assert forall i :: 0 <= i < |bins[1..]| ==> bins[1..][i] == bins[i + 1];
      SkipKeeps(cfg, bins[1..], from, to);
      NothingReceived(cfg, bins[0].binId);
    }
  }

  /** Leaving bin `k` behind, with the others elsewhere. */
  lemma {:induction false} StepTakes(cfg: Config, bins: seq<Bin>, k: nat)
    requires k < |bins| && bins[k].price != 0 && HeldBy(cfg, bins[k]) != 0
    requires forall i, j :: 0 <= i < j < |bins| ==> bins[i].binId != bins[j].binId
    ensures
      var c := bins[k].binId;
      && SoldOut(cfg, bins, c) == Received(cfg, c, HeldBy(cfg, bins[k])) + SoldOut(cfg, bins, c + Direction(cfg))
      && LiveAhead(cfg, bins, c) == 1 + LiveAhead(cfg, bins, c + Direction(cfg))
  {
    hide Received, HeldBy;
    var c := bins[k].binId;
    assert forall i :: 0 <= i < |bins[1..]| ==> bins[1..][i] == bins[i + 1];
    if k == 0 {
      SkipKeeps(cfg, bins[1..], c, c + Direction(cfg));
    } else {
      StepTakes(cfg, bins[1..], k - 1);
    }
  }

  lemma {:induction false} NoneAhead(cfg: Config, bins: seq<Bin>, current: int)
    requires forall i :: 0 <= i < |bins| ==> !IsAhead(cfg.flags.swapForY, current, bins[i].binId)
    ensures SoldOut(cfg, bins, current) == 0 && LiveAhead(cfg, bins, current) == 0
  {
    hide Received, HeldBy;
    if bins != [] {
      assert forall i :: 0 <= i < |bins[1..]| ==> bins[1..][i] == bins[i + 1];
      NoneAhead(cfg, bins[1..], current);
    }
  }

  // ----- the setup -----

  lemma {:induction false} LeastMeaning(xs: seq<int>)
    requires xs != []
    ensures Least(xs) in xs && Greatest(xs) in xs && forall x :: x in xs ==> Least(xs) <= x <= Greatest(xs)
  {
    if |xs| > 1 {
      LeastMeaning(xs[1..]);
      assert forall x :: x in xs ==> x == xs[0] || x in xs[1..];
    }
  }

  /** The configuration's bins and arrays are the supplied ones. */
  ghost predicate Supplied(cfg: Config, bins: seq<Bin>) {
    && cfg.bins == BinsById(bins)
    && (forall i, j :: 0 <= i < j < |bins| ==> bins[i].binId != bins[j].binId)
    && (forall i :: 0 <= i < |bins| ==>
          ArrayOf(bins[i].binId) in cfg.loaded && InBinRange(bins[i].binId) && cfg.low <= bins[i].binId <= cfg.high)
  }

  lemma PreparedSupplied(
      pool: Pool, bins: seq<Bin>, arrays: seq<int>, amount: int, timestamp: int, flags: Flags)
    requires Prepare(pool, bins, arrays, amount, timestamp, flags).Ok?
    ensures
      var (cfg, s) := Prepare(pool, bins, arrays, amount, timestamp, flags).value;
      && Supplied(cfg, bins) && cfg.flags == flags && s == State(pool.activeId, amount, 0, 0)
      && InBinRange(pool.activeId)
      && (forall a :: a in cfg.loaded <==> a in arrays)
      && (arrays == [] ==> cfg.low == 0 && cfg.high == -1)
      && (arrays != [] ==> cfg.low == BINS_PER_ARRAY * Least(arrays) && cfg.high == BINS_PER_ARRAY * Greatest(arrays) + BINS_PER_ARRAY - 1)
  {
    hide LiveIds, BinsById, BaseRate, ValidArrays, Least, Greatest;
    if arrays != [] {
      LeastMeaning(arrays);
    }
    var cfg := Prepare(pool, bins, arrays, amount, timestamp, flags).value.0;
    forall i | 0 <= i < |bins|
      ensures ArrayOf(bins[i].binId) in cfg.loaded && InBinRange(bins[i].binId) && cfg.low <= bins[i].binId <= cfg.high
    {
      assert ValidBin(bins[i], arrays);
      ArrayHolds(bins[i].binId);
    }
  }

  lemma ArrayHolds(id: int)
    ensures ArrayOf(id) * BINS_PER_ARRAY <= id <= ArrayOf(id) * BINS_PER_ARRAY + BINS_PER_ARRAY - 1
  {
  }

  /** A supplied bin that is not live holds nothing. */
  lemma NotLiveHoldsNothing(cfg: Config, bins: seq<Bin>, i: nat)
    requires Supplied(cfg, bins) && i < |bins| && bins[i].price != 0
    ensures Live(cfg, bins[i].binId) <==> HeldBy(cfg, bins[i]) != 0
    ensures bins[i].binId in cfg.bins && cfg.bins[bins[i].binId] == bins[i]
  {
    BinsByIdMeaning(bins, bins[i].binId);
    TiersAreHoldings(bins[i], cfg.flags);
    hide Tiers, AllZero, BinsById;
  }

  /** Every live bin is one of those supplied. */
  lemma LiveIsSupplied(cfg: Config, bins: seq<Bin>, id: int) returns (k: nat)
    requires Supplied(cfg, bins) && Live(cfg, id)
    ensures k < |bins| && bins[k].binId == id && bins[k].price != 0 && HeldBy(cfg, bins[k]) != 0
    ensures id in cfg.bins && cfg.bins[id] == bins[k]
  {
    BinsByIdMeaning(bins, id);
    LiveInBins(cfg, id);
    var i :| 0 <= i < |bins| && bins[i].binId == id && bins[i].price != 0;
    k := i;
    NotLiveHoldsNothing(cfg, bins, k);
  }

  /** Between here and there no supplied bin holds anything. */
  lemma PassedHoldNothing(cfg: Config, bins: seq<Bin>, from: int, to: int)
    requires Supplied(cfg, bins) && if cfg.flags.swapForY then to <= from else from <= to
    requires forall c :: OnTheWay(cfg, from, to, c) ==> ArrayOf(c) !in cfg.loaded || !Live(cfg, c)
    ensures SoldOut(cfg, bins, from) == SoldOut(cfg, bins, to) && LiveAhead(cfg, bins, from) == LiveAhead(cfg, bins, to)
  {
    hide Live, HeldBy, BinsById;
    forall i | 0 <= i < |bins| && bins[i].price != 0 && OnTheWay(cfg, from, to, bins[i].binId)
      ensures HeldBy(cfg, bins[i]) == 0
    {
      NotLiveHoldsNothing(cfg, bins, i);
    }
    SkipKeeps(cfg, bins, from, to);
  }

  // ----- whole walks -----

  /** The walk has not started beyond the arrays it would have to reach. */
  predicate Entered(cfg: Config, current: int) {
    && (if cfg.flags.swapForY then current <= MAX_BIN else -MAX_BIN <= current)
    && (cfg.flags.exhaustive ==> if cfg.flags.swapForY then current <= cfg.high else cfg.low <= current)
  }

  /** A walk pays at most what selling out every bin ahead would, and exactly that when it
      completes with input left over. */
  lemma {:induction false} WalkSells(cfg: Config, bins: seq<Bin>, s: State)
    requires Indexed(cfg) && Supplied(cfg, bins) && !Walk(cfg, s, true).Refused?
    ensures
      var q := QuoteOf(Walk(cfg, s, true));
      && q.amountOut <= s.total + SoldOut(cfg, bins, s.current)
      && (Entered(cfg, s.current) && q.complete && 0 < q.remainingIn ==>
            && q.amountOut == s.total + SoldOut(cfg, bins, s.current)
            && q.binsCrossed == s.crossed + LiveAhead(cfg, bins, s.current) + 1)
    decreases Distance(cfg, s.current)
  {
    hide Indexed, AdvanceEmpty, ArrayEdge, VisitBin, Live, FillBin, SoldOut, LiveAhead, Received, Holdings, BinsById;
    AdvanceReduces(cfg, s.current);
    if s.remaining == 0 || !InBinRange(s.current) {
      if Entered(cfg, s.current) && s.remaining != 0 {
        NoneAhead(cfg, bins, s.current);
      }
    } else if ArrayOf(s.current) !in cfg.loaded {
      if cfg.flags.exhaustive && cfg.low <= s.current <= cfg.high {
        var to := ArrayEdge(cfg, s.current);
        UnloadedPasses(cfg, s.current);
        UnloadedStays(cfg, s.current);
        PassedHoldNothing(cfg, bins, s.current, to);
        WalkSells(cfg, bins, s.(current := to));
      } else if Entered(cfg, s.current) && cfg.flags.exhaustive {
        NoneAhead(cfg, bins, s.current);
      }
    } else if !Live(cfg, s.current) {
      var to := AdvanceEmpty(cfg, s.current);
      EmptyPasses(cfg, s.current);
      PassedHoldNothing(cfg, bins, s.current, to);
      WalkSells(cfg, bins, s.(current := to));
    } else {
      var k := LiveIsSupplied(cfg, bins, s.current);
      StepTakes(cfg, bins, k);
      var b := cfg.bins[s.current];
      VisitPaysHoldings(cfg, b, s);
      VisitMoves(cfg, b, s);
      if VisitBin(cfg, b, s).Continue? {
        WalkSells(cfg, bins, VisitBin(cfg, b, s).state);
      } else {
        ReceivedMonotone(cfg, s.current, FillBin(cfg, b, s).out, HeldBy(cfg, b));
      }
    }
  }

  lemma UnloadedStays(cfg: Config, current: int)
    requires ArrayOf(current) !in cfg.loaded
    ensures forall c :: OnTheWay(cfg, current, ArrayEdge(cfg, current), c) ==> ArrayOf(c) !in cfg.loaded
  {
    forall c | OnTheWay(cfg, current, ArrayEdge(cfg, current), c)
      ensures ArrayOf(c) !in cfg.loaded
    {
      assert ArrayOf(c) == ArrayOf(current);
    }
  }

  /** Every array lies beyond the active bin's, in the direction of the walk. */
  predicate StartsOutside(arrays: seq<int>, activeId: int, swapForY: bool) {
    forall a :: a in arrays ==> if swapForY then a < ArrayOf(activeId) else ArrayOf(activeId) < a
  }

  lemma StartsOutsideMeaning(cfg: Config, arrays: seq<int>, activeId: int)
    requires arrays == [] ==> cfg.low == 0 && cfg.high == -1
    requires arrays != [] ==> cfg.low == BINS_PER_ARRAY * Least(arrays) && cfg.high == BINS_PER_ARRAY * Greatest(arrays) + BINS_PER_ARRAY - 1
    requires InBinRange(activeId) && cfg.flags.exhaustive
    ensures arrays != [] ==> (StartsOutside(arrays, activeId, cfg.flags.swapForY) <==> !Entered(cfg, activeId))
  {
    hide Least, Greatest;
    if arrays != [] {
      LeastMeaning(arrays);
      ArrayHolds(activeId);
      assert StartsOutside(arrays, activeId, true) <==> Greatest(arrays) < ArrayOf(activeId);
      assert StartsOutside(arrays, activeId, false) <==> ArrayOf(activeId) < Least(arrays);
    }
  }

  /** No quote pays more than selling out every supplied bin from the active one on, in the
      direction of the trade, and fewer still with the fee on the output. One that completes
      with input left over pays exactly that; but an exhaustive quote whose active bin lies
      before all the arrays gives up at once and pays nothing. */
  lemma SwapSells(pool: Pool, bins: seq<Bin>, arrays: seq<int>, amount: int, timestamp: int, flags: Flags)
    requires Prepare(pool, bins, arrays, amount, timestamp, flags).Ok?
    requires !Swap(pool, bins, arrays, amount, timestamp, flags).Refused?
    ensures
      var cfg := Prepare(pool, bins, arrays, amount, timestamp, flags).value.0;
      var q := QuoteOf(Swap(pool, bins, arrays, amount, timestamp, flags));
      && 0 <= q.amountOut <= SoldOut(cfg, bins, pool.activeId)
      && (q.complete && 0 < q.remainingIn ==>
            if flags.exhaustive && StartsOutside(arrays, pool.activeId, flags.swapForY)
            then q.amountOut == 0 && q.binsCrossed == 1 && q.remainingIn == amount
            else q.amountOut == SoldOut(cfg, bins, pool.activeId) && q.binsCrossed == LiveAhead(cfg, bins, pool.activeId) + 1)
  {
    hide Prepare, Walk, Indexed, Least, Greatest, SoldOut, LiveAhead, StartsOutside;
    PreparedIndexed(pool, bins, arrays, amount, timestamp, flags);
    PreparedSupplied(pool, bins, arrays, amount, timestamp, flags);
    var (cfg, s) := Prepare(pool, bins, arrays, amount, timestamp, flags).value;
    WalkConserves(cfg, s);
    WalkSells(cfg, bins, s);
    if flags.exhaustive && 0 < s.remaining {
      StartsOutsideMeaning(cfg, arrays, pool.activeId);
      if arrays == [] || StartsOutside(arrays, pool.activeId, flags.swapForY) {
        assert ArrayOf(pool.activeId) !in cfg.loaded by {
          OutsideIsUnloaded(arrays, pool.activeId, flags.swapForY);
        }
        EndsAtOnce(cfg, s);
      }
    }
    if arrays == [] {
      assert StartsOutside(arrays, pool.activeId, flags.swapForY) by {
        EmptyIsOutside(pool.activeId, flags.swapForY);
      }
    }
  }

  lemma EmptyIsOutside(activeId: int, swapForY: bool)
    ensures StartsOutside([], activeId, swapForY)
  {
  }

  lemma OutsideIsUnloaded(arrays: seq<int>, activeId: int, swapForY: bool)
    requires arrays == [] || StartsOutside(arrays, activeId, swapForY)
    ensures ArrayOf(activeId) !in arrays
  {
  }

  lemma EndsAtOnce(cfg: Config, s: State)
    requires Indexed(cfg) && 0 < s.remaining && InBinRange(s.current) && cfg.flags.exhaustive
    requires ArrayOf(s.current) !in cfg.loaded && (s.current < cfg.low || cfg.high < s.current)
    ensures Walk(cfg, s, true) == Quoted(Quote(s.total, s.remaining, s.crossed + 1, true, None))
  {
    hide Indexed;
  }

  /** How a walk reports a missing array: an exhaustive walk never does, a strict one refuses
      with the partial quote, and any other returns the quote as incomplete. */
  lemma {:induction false} WalkReports(cfg: Config, s: State)
    requires Indexed(cfg) && !Walk(cfg, s, true).Refused?
    ensures
      var outcome := Walk(cfg, s, true);
      && (outcome.Insufficient? <==> cfg.flags.strict && !QuoteOf(outcome).complete)
      && (cfg.flags.exhaustive ==> QuoteOf(outcome).complete)
    decreases Distance(cfg, s.current)
  {
    hide Indexed, AdvanceEmpty, ArrayEdge, VisitBin, Live, FillBin, Received, Holdings;
    AdvanceReduces(cfg, s.current);
    if s.remaining == 0 || !InBinRange(s.current) {
    } else if ArrayOf(s.current) !in cfg.loaded {
      if cfg.flags.exhaustive && cfg.low <= s.current <= cfg.high {
        WalkReports(cfg, s.(current := ArrayEdge(cfg, s.current)));
      }
    } else if !Live(cfg, s.current) {
      WalkReports(cfg, s.(current := AdvanceEmpty(cfg, s.current)));
    } else {
      LiveInBins(cfg, s.current);
      var b := cfg.bins[s.current];
      VisitMeaning(cfg, b, s);
      VisitMoves(cfg, b, s);
      if VisitBin(cfg, b, s).Continue? {
        WalkReports(cfg, VisitBin(cfg, b, s).state);
      }
    }
  }

  const FREE := Pool(0, 1, 0, StaticFee(0, 0, 0, 0, 0, 0, 0), VariableFee(0, 0, 0, 0))
  const FAR := [Bin(70, 1, 0, 1, 0, 0, 0)]
  const UPWARDS := Flags(false, false, false, true)

  lemma {:induction false} PowerOfTwo(width: Pos)
    ensures 2 <= Power(2, width)
  {
    if width > 1 {
      PowerOfTwo(width - 1);
    }
  }

  lemma OneFits(width: Pos)
    ensures Bits(0, width) && Bits(1, width) && SignedBits(0, width) && (1 < width ==> SignedBits(1, width))
  {
    PowerOfTwo(width);
    if 1 < width {
      PowerOfTwo(width - 1);
    }
  }

  lemma FreeIsValid()
    ensures ValidPool(FREE, 1, 0)
  {
    hide Power, Bits, SignedBits;
    OneFits(16);
    OneFits(32);
    OneFits(63);
    OneFits(64);
  }

  lemma FarIsValid()
    ensures ValidArrays([1]) && ValidBins(FAR, [1])
  {
    hide Power, Bits, SignedBits;
    OneFits(8);
    OneFits(64);
    OneFits(128);
    assert ValidBin(FAR[0], [1]);
  }

  /** It does happen: the only bin ahead, in the only array loaded, is left unsold. */
  lemma GivesUpHappens()
    ensures
      var start := Prepare(FREE, FAR, [1], 1, 0, UPWARDS);
      && start.Ok? && SoldOut(start.value.0, FAR, 0) == 1
      && Swap(FREE, FAR, [1], 1, 0, UPWARDS) == Quoted(Quote(0, 1, 1, true, None))
  {
    FreeIsValid();
    FarIsValid();
    hide ValidPool, ValidArrays, ValidBins, Walk, LiveIds, BinsById, BaseRate, Indexed;
    PreparedIndexed(FREE, FAR, [1], 1, 0, UPWARDS);
    PreparedSupplied(FREE, FAR, [1], 1, 0, UPWARDS);
    var (cfg, s) := Prepare(FREE, FAR, [1], 1, 0, UPWARDS).value;
    EndsAtOnce(cfg, s);
    assert FAR[1..] == [];
  }

  // ----- the fee rate -----

  /** The reference bin and volatility that a pool carries into a swap at `timestamp`: its own
      within the filter period, then the active bin with the reduced volatility, and from the
      decay period on with none. */
  predicate Carried(pool: Pool, timestamp: int, index: int, reference: int) {
    var f, v := pool.fixed, pool.variable;
    if timestamp < v.lastTimestamp + f.filterPeriod then index == v.indexReference && reference == v.reference
    else
      && index == pool.activeId
      && if timestamp < v.lastTimestamp + f.decayPeriod then
           reference * 10000 <= v.volatility * f.reductionFactor < (reference + 1) * 10000
         else reference == 0
  }

  /** `rate` is a bin's rate when its volatility is `volatility` before its maximum: the least
      one that covers the base rate and the variable part, and a tenth at most. */
  predicate RateOf(rate: int, baseRate: int, control: int, volatility: int, maximum: int, binStep: int) {
    var crossed := (if volatility < maximum then volatility else maximum) * binStep;
    && rate <= RATE_CAP
    && (rate < RATE_CAP ==> crossed * crossed * control <= (rate - baseRate) * 100000000000)
    && (baseRate < rate ==> (rate - 1 - baseRate) * 100000000000 < crossed * crossed * control)
    && (baseRate <= RATE_CAP ==> baseRate <= rate)
  }

  lemma FeeRateMeaning(cfg: Config, binId: int)
    ensures RateOf(FeeRate(cfg, binId), cfg.baseRate, cfg.control, cfg.reference + Abs(cfg.index - binId) * 10000,
                   cfg.maximumVolatility, cfg.binStep)
  {
    var volatility := Min(cfg.reference + Abs(cfg.index - binId) * 10000, cfg.maximumVolatility);
    var crossed := volatility * cfg.binStep;
    CeilBounds(crossed * crossed * cfg.control, 100000000000);
    VariableRateNonNegative(crossed, cfg.control);
    hide Ceil;
  }

  lemma TenTimes(power: nat)
    ensures 10 * Power(10, power) == Power(10, power + 1)
  {
  }

  /** The rate of every bin in a quote, from the pool's own fields, and the side it is taken
      on: the output only in fee mode 1 when token X is sold. */
  lemma QuoteRate(
      pool: Pool, bins: seq<Bin>, arrays: seq<int>, amount: int, timestamp: int, flags: Flags, binId: int)
    returns (index: int, reference: int)
    requires Prepare(pool, bins, arrays, amount, timestamp, flags).Ok?
    ensures
      var cfg := Prepare(pool, bins, arrays, amount, timestamp, flags).value.0;
      && 0 <= pool.fixed.power && Carried(pool, timestamp, index, reference)
      && RateOf(FeeRate(cfg, binId), pool.fixed.baseFactor * pool.binStep * Power(10, pool.fixed.power + 1), pool.fixed.control,
                reference + Abs(index - binId) * 10000, pool.fixed.maximumVolatility, pool.binStep)
      && (!cfg.feeInput <==> pool.feeMode == 1 && flags.swapForY)
  {
    hide LiveIds, BinsById, ValidArrays, ValidBins, Least, Greatest, FeeRate, RateOf, Power;
    var cfg := Prepare(pool, bins, arrays, amount, timestamp, flags).value.0;
    FeeRateMeaning(cfg, binId);
    FloorBounds(pool.variable.volatility * pool.fixed.reductionFactor, 10000);
    TenTimes(pool.fixed.power);
    assert pool.fixed.baseFactor * pool.binStep * 10 * Power(10, pool.fixed.power)
        == pool.fixed.baseFactor * pool.binStep * (10 * Power(10, pool.fixed.power));
    index, reference := cfg.index, cfg.reference;
  }
}
