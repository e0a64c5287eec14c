/** The DLMM walk that skips ahead is the walk that visits every bin; it conserves
    its input, and a larger input never buys less. */
module DlmmWalk {
  import opened Results
  import opened Rounding
  import opened Sorting
  import opened TradeFee
  import opened Dlmm

  // ----- skipping ahead changes nothing -----

  /** `c` lies on the way from `from` (inclusive) to `to` (exclusive). */
  predicate OnTheWay(cfg: Config, from: int, to: int, c: int) {
    if cfg.flags.swapForY then to < c <= from else from <= c < to
  }

  /** A bin the walk passes without trading: empty in a loaded array, or in an array
      that is not loaded between the outermost loaded ones of an exhaustive walk. */
  predicate Passes(cfg: Config, c: int) {
    if ArrayOf(c) in cfg.loaded then !Live(cfg, c)
    else cfg.flags.exhaustive && cfg.low <= c <= cfg.high
  }

  /** The bin-by-bin walk passes over such bins one by one. */
  lemma {:induction false} PlainPasses(cfg: Config, s: State, to: int)
    requires Indexed(cfg) && s.remaining != 0
    requires if cfg.flags.swapForY then to <= s.current <= MAX_BIN else -MAX_BIN <= s.current <= to
    requires forall c :: OnTheWay(cfg, s.current, to, c) ==> Passes(cfg, c)
    ensures Walk(cfg, s, false) == Walk(cfg, s.(current := to), false)
    decreases if cfg.flags.swapForY then s.current - to else to - s.current
  {
    hide Indexed, AdvanceEmpty, ArrayEdge, VisitBin, Live;
    if s.current != to && InBinRange(s.current) {
      assert Passes(cfg, s.current);
      var next := s.(current := s.current + Direction(cfg));
      assert Walk(cfg, s, false) == Walk(cfg, next, false);
      forall c | OnTheWay(cfg, next.current, to, c)
        ensures Passes(cfg, c)
      {
        assert OnTheWay(cfg, s.current, to, c);
      }
      PlainPasses(cfg, next, to);
    }
  }

  /** Up to the edge of an array that is not loaded, nothing trades. */
  lemma UnloadedPasses(cfg: Config, current: int)
    requires Indexed(cfg) && cfg.flags.exhaustive
    requires ArrayOf(current) !in cfg.loaded && cfg.low <= current <= cfg.high
    ensures if cfg.flags.swapForY then ArrayEdge(cfg, current) <= current else current <= ArrayEdge(cfg, current)
    ensures forall c :: OnTheWay(cfg, current, ArrayEdge(cfg, current), c) ==> Passes(cfg, c)
  {
    hide Live, NonDecreasing;
    forall c | OnTheWay(cfg, current, ArrayEdge(cfg, current), c)
      ensures Passes(cfg, c)
    {
      assert ArrayOf(c) == ArrayOf(current);
    }
  }

  /** Up to the bin the index skips to, nothing trades. */
  lemma EmptyPasses(cfg: Config, current: int)
    requires Indexed(cfg) && ArrayOf(current) in cfg.loaded && !Live(cfg, current)
    ensures if cfg.flags.swapForY then AdvanceEmpty(cfg, current) <= current else current <= AdvanceEmpty(cfg, current)
    ensures forall c :: OnTheWay(cfg, current, AdvanceEmpty(cfg, current), c) ==> Passes(cfg, c)
  {
    hide Live;
    AdvanceReduces(cfg, current);
    var to := AdvanceEmpty(cfg, current);
    forall c | OnTheWay(cfg, current, to, c)
      ensures Passes(cfg, c)
    {
      StaysInArray(cfg, current, c);
      if Live(cfg, c) {
        SkippedNotLive(cfg, current, c);
      }
    }
  }

  lemma StaysInArray(cfg: Config, current: int, c: int)
    requires Indexed(cfg) && OnTheWay(cfg, current, AdvanceEmpty(cfg, current), c)
    ensures ArrayOf(c) == ArrayOf(current)
  {
    hide Live, CountUpTo, NonDecreasing;
  }

  /** The index does not skip over a live bin of the same array. */
  lemma SkippedNotLive(cfg: Config, current: int, c: int)
    requires Indexed(cfg) && OnTheWay(cfg, current, AdvanceEmpty(cfg, current), c)
    requires ArrayOf(c) == ArrayOf(current) && Live(cfg, c)
    ensures c == current
  {
    hide Live;
    var k :| 0 <= k < |cfg.live| && cfg.live[k] == c;
    CountUpToSplits(cfg.live, Itself, if cfg.flags.swapForY then current - 1 else current);
    hide CountUpTo;
  }

  /** The skipping walk returns exactly what the bin-by-bin walk returns. */
  lemma {:induction false} FastIsPlain(cfg: Config, s: State)
    requires Indexed(cfg)
    ensures Walk(cfg, s, true) == Walk(cfg, s, false)
    decreases Distance(cfg, s.current)
  {
    hide Indexed, AdvanceEmpty, ArrayEdge, VisitBin, Live;
    AdvanceReduces(cfg, s.current);
    if s.remaining == 0 || !InBinRange(s.current) {
    } else if ArrayOf(s.current) !in cfg.loaded {
      if cfg.flags.exhaustive && cfg.low <= s.current <= cfg.high {
        var to := ArrayEdge(cfg, s.current);
        UnloadedPasses(cfg, s.current);
        FastIsPlain(cfg, s.(current := to));
        PlainPasses(cfg, s, to);
      }
    } else if !Live(cfg, s.current) {
      var to := AdvanceEmpty(cfg, s.current);
      EmptyPasses(cfg, s.current);
      FastIsPlain(cfg, s.(current := to));
      PlainPasses(cfg, s, to);
    } else {
      LiveInBins(cfg, s.current);
      var visit := VisitBin(cfg, cfg.bins[s.current], s);
      VisitMoves(cfg, cfg.bins[s.current], s);
      if visit.Continue? {
        FastIsPlain(cfg, visit.state);
      }
    }
  }

  /** The quote is the bin-by-bin walk's quote, in every mode: same output, remaining
      input, bins crossed, completeness and missing bin. */
  lemma SwapIsPlainWalk(pool: Pool, bins: seq<Bin>, arrays: seq<int>, amount: int, timestamp: int, flags: Flags)
    requires Prepare(pool, bins, arrays, amount, timestamp, flags).Ok?
    ensures Indexed(Prepare(pool, bins, arrays, amount, timestamp, flags).value.0)
    ensures
      var (cfg, start) := Prepare(pool, bins, arrays, amount, timestamp, flags).value;
      Swap(pool, bins, arrays, amount, timestamp, flags) == Walk(cfg, start, false)
  {
    hide Prepare, Walk, Indexed;
    PreparedIndexed(pool, bins, arrays, amount, timestamp, flags);
    var (cfg, start) := Prepare(pool, bins, arrays, amount, timestamp, flags).value;
    FastIsPlain(cfg, start);
  }

  // ----- one bin -----

  function Sum(tiers: seq<nat>): nat {
    if tiers == [] then 0 else tiers[0] + Sum(tiers[1..])
  }

  /** What all the tiers cost, each rounded up on its own. */
  function TotalCost(tiers: seq<nat>, numerator: Pos, denominator: Pos): nat {
    hide TierCost;
    if tiers == [] then 0 else TierCost(tiers[0], numerator, denominator) + TotalCost(tiers[1..], numerator, denominator)
  }

  lemma TierCostLe(amount: nat, numerator: Pos, denominator: Pos, k: nat)
    ensures TierCost(amount, numerator, denominator) <= k <==> amount * numerator <= k * denominator
  {
    CeilLe(amount * numerator, denominator, k);
  }

  lemma BuysGe(input: nat, numerator: Pos, denominator: Pos, k: nat)
    ensures k <= Buys(input, numerator, denominator) <==> k * numerator <= input * denominator
  {
    FloorGe(input * denominator, numerator, k);
  }

  /** An input short of a tier's cost buys no more than the tier. */
  lemma BuysBelowTier(input: nat, amount: nat, numerator: Pos, denominator: Pos)
    requires input < TierCost(amount, numerator, denominator)
    ensures Buys(input, numerator, denominator) <= amount
  {
    TierCostLe(amount, numerator, denominator, input);
    BuysGe(input, numerator, denominator, amount + 1);
    hide TierCost, Buys;
    if amount + 1 <= Buys(input, numerator, denominator) {
      MulMono(amount, amount + 1, numerator);
    }
  }

  lemma NothingCostsNothing(numerator: Pos, denominator: Pos)
    ensures TierCost(0, numerator, denominator) == 0
  {
    TierCostLe(0, numerator, denominator, 0);
  }

  /** `out` is worth no more than `used` at a price of `numerator / denominator`. */
  predicate Worth(out: nat, used: nat, numerator: Pos, denominator: Pos) {
    out * numerator <= used * denominator
  }

  lemma WorthAdds(out: nat, used: nat, out': nat, used': nat, numerator: Pos, denominator: Pos)
    requires Worth(out, used, numerator, denominator) && Worth(out', used', numerator, denominator)
    ensures Worth(out + out', used + used', numerator, denominator)
  {
  }

  lemma BoughtIsWorth(input: nat, amount: nat, numerator: Pos, denominator: Pos)
    ensures Worth(0, input, numerator, denominator)
    ensures Worth(Buys(input, numerator, denominator), input, numerator, denominator)
    ensures Worth(amount, TierCost(amount, numerator, denominator), numerator, denominator)
  {
    MulMono(0, input, denominator);
    BuysGe(input, numerator, denominator, Buys(input, numerator, denominator));
    TierCostLe(amount, numerator, denominator, TierCost(amount, numerator, denominator));
    hide TierCost, Buys;
  }

  /** A fill never pays out more than the tiers hold or the used input is worth, and
      input is left over only once every tier is bought in full at its own cost. */
  lemma {:induction false} FillMeaning(left: nat, tiers: seq<nat>, numerator: Pos, denominator: Pos)
    ensures
      var f := FillTiers(left, tiers, numerator, denominator);
      && f.used + f.left == left
      && f.out <= Sum(tiers)
      && Worth(f.out, f.used, numerator, denominator)
      && (f.left > 0 ==> f.out == Sum(tiers) && f.used == TotalCost(tiers, numerator, denominator))
  {
    hide TierCost, Buys, Worth;
    BoughtIsWorth(left, if tiers == [] then 0 else tiers[0], numerator, denominator);
    BoughtIsWorth(0, 0, numerator, denominator);
    if tiers != [] && left != 0 {
      NothingCostsNothing(numerator, denominator);
      var r := tiers[0];
      var needed := TierCost(r, numerator, denominator);
      var consumed := if r == 0 then 0 else if left >= needed then needed else left;
      var produced := if left >= needed then r else Buys(left, numerator, denominator);
      FillMeaning(left - consumed, tiers[1..], numerator, denominator);
      if r != 0 {
        if left < needed {
          BuysBelowTier(left, r, numerator, denominator);
        }
        var rest := FillTiers(left - consumed, tiers[1..], numerator, denominator);
        WorthAdds(produced, consumed, rest.out, rest.used, numerator, denominator);
      }
    }
  }

  lemma BuysMonotone(less: nat, more: nat, numerator: Pos, denominator: Pos)
    requires less <= more
    ensures Buys(less, numerator, denominator) <= Buys(more, numerator, denominator)
  {
    MulMono(less, more, denominator);
    FloorMono(less * denominator, more * denominator, numerator);
  }

  /** More input fills at least as much, and the same when less already fills everything. */
  lemma {:induction false} FillMonotone(less: nat, more: nat, tiers: seq<nat>, numerator: Pos, denominator: Pos)
    requires less <= more
    ensures
      var f := FillTiers(less, tiers, numerator, denominator);
      var g := FillTiers(more, tiers, numerator, denominator);
      && f.out <= g.out
      && (f.left > 0 ==> g.used == f.used && g.out == f.out)
  {
    hide TierCost, Buys;
    FillSplits(less, tiers, numerator, denominator);
    FillSplits(more, tiers, numerator, denominator);
    if tiers != [] && less != 0 {
      var r := tiers[0];
      var needed := TierCost(r, numerator, denominator);
      if r == 0 {
        FillMonotone(less, more, tiers[1..], numerator, denominator);
      } else if less >= needed {
        FillMonotone(less - needed, more - needed, tiers[1..], numerator, denominator);
      } else if more >= needed {
        BuysBelowTier(less, r, numerator, denominator);
        NothingFills(tiers[1..], numerator, denominator);
      } else {
        BuysMonotone(less, more, numerator, denominator);
        NothingFills(tiers[1..], numerator, denominator);
      }
    }
  }

  lemma NothingFills(tiers: seq<nat>, numerator: Pos, denominator: Pos)
    ensures FillTiers(0, tiers, numerator, denominator) == Filled(0, 0, 0)
  {
    hide TierCost, Buys;
  }

  // ----- whole walks -----

  /** The price of a bin as an input-per-output fraction. */
  function Numerator(cfg: Config, b: PricedBin): Pos {
    if cfg.flags.swapForY then Q64 else b.price
  }

  function Denominator(cfg: Config, b: PricedBin): Pos {
    if cfg.flags.swapForY then b.price else Q64
  }

  /** What a bin pays the trader for a fill. */
  function Received(cfg: Config, binId: int, out: nat): nat {
    if cfg.feeInput then out else AfterRate(out, FeeRate(cfg, binId), PRECISION)
  }

  /** The parts of a visit. */
  lemma VisitMeaning(cfg: Config, b: PricedBin, s: State)
    ensures FillBin(cfg, b, s) == FillTiers(Offer(cfg, s), Tiers(b, cfg.flags), Numerator(cfg, b), Denominator(cfg, b))
    ensures
      var f := FillBin(cfg, b, s);
      var total := s.total + Received(cfg, s.current, f.out);
      match VisitBin(cfg, b, s)
      case Continue(s') =>
        && f.left != 0 && total <= U64
        && s' == s.(current := s'.current, remaining := s'.remaining, total := total, crossed := s.crossed + 1)
        && s'.current == s.current + Direction(cfg)
        && s'.remaining == s.remaining - Spent(cfg, s.current, f.used)
      case Done(Quoted(q)) => f.left == 0 && total <= U64 && q == Quote(total, 0, s.crossed + 1, true, None)
      case Done(outcome) => outcome.Refused? && total > U64
  {
    hide AfterRate, FeeRate, FillTiers, Offer, Spent, Tiers;
  }

  /** Visiting a bin: the used and left parts make up the net input, the payout is
      covered by the bin and by the used input at the bin's price, and whenever the walk
      continues the bin is sold out and some input remains. */
  lemma VisitConserves(cfg: Config, b: PricedBin, s: State)
    ensures
      var f, visit := FillBin(cfg, b, s), VisitBin(cfg, b, s);
      && f.used + f.left == Offer(cfg, s) <= s.remaining
      && f.out <= Sum(Tiers(b, cfg.flags))
      && Worth(f.out, f.used, Numerator(cfg, b), Denominator(cfg, b))
      && (visit.Continue? ==>
            && 0 < visit.state.remaining <= s.remaining
            && f.out == Sum(Tiers(b, cfg.flags))
            && f.used == TotalCost(Tiers(b, cfg.flags), Numerator(cfg, b), Denominator(cfg, b)))
  {
    hide FillBin, FillTiers, VisitBin, Worth, Sum, TotalCost, Tiers, FeeRate, Spent;
    VisitMeaning(cfg, b, s);
    FillMeaning(Offer(cfg, s), Tiers(b, cfg.flags), Numerator(cfg, b), Denominator(cfg, b));
    AfterRateMonotone(s.remaining, s.remaining, FeeRate(cfg, s.current), PRECISION);
    hide AfterRate;
    if VisitBin(cfg, b, s).Continue? {
      SpentLeavesSome(cfg, s, FillBin(cfg, b, s).used);
    }
  }

  function QuoteOf(outcome: Outcome): Quote
    requires !outcome.Refused?
  {
    if outcome.Quoted? then outcome.quote else outcome.partial
  }

  /** A walk only adds to the output, and returns no more input than it was given; a
      quote with nothing missing or left over is complete. */
  lemma {:induction false} WalkConserves(cfg: Config, s: State)
    requires Indexed(cfg) && !Walk(cfg, s, true).Refused?
    ensures
      var q := QuoteOf(Walk(cfg, s, true));
      && s.total <= q.amountOut && s.crossed <= q.binsCrossed
      && 0 <= q.remainingIn <= s.remaining
      && (q.complete <==> q.missing.None?)
      && (!q.complete ==> 0 < q.remainingIn && ArrayOf(q.missing.value) !in cfg.loaded)
    decreases Distance(cfg, s.current)
  {
    hide Indexed, AdvanceEmpty, ArrayEdge, VisitBin, Live, FillBin, Offer, Spent, FeeRate, AfterRate, Tiers, Worth;
    AdvanceReduces(cfg, s.current);
    if s.remaining == 0 || !InBinRange(s.current) {
    } else if ArrayOf(s.current) !in cfg.loaded {
      if cfg.flags.exhaustive && cfg.low <= s.current <= cfg.high {
        WalkConserves(cfg, s.(current := ArrayEdge(cfg, s.current)));
      }
    } else if !Live(cfg, s.current) {
      WalkConserves(cfg, s.(current := AdvanceEmpty(cfg, s.current)));
    } else {
      LiveInBins(cfg, s.current);
      var b := cfg.bins[s.current];
      VisitMeaning(cfg, b, s);
      VisitConserves(cfg, b, s);
      if VisitBin(cfg, b, s).Continue? {
        WalkConserves(cfg, VisitBin(cfg, b, s).state);
      }
    }
  }

  lemma OfferMonotone(cfg: Config, s: State, more: nat)
    requires s.remaining <= more
    ensures Offer(cfg, s) <= Offer(cfg, s.(remaining := more))
  {
    hide FeeRate, AfterRate;
    AfterRateMonotone(s.remaining, more, FeeRate(cfg, s.current), PRECISION);
  }

  lemma ReceivedMonotone(cfg: Config, binId: int, out: nat, out': nat)
    requires out <= out'
    ensures Received(cfg, binId, out) <= Received(cfg, binId, out')
  {
    hide FeeRate, AfterRate;
    AfterRateMonotone(out, out', FeeRate(cfg, binId), PRECISION);
  }

  /** One bin with less and one with more input: either both walks continue alike, or
      the smaller one is done and has received no more. */
  lemma VisitMonotone(cfg: Config, b: PricedBin, s: State, more: nat)
    requires s.remaining <= more
    ensures
      var u, v := VisitBin(cfg, b, s), VisitBin(cfg, b, s.(remaining := more));
      match u
      case Continue(s') => v.Continue? && s'.remaining <= v.state.remaining && v.state == s'.(remaining := v.state.remaining)
      case Done(outcome) => !outcome.Refused? ==>
        match v
        case Continue(t') => QuoteOf(outcome).amountOut <= t'.total
        case Done(outcome') => !outcome'.Refused? ==> QuoteOf(outcome).amountOut <= QuoteOf(outcome').amountOut
  {
    hide FillBin, FillTiers, VisitBin, Offer, Spent, Tiers, Received;
    var t := s.(remaining := more);
    VisitMeaning(cfg, b, s);
    VisitMeaning(cfg, b, t);
    OfferMonotone(cfg, s, more);
    FillSplits(Offer(cfg, s), Tiers(b, cfg.flags), Numerator(cfg, b), Denominator(cfg, b));
    FillSplits(Offer(cfg, t), Tiers(b, cfg.flags), Numerator(cfg, b), Denominator(cfg, b));
    FillMonotone(Offer(cfg, s), Offer(cfg, t), Tiers(b, cfg.flags), Numerator(cfg, b), Denominator(cfg, b));
    ReceivedMonotone(cfg, s.current, FillBin(cfg, b, s).out, FillBin(cfg, b, t).out);
  }

  /** From the same place, a larger remaining input never buys less. */
  lemma {:induction false} WalkMonotone(cfg: Config, s: State, more: nat)
    requires Indexed(cfg) && s.remaining <= more
    requires !Walk(cfg, s, true).Refused? && !Walk(cfg, s.(remaining := more), true).Refused?
    ensures QuoteOf(Walk(cfg, s, true)).amountOut <= QuoteOf(Walk(cfg, s.(remaining := more), true)).amountOut
    decreases Distance(cfg, s.current)
  {
    hide Indexed, AdvanceEmpty, ArrayEdge, VisitBin, Live, Direction;
    AdvanceReduces(cfg, s.current);
    var t := s.(remaining := more);
    if s.remaining == 0 || !InBinRange(s.current) {
      WalkConserves(cfg, t);
    } else if ArrayOf(s.current) !in cfg.loaded {
      if cfg.flags.exhaustive && cfg.low <= s.current <= cfg.high {
        WalkMonotone(cfg, s.(current := ArrayEdge(cfg, s.current)), more);
      }
    } else if !Live(cfg, s.current) {
      WalkMonotone(cfg, s.(current := AdvanceEmpty(cfg, s.current)), more);
    } else {
      LiveInBins(cfg, s.current);
      var b := cfg.bins[s.current];
      VisitReduces(cfg, b, s);
      VisitMonotone(cfg, b, s, more);
      var u, v := VisitBin(cfg, b, s), VisitBin(cfg, b, t);
      if u.Continue? {
        WalkMonotone(cfg, u.state, v.state.remaining);
      } else if v.Continue? {
        VisitReduces(cfg, b, t);
        WalkConserves(cfg, v.state);
      }
    }
  }

  lemma VisitReduces(cfg: Config, b: PricedBin, s: State)
    ensures VisitBin(cfg, b, s).Continue? ==>
      Distance(cfg, VisitBin(cfg, b, s).state.current) < Distance(cfg, s.current)
  {
    hide VisitBin;
    VisitMoves(cfg, b, s);
  }

  /** The amount enters only as the input to spend. */
  lemma PrepareIgnoresAmount(
      pool: Pool, bins: seq<Bin>, arrays: seq<int>, less: int, more: int, timestamp: int, flags: Flags)
    requires Prepare(pool, bins, arrays, less, timestamp, flags).Ok?
    requires Prepare(pool, bins, arrays, more, timestamp, flags).Ok?
    ensures
      var (cfg, s) := Prepare(pool, bins, arrays, less, timestamp, flags).value;
      && less >= 0 && more >= 0 && s == State(pool.activeId, less, 0, 0)
      && Prepare(pool, bins, arrays, more, timestamp, flags).value == (cfg, s.(remaining := more))
  {
    hide ValidArrays, ValidBins, BaseRate, LiveIds, Sort, BinsById, Least, Greatest;
  }

  /** A quote never returns more input than it was given, and a larger amount never
      quotes a smaller output. */
  lemma SwapMonotone(
      pool: Pool, bins: seq<Bin>, arrays: seq<int>, less: int, more: int, timestamp: int, flags: Flags)
    requires less <= more
    requires !Swap(pool, bins, arrays, less, timestamp, flags).Refused?
    requires !Swap(pool, bins, arrays, more, timestamp, flags).Refused?
    ensures
      var q := QuoteOf(Swap(pool, bins, arrays, less, timestamp, flags));
      var q' := QuoteOf(Swap(pool, bins, arrays, more, timestamp, flags));
      && 0 <= q.remainingIn <= less && 0 <= q.amountOut <= q'.amountOut
  {
    hide Prepare, Walk, Indexed;
    PrepareIgnoresAmount(pool, bins, arrays, less, more, timestamp, flags);
    PreparedIndexed(pool, bins, arrays, less, timestamp, flags);
    var (cfg, s) := Prepare(pool, bins, arrays, less, timestamp, flags).value;
    WalkConserves(cfg, s);
    WalkMonotone(cfg, s, more);
  }

  lemma VariableRateMonotone(less: nat, more: nat, control: nat)
    requires less <= more
    ensures VariableRate(less, control) <= VariableRate(more, control)
  {
    MulMono(less, more, less);
    MulMono(less, more, more);
    MulMono(less * less, more * more, control);
    CeilMono(less * less * control, more * more * control, 100000000000);
  }

  /** A bin further from the index reference is never charged less, and none above the cap. */
  lemma FeeGrowsWithDistance(cfg: Config, near: int, far: int)
    requires Abs(cfg.index - near) <= Abs(cfg.index - far)
    ensures FeeRate(cfg, near) <= FeeRate(cfg, far) <= RATE_CAP
    ensures FeeRate(cfg, near) < RATE_CAP ==> cfg.baseRate <= FeeRate(cfg, near)
  {
    var a := Min(cfg.reference + Abs(cfg.index - near) * 10000, cfg.maximumVolatility);
    var b := Min(cfg.reference + Abs(cfg.index - far) * 10000, cfg.maximumVolatility);
    MulMono(a, b, cfg.binStep);
    MulMono(0, a, cfg.binStep);
    VariableRateMonotone(a * cfg.binStep, b * cfg.binStep, cfg.control);
    VariableRateNonNegative(a * cfg.binStep, cfg.control);
    hide VariableRate;
  }
}
