/** The DLMM quote as it runs: loops that index the arrays and bins, the tier loop
    inside a bin, and the walk, proved to compute what `Dlmm.Swap` specifies. */
module DlmmSwap {
  import opened Results
  import opened Rounding
  import opened Sorting
  import opened TradeFee
  import opened Dlmm

  predicate ArrayTouchesRange(a: int) {
    SignedBits(a, 64) && a * BINS_PER_ARRAY <= MAX_BIN && -MAX_BIN < (a + 1) * BINS_PER_ARRAY
  }

  /** Collects the loaded arrays, refusing duplicates and arrays outside the bin range. */
  method IndexArrays(arrays: seq<int>) returns (ok: bool, loaded: set<int>)
    ensures ok <==> ValidArrays(arrays)
    ensures ok ==> loaded == set a | a in arrays
  {
    hide SignedBits;
    ok, loaded := true, {};
    for i := 0 to |arrays|
      invariant loaded == set a | a in arrays[..i]
      invariant ValidArrays(arrays[..i])
    {
      var a := arrays[i];
      assert arrays[..i + 1] == arrays[..i] + [a];
      if a in loaded || !ArrayTouchesRange(a) {
        assert a in arrays;
        return false, loaded;
      }
      loaded := loaded + {a};
    }
    assert arrays[..|arrays|] == arrays;
  }

  /** Indexes the priced bins by id and collects the sorted ids of the live ones,
      refusing invalid, duplicate and unloaded bins. */
  method IndexBins(bins: seq<Bin>, arrays: seq<int>, flags: Flags)
    returns (ok: bool, byId: map<int, PricedBin>, live: seq<int>)
    ensures ok <==> ValidBins(bins, arrays)
    ensures ok ==> byId == BinsById(bins) && live == Sort(LiveIds(bins, flags), Itself)
  {
    hide ValidBin, HasSomething;
    ok, byId, live := true, map[], [];
    var seen: set<int> := {};
    for i := 0 to |bins|
      invariant seen == set b | b in bins[..i] :: b.binId
      invariant ValidBins(bins[..i], arrays)
      invariant byId == BinsById(bins[..i]) && live == LiveIds(bins[..i], flags)
    {
      var b := bins[i];
      assert bins[..i + 1] == bins[..i] + [b];
      assert bins[..i + 1][..i] == bins[..i];
      if b.binId in seen || !ValidBin(b, arrays) {
        BadBin(bins, arrays, i);
        return false, byId, live;
      }
      seen := seen + {b.binId};
      if b.price != 0 {
        byId := byId[b.binId := b];
        if HasSomething(b, flags) {
          live := live + [b.binId];
        }
      }
    }
    assert bins[..|bins|] == bins;
    live := Sort(live, Itself);
  }

  lemma BadBin(bins: seq<Bin>, arrays: seq<int>, i: nat)
    requires i < |bins|
    requires !ValidBin(bins[i], arrays) || exists b :: b in bins[..i] && b.binId == bins[i].binId
    ensures !ValidBins(bins, arrays)
  {
    hide ValidBin;
    if ValidBin(bins[i], arrays) {
      var b :| b in bins[..i] && b.binId == bins[i].binId;
      var j :| 0 <= j < i && bins[..i][j] == b;
    } else {
      assert bins[i] in bins;
    }
  }

  /** The tier loop: each tier in turn takes what it costs, or all that is left. */
  method FillLoop(offer: nat, tiers: seq<nat>, numerator: Pos, denominator: Pos)
    returns (left: nat, used: nat, out: nat)
    ensures Filled(left, used, out) == FillTiers(offer, tiers, numerator, denominator)
  {
    hide TierCost, Buys;
    left, used, out := offer, 0, 0;
    for i := 0 to |tiers|
      invariant
        var rest := FillTiers(left, tiers[i..], numerator, denominator);
        FillTiers(offer, tiers, numerator, denominator) == Filled(rest.left, used + rest.used, out + rest.out)
    {
      var r := tiers[i];
      assert tiers[i..][1..] == tiers[i + 1..];
      if left == 0 {
        break;
      }
      if r == 0 {
        continue;
      }
      var needed := TierCost(r, numerator, denominator);
      var consumed := if left >= needed then needed else left;
      var produced := if left >= needed then r else Buys(left, numerator, denominator);
      left, used, out := left - consumed, used + consumed, out + produced;
    }
  }

  /** The skip over bins with nothing to sell, by bisecting the index of live bins. */
  method Skip(cfg: Config, current: int) returns (to: int)
    requires Indexed(cfg)
    ensures to == AdvanceEmpty(cfg, current)
  {
    hide Live, CountUpTo;
    var position: int;
    if cfg.flags.swapForY {
      position := BisectRight(cfg.live, Itself, current - 1);
      position := position - 1;
    } else {
      position := BisectRight(cfg.live, Itself, current);
    }
    if 0 <= position < |cfg.live| && cfg.live[position] / BINS_PER_ARRAY == current / BINS_PER_ARRAY {
      return cfg.live[position];
    }
    return ArrayEdge(cfg, current);
  }

  method SwapExactIn(
      pool: Pool, bins: seq<Bin>, arrays: seq<int>, amount: int, timestamp: int, flags: Flags)
    returns (r: Outcome)
    ensures r == Swap(pool, bins, arrays, amount, timestamp, flags)
  {
    hide Walk, Indexed, ValidArrays, ValidBins, ValidPool, Live, AdvanceEmpty, ArrayEdge, VisitBin, FillBin, FeeRate,
      AfterRate, BeforeRate, Sort, LiveIds, BinsById, BaseRate;
    if !ValidPool(pool, amount, timestamp) {
      return Refused(InvalidPool);
    }
    var arraysOk, loaded := IndexArrays(arrays);
    if !arraysOk {
      return Refused(MissingArrays);
    }
    var binsOk, byId, live := IndexBins(bins, arrays, flags);
    if !binsOk {
      return Refused(InvalidTick);
    }
    var start := Prepare(pool, bins, arrays, amount, timestamp, flags).value;
    PreparedIndexed(pool, bins, arrays, amount, timestamp, flags);
    var cfg := start.0.(loaded := loaded, bins := byId, live := live);
    assert cfg == start.0;
    r := WalkLoop(cfg, start.1);
  }

  /** The walk: skip, refuse or fill at the current bin until the input is used up. */
  method WalkLoop(cfg: Config, start: State) returns (r: Outcome)
    requires Indexed(cfg)
    ensures r == Walk(cfg, start, true)
  {
    hide Indexed, Live, AdvanceEmpty, ArrayEdge, FillBin, FeeRate, AfterRate, BeforeRate, Tiers, AllZero;
    var current, remaining, total, crossed := start.current, start.remaining, start.total, start.crossed;
    while remaining != 0 && InBinRange(current)
      invariant 0 <= remaining
      invariant Walk(cfg, State(current, remaining, total, crossed), true) == Walk(cfg, start, true)
      decreases Distance(cfg, current)
    {
      ghost var s := State(current, remaining, total, crossed);
      AdvanceReduces(cfg, current);
      if ArrayOf(current) !in cfg.loaded {
        if cfg.flags.exhaustive {
          if current < cfg.low || cfg.high < current {
            break;
          }
          current := ArrayEdge(cfg, current);
          continue;
        }
        var partial := Quote(total, remaining, crossed, false, Some(current));
        if cfg.flags.strict {
          return Insufficient(partial);
        }
        return Quoted(partial);
      }
      if !Live(cfg, current) {
        current := Skip(cfg, current);
        continue;
      }
      LiveInBins(cfg, current);
      var b := cfg.bins[current];
      VisitMoves(cfg, b, s);
      var rate := FeeRate(cfg, current);
      var offer := if cfg.feeInput then AfterRate(remaining, rate, PRECISION) else remaining;
      var numerator, denominator := if cfg.flags.swapForY then Q64 else b.price, if cfg.flags.swapForY then b.price else Q64;
      var left, used, out := FillLoop(offer, Tiers(b, cfg.flags), numerator, denominator);
      assert FillBin(cfg, b, s) == Filled(left, used, out) by {
        FillBinMeaning(cfg, b, s);
      }
      total := total + if cfg.feeInput then out else AfterRate(out, rate, PRECISION);
      if total > U64 {
        return Refused(OutsideUnsignedRange);
      }
      if left == 0 {
        return Quoted(Quote(total, 0, crossed + 1, true, None));
      }
      SpentLeavesSome(cfg, s, used);
      remaining := remaining - if cfg.feeInput then BeforeRate(used, rate, PRECISION) else used;
      crossed := crossed + 1;
      current := current + if cfg.flags.swapForY then -1 else 1;
    }
    return Quoted(Quote(total, remaining, crossed + 1, true, None));
  }

  lemma FillBinMeaning(cfg: Config, b: PricedBin, s: State)
    ensures FillBin(cfg, b, s)
         == FillTiers(Offer(cfg, s), Tiers(b, cfg.flags),
                      if cfg.flags.swapForY then Q64 else b.price, if cfg.flags.swapForY then b.price else Q64)
  {
    hide Offer, Tiers, FillTiers;
  }
}
