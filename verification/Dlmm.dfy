/** The Meteora DLMM exact-in bin walk: validation, the index of loaded bins, filling
    the three tiers of a bin, and the walk that skips ahead over empty bins next to
    the one that visits every bin. */
module Dlmm {
  import opened Results
  import opened Rounding
  import opened Sorting
  import opened TradeFee

  const MAX_BIN := 443636
  const BINS_PER_ARRAY := 70
  const PRECISION: int := 1000000000
  const RATE_CAP: int := 100000000

  datatype StaticFee = StaticFee(
    baseFactor: int, power: int, control: int, maximumVolatility: int,
    filterPeriod: int, decayPeriod: int, reductionFactor: int)

  datatype VariableFee = VariableFee(volatility: int, reference: int, indexReference: int, lastTimestamp: int)

  datatype Bin = Bin(
    binId: int, amountX: nat, amountY: nat, price: nat, openOrder: nat, processedOrder: nat, askSide: nat)

  /** A bin that trades: bins without a price hold nothing. */
  type PricedBin = b: Bin | 0 < b.price witness Bin(0, 0, 0, 1, 0, 0, 0)

  /** A fee rate in billionths, at most ten percent. */
  type Rate = n: nat | n <= RATE_CAP

  datatype Pool = Pool(activeId: int, binStep: int, feeMode: int, fixed: StaticFee, variable: VariableFee)

  datatype Quote = Quote(amountOut: int, remainingIn: int, binsCrossed: int, complete: bool, missing: Option<int>)

  /** A quote, a strict refusal that carries the partial quote, or another refusal. */
  datatype Outcome = Quoted(quote: Quote) | Insufficient(partial: Quote) | Refused(error: Error)

  datatype Flags = Flags(swapForY: bool, supportOrders: bool, strict: bool, exhaustive: bool)

  /** What a walk keeps fixed: the loaded arrays and bins, the sorted ids of the bins
      with something to sell, and the fee parameters. */
  datatype Config = Config(
    flags: Flags, loaded: set<int>, low: int, high: int, bins: map<int, PricedBin>, live: seq<int>,
    binStep: nat, baseRate: nat, control: nat, maximumVolatility: nat, reference: nat, index: int, feeInput: bool)

  datatype State = State(current: int, remaining: nat, total: int, crossed: int)

  // ----- validation and setup -----

  predicate Bits(v: int, width: nat) {
    0 <= v < Power(2, width)
  }

  predicate SignedBits(v: int, width: nat)
    requires width > 0
  {
    var bound: int := Power(2, width - 1);
    -bound <= v < bound
  }

  predicate ValidPool(pool: Pool, amount: int, timestamp: int) {
    var f, v := pool.fixed, pool.variable;
    && Bits(amount, 64) && Bits(timestamp, 63)
    && -MAX_BIN <= pool.activeId <= MAX_BIN && 0 < pool.binStep && Bits(pool.binStep, 16)
    && 0 <= pool.feeMode <= 1
    && Bits(f.baseFactor, 16) && 0 <= f.power <= 18 && Bits(f.control, 32) && Bits(f.maximumVolatility, 32)
    && Bits(f.filterPeriod, 16) && Bits(f.decayPeriod, 16) && 0 <= f.reductionFactor <= 10000
    && Bits(v.volatility, 32) && Bits(v.reference, 32) && SignedBits(v.indexReference, 32)
    && 0 <= v.lastTimestamp <= timestamp
  }

  function ArrayOf(binId: int): int {
    binId / BINS_PER_ARRAY
  }

  /** Distinct arrays that touch the bin range. */
  predicate ValidArrays(arrays: seq<int>) {
    && (forall i, j :: 0 <= i < j < |arrays| ==> arrays[i] != arrays[j])
    && forall a :: a in arrays ==>
      SignedBits(a, 64) && a * BINS_PER_ARRAY <= MAX_BIN && -MAX_BIN < (a + 1) * BINS_PER_ARRAY
  }

  predicate ValidBin(b: Bin, arrays: seq<int>) {
    && -MAX_BIN <= b.binId <= MAX_BIN && ArrayOf(b.binId) in arrays
    && Bits(b.amountX, 64) && Bits(b.amountY, 64) && Bits(b.price, 128)
    && Bits(b.openOrder, 64) && Bits(b.processedOrder, 64) && Bits(b.askSide, 8)
    && (b.price == 0 ==> b.amountX == b.amountY == b.openOrder == b.processedOrder == 0)
  }

  predicate ValidBins(bins: seq<Bin>, arrays: seq<int>) {
    && (forall i, j :: 0 <= i < j < |bins| ==> bins[i].binId != bins[j].binId)
    && forall b :: b in bins ==> ValidBin(b, arrays)
  }

  /** Orders count only on the side they sell on. */
  predicate OrdersMatter(b: Bin, flags: Flags) {
    flags.supportOrders && ((flags.swapForY && b.askSide == 0) || (!flags.swapForY && b.askSide != 0))
  }

  function Reserve(b: Bin, flags: Flags): nat {
    if flags.swapForY then b.amountY else b.amountX
  }

  /** The three amounts a bin sells, in order: reserve, processed orders, open orders. */
  function Tiers(b: Bin, flags: Flags): seq<nat> {
    var matter := OrdersMatter(b, flags);
    [Reserve(b, flags), if matter then b.processedOrder else 0, if matter then b.openOrder else 0]
  }

  predicate HasSomething(b: Bin, flags: Flags) {
    Reserve(b, flags) != 0 || (OrdersMatter(b, flags) && (b.processedOrder != 0 || b.openOrder != 0))
  }

  function BinsById(bins: seq<Bin>): map<int, PricedBin> {
    if bins == [] then map[]
    else
      var b, m := bins[|bins| - 1], BinsById(bins[..|bins| - 1]);
      if b.price == 0 then m else m[b.binId := b]
  }

  /** The ids of the priced bins with something to sell, as supplied. */
  function LiveIds(bins: seq<Bin>, flags: Flags): seq<int> {
    if bins == [] then []
    else
      var b, ids := bins[|bins| - 1], LiveIds(bins[..|bins| - 1], flags);
      if b.price != 0 && HasSomething(b, flags) then ids + [b.binId] else ids
  }

  function Least(xs: seq<int>): int
    requires xs != []
  {
    if |xs| == 1 then xs[0] else Min(xs[0], Least(xs[1..]))
  }

  function Greatest(xs: seq<int>): int
    requires xs != []
  {
    if |xs| == 1 then xs[0] else Max(xs[0], Greatest(xs[1..]))
  }

  function Prepare(
      pool: Pool, bins: seq<Bin>, arrays: seq<int>, amount: int, timestamp: int, flags: Flags): Result<(Config, State)>
  {
    if !ValidPool(pool, amount, timestamp) then Err(InvalidPool)
    else if !ValidArrays(arrays) then Err(MissingArrays)
    else if !ValidBins(bins, arrays) then Err(InvalidTick)
    else
      var f, v := pool.fixed, pool.variable;
      var elapsed := timestamp - v.lastTimestamp;
      var moved := elapsed >= f.filterPeriod;
      MulMono(0, v.volatility, f.reductionFactor);
      var reference :=
        if !moved then v.reference
        else if elapsed < f.decayPeriod then v.volatility * f.reductionFactor / 10000 else 0;
      Ok((
        Config(
          flags, set a | a in arrays,
          if arrays != [] then Least(arrays) * BINS_PER_ARRAY else 0,
          if arrays != [] then Greatest(arrays) * BINS_PER_ARRAY + BINS_PER_ARRAY - 1 else -1,
          BinsById(bins), Sort(LiveIds(bins, flags), Itself),
          pool.binStep, BaseRate(f.baseFactor, pool.binStep, f.power), f.control, f.maximumVolatility,
          reference, if moved then pool.activeId else v.indexReference,
          pool.feeMode == 0 || !flags.swapForY),
        State(pool.activeId, amount, 0, 0)))
  }

  function BaseRate(baseFactor: nat, binStep: nat, power: nat): nat {
    MulMono(0, baseFactor, binStep);
    MulMono(0, baseFactor * binStep * 10, Power(10, power));
    baseFactor * binStep * 10 * Power(10, power)
  }

  // ----- one bin -----

  datatype Filled = Filled(left: nat, used: nat, out: nat)

  /** What a tier of `amount` costs at a price of `numerator / denominator`, rounded up. */
  function TierCost(amount: nat, numerator: Pos, denominator: Pos): nat {
    MulMono(0, amount, numerator);
    FloorGe(amount * numerator + denominator - 1, denominator, 0);
    Ceil(amount * numerator, denominator)
  }

  /** What an input that cannot pay for a whole tier buys of it, rounded down. */
  function Buys(input: nat, numerator: Pos, denominator: Pos): nat {
    MulMono(0, input, denominator);
    FloorGe(input * denominator, numerator, 0);
    input * denominator / numerator
  }

  /** Fills tiers in order until the input or the tiers run out. */
  function FillTiers(left: nat, tiers: seq<nat>, numerator: Pos, denominator: Pos): Filled {
    hide TierCost, Buys;
    if tiers == [] || left == 0 then Filled(left, 0, 0)
    else if tiers[0] == 0 then FillTiers(left, tiers[1..], numerator, denominator)
    else
      var needed := TierCost(tiers[0], numerator, denominator);
      var consumed := if left >= needed then needed else left;
      var produced := if left >= needed then tiers[0] else Buys(left, numerator, denominator);
      var rest := FillTiers(left - consumed, tiers[1..], numerator, denominator);
      Filled(rest.left, consumed + rest.used, produced + rest.out)
  }

  function FeeRate(cfg: Config, binId: int): Rate {
    var volatility := Min(cfg.reference + Abs(cfg.index - binId) * 10000, cfg.maximumVolatility);
    VariableRateNonNegative(volatility * cfg.binStep, cfg.control);
    Min(cfg.baseRate + VariableRate(volatility * cfg.binStep, cfg.control), RATE_CAP)
  }

  function VariableRate(distance: int, control: nat): int {
    Ceil(distance * distance * control, 100000000000)
  }

  lemma VariableRateNonNegative(distance: int, control: nat)
    ensures 0 <= VariableRate(distance, control)
  {
    if distance < 0 {
      MulMono(0, -distance, -distance);
    } else {
      MulMono(0, distance, distance);
    }
    MulMono(0, distance * distance, control);
  }

  /** Using less than the whole net input costs less than the whole gross input. */
  lemma GrossLeavesSome(amount: nat, rate: Rate, used: nat)
    requires used < AfterRate(amount, rate, PRECISION)
    ensures BeforeRate(used, rate, PRECISION) < amount
  {
    hide AfterRate, BeforeRate;
    AfterRateGe(amount, rate, PRECISION, used + 1);
    BeforeRateLe(used, rate, PRECISION, amount - 1);
  }

  /** Filling splits the input into a used part and what is left. */
  lemma {:induction false} FillSplits(left: nat, tiers: seq<nat>, numerator: Pos, denominator: Pos)
    ensures
      var f := FillTiers(left, tiers, numerator, denominator);
      f.used + f.left == left
  {
    hide TierCost, Buys;
    if tiers != [] && left != 0 {
      var needed := TierCost(tiers[0], numerator, denominator);
      FillSplits(left, tiers[1..], numerator, denominator);
      FillSplits(left - if left >= needed then needed else left, tiers[1..], numerator, denominator);
    }
  }

  /** What visiting one live bin leads to: the walk continues, or it is done. */
  datatype Visit = Continue(state: State) | Done(outcome: Outcome)

  /** The net input a bin is offered. */
  function Offer(cfg: Config, s: State): nat {
    if cfg.feeInput then AfterRate(s.remaining, FeeRate(cfg, s.current), PRECISION) else s.remaining
  }

  function FillBin(cfg: Config, b: PricedBin, s: State): (f: Filled)
    ensures f.used + f.left == Offer(cfg, s)
  {
    hide Offer, Tiers;
    var numerator, denominator := if cfg.flags.swapForY then Q64 else b.price, if cfg.flags.swapForY then b.price else Q64;
    FillSplits(Offer(cfg, s), Tiers(b, cfg.flags), numerator, denominator);
    hide FillTiers;
    FillTiers(Offer(cfg, s), Tiers(b, cfg.flags), numerator, denominator)
  }

  /** What a bin's fill costs the input, fee included. */
  function Spent(cfg: Config, binId: int, used: nat): nat {
    if cfg.feeInput then BeforeRate(used, FeeRate(cfg, binId), PRECISION) else used
  }

  lemma SpentLeavesSome(cfg: Config, s: State, used: nat)
    requires used < Offer(cfg, s)
    ensures Spent(cfg, s.current, used) < s.remaining
  {
    hide AfterRate, BeforeRate, FeeRate;
    if cfg.feeInput {
      GrossLeavesSome(s.remaining, FeeRate(cfg, s.current), used);
    }
  }

  function VisitBin(cfg: Config, b: PricedBin, s: State): Visit {
    hide AfterRate, FeeRate, FillBin, Offer, Spent;
    var rate, f := FeeRate(cfg, s.current), FillBin(cfg, b, s);
    var total := s.total + if cfg.feeInput then f.out else AfterRate(f.out, rate, PRECISION);
    if total > U64 then Done(Refused(OutsideUnsignedRange))
    else if f.left != 0 then
      SpentLeavesSome(cfg, s, f.used);
      Continue(State(s.current + Direction(cfg), s.remaining - Spent(cfg, s.current, f.used), total, s.crossed + 1))
    else Done(Quoted(Quote(total, 0, s.crossed + 1, true, None)))
  }

  function Direction(cfg: Config): int {
    if cfg.flags.swapForY then -1 else 1
  }

  // ----- the walk -----

  predicate AllZero(tiers: seq<nat>) {
    forall t :: t in tiers ==> t == 0
  }

  /** There is a priced bin with something to sell at `binId`. */
  predicate Live(cfg: Config, binId: int) {
    binId in cfg.bins && !AllZero(Tiers(cfg.bins[binId], cfg.flags))
  }

  /** The first bin id beyond the current array, in the walk's direction. */
  function ArrayEdge(cfg: Config, current: int): int {
    if cfg.flags.swapForY then ArrayOf(current) * BINS_PER_ARRAY - 1 else (ArrayOf(current) + 1) * BINS_PER_ARRAY
  }

  /** From a bin with nothing to sell: the next live bin of the same array, else the
      edge of the array, since the next array may not be loaded. */
  function AdvanceEmpty(cfg: Config, current: int): int {
    var position: int :=
      if cfg.flags.swapForY then CountUpTo(cfg.live, Itself, current - 1) as int - 1
      else CountUpTo(cfg.live, Itself, current);
    if 0 <= position < |cfg.live| && ArrayOf(cfg.live[position]) == ArrayOf(current) then cfg.live[position]
    else ArrayEdge(cfg, current)
  }

  /** What the setup establishes about a configuration. */
  ghost predicate Indexed(cfg: Config) {
    && NonDecreasing(cfg.live, Itself)
    && (forall id :: id in cfg.live <==> Live(cfg, id))
    && cfg.low % BINS_PER_ARRAY == 0 && (cfg.high + 1) % BINS_PER_ARRAY == 0
  }

  predicate InBinRange(binId: int) {
    -MAX_BIN <= binId <= MAX_BIN
  }

  /** The distance to the edge of the bin range, which every step of a walk reduces. */
  function Distance(cfg: Config, current: int): int {
    if cfg.flags.swapForY then current + MAX_BIN + 1 else MAX_BIN + 1 - current
  }

  lemma AdvanceReduces(cfg: Config, current: int)
    requires Indexed(cfg)
    ensures Distance(cfg, AdvanceEmpty(cfg, current)) < Distance(cfg, current)
    ensures Distance(cfg, ArrayEdge(cfg, current)) < Distance(cfg, current)
  {
    hide Live;
    CountUpToSplits(cfg.live, Itself, if cfg.flags.swapForY then current - 1 else current);
    hide CountUpTo;
  }

  function Complete(s: State): Outcome {
    Quoted(Quote(s.total, s.remaining, s.crossed + 1, true, None))
  }

  /** The walk from a state: `fast` skips over empty bins and, when exhaustive, over
      arrays that are not loaded; otherwise it visits every bin id one by one. */
  function Walk(cfg: Config, s: State, fast: bool): Outcome
    requires Indexed(cfg)
    decreases Distance(cfg, s.current)
  {
    hide Indexed, AdvanceEmpty, ArrayEdge, VisitBin, Live;
    AdvanceReduces(cfg, s.current);
    if s.remaining == 0 || !InBinRange(s.current) then Complete(s)
    else if ArrayOf(s.current) !in cfg.loaded then
      if !cfg.flags.exhaustive then
        var partial := Quote(s.total, s.remaining, s.crossed, false, Some(s.current));
        if cfg.flags.strict then Insufficient(partial) else Quoted(partial)
      else if s.current < cfg.low || cfg.high < s.current then Complete(s)
      else Walk(cfg, s.(current := if fast then ArrayEdge(cfg, s.current) else s.current + Direction(cfg)), fast)
    else if !Live(cfg, s.current) then
      Walk(cfg, s.(current := if fast then AdvanceEmpty(cfg, s.current) else s.current + Direction(cfg)), fast)
    else
      LiveInBins(cfg, s.current);
      VisitMoves(cfg, cfg.bins[s.current], s);
      match VisitBin(cfg, cfg.bins[s.current], s)
      case Continue(s') => Walk(cfg, s', fast)
      case Done(outcome) => outcome
  }

  lemma LiveInBins(cfg: Config, binId: int)
    requires Live(cfg, binId)
    ensures binId in cfg.bins
  {
  }

  lemma VisitMoves(cfg: Config, b: PricedBin, s: State)
    ensures VisitBin(cfg, b, s).Continue? ==>
      VisitBin(cfg, b, s).state.current == s.current + Direction(cfg)
  {
    hide AfterRate, FeeRate, FillBin, Offer, Spent;
  }

  /** The exact-in quote, by the skipping walk. */
  function Swap(
      pool: Pool, bins: seq<Bin>, arrays: seq<int>, amount: int, timestamp: int, flags: Flags): Outcome
  {
    hide Prepare, Walk, Indexed;
    match Prepare(pool, bins, arrays, amount, timestamp, flags)
    case Err(error) => Refused(error)
    case Ok(start) =>
      PreparedIndexed(pool, bins, arrays, amount, timestamp, flags);
      Walk(start.0, start.1, true)
  }

  lemma PreparedIndexed(
      pool: Pool, bins: seq<Bin>, arrays: seq<int>, amount: int, timestamp: int, flags: Flags)
    requires Prepare(pool, bins, arrays, amount, timestamp, flags).Ok?
    ensures Indexed(Prepare(pool, bins, arrays, amount, timestamp, flags).value.0)
  {
    hide ValidPool, ValidArrays, BaseRate, Live, LiveIds, Sort, NonDecreasing, BinsById, Least, Greatest, ArrayOf;
    var cfg := Prepare(pool, bins, arrays, amount, timestamp, flags).value.0;
    SortSorts(LiveIds(bins, flags), Itself);
    forall id
      ensures id in cfg.live <==> Live(cfg, id)
    {
      assert id in cfg.live <==> id in multiset(cfg.live);
      LiveIdsMeaning(bins, arrays, flags, cfg, id);
    }
  }

  lemma HasSomethingTiers(b: Bin, flags: Flags)
    ensures HasSomething(b, flags) <==> !AllZero(Tiers(b, flags))
  {
    var tiers := Tiers(b, flags);
    assert tiers[0] in tiers && tiers[1] in tiers && tiers[2] in tiers;
  }

  /** The index holds exactly the live bins. */
  lemma LiveIdsMeaning(bins: seq<Bin>, arrays: seq<int>, flags: Flags, cfg: Config, id: int)
    requires cfg.flags == flags && cfg.bins == BinsById(bins)
    requires ValidBins(bins, arrays)
    ensures id in LiveIds(bins, flags) <==> Live(cfg, id)
  {
    hide ValidBin, HasSomething, Tiers, AllZero;
    BinsByIdMeaning(bins, id);
    LiveIdsSource(bins, flags, id);
    hide BinsById, LiveIds;
    forall b: Bin
      ensures HasSomething(b, flags) <==> !AllZero(Tiers(b, flags))
    {
      HasSomethingTiers(b, flags);
    }
  }

  lemma {:induction false} BinsByIdMeaning(bins: seq<Bin>, id: int)
    requires forall i, j :: 0 <= i < j < |bins| ==> bins[i].binId != bins[j].binId
    ensures id in BinsById(bins) <==> exists i :: 0 <= i < |bins| && bins[i].binId == id && bins[i].price != 0
    ensures forall i :: 0 <= i < |bins| && bins[i].binId == id && bins[i].price != 0 ==>
      id in BinsById(bins) && BinsById(bins)[id] == bins[i]
  {
    if bins != [] {
      var n := |bins| - 1;
      var front := bins[..n];
      BinsByIdMeaning(front, id);
      assert forall i :: 0 <= i < n ==> front[i] == bins[i];
    }
  }

  lemma {:induction false} LiveIdsSource(bins: seq<Bin>, flags: Flags, id: int)
    ensures id in LiveIds(bins, flags) <==>
      exists i :: 0 <= i < |bins| && bins[i].binId == id && bins[i].price != 0 && HasSomething(bins[i], flags)
  {
    hide HasSomething;
    if bins != [] {
      var n := |bins| - 1;
      var front := bins[..n];
      LiveIdsSource(front, flags, id);
      assert forall i :: 0 <= i < n ==> front[i] == bins[i];
    }
  }
}
