/** The two tick-to-sqrt-price maps, Raydium CLMM (Q64.64, one factor table and a
    reciprocal) and Orca Whirlpool (two tables, Q32.96 above tick zero), and the
    binary search that inverts them. */
module TickPrice {
  import opened Results
  import opened Rounding
  import opened BitProduct

  datatype Engine = Clmm | Whirlpool

  const MIN_TICK := -443636
  const MAX_TICK := 443636
  const Q96: nat := 0x1_0000_0000_0000_0000_0000_0000

  const CLMM_FACTORS: seq<nat> := [
    0xFFFCB933BD6FB800, 0xFFF97272373D4000, 0xFFF2E50F5F657000, 0xFFE5CACA7E10F000, 0xFFCB9843D60F7000,
    0xFF973B41FA98E800, 0xFF2EA16466C9B000, 0xFE5DEE046A9A3800, 0xFCBE86C7900BB000, 0xF987A7253AC65800,
    0xF3392B0822BB6000, 0xE7159475A2CAF000, 0xD097F3BDFD2F2000, 0xA9F746462D9F8000, 0x70D869A156F31C00,
    0x31BE135F97ED3200, 0x9AA508B5B85A500, 0x5D6AF8DEDC582C, 0x2216E584F5FA]

  const POSITIVE: seq<nat> := [
    79232123823359799118286999567, 79236085330515764027303304731,
    79244008939048815603706035061, 79259858533276714757314932305,
    79291567232598584799939703904, 79355022692464371645785046466,
    79482085999252804386437311141, 79736823300114093921829183326,
    80248749790819932309965073892, 81282483887344747381513967011,
    83390072131320151908154831281, 87770609709833776024991924138,
    97234110755111693312479820773, 119332217159966728226237229890,
    179736315981702064433883588727, 407748233172238350107850275304,
    2098478828474011932436660412517, 55581415166113811149459800483533,
    38992368544603139932233054999993551]

  const NEGATIVE: seq<nat> := [
    18445821805675392311, 18444899583751176498, 18443055278223354162, 18439367220385604838, 18431993317065449817,
    18417254355718160513, 18387811781193591352, 18329067761203520168, 18212142134806087854, 17980523815641551639,
    17526086738831147013, 16651378430235024244, 15030750278693429944, 12247334978882834399, 8131365268884726200,
    3584323654723342297, 696457651847595233, 26294789957452057, 37481735321082]

  const MIN_SQRT_PRICE: nat := 4295048016

  function MaxSqrtPrice(engine: Engine): nat {
    match engine
    case Clmm => 79226673521066979257578248091
    case Whirlpool => 79226673515401279992447579055
  }

  /** Distances that survive every later shrinking factor of either Q64.64 table. */
  ghost const FALLING_GAPS: seq<nat> := [
    484405308372, 484381089921, 484332656654, 484235804649, 484042158740, 483655099209, 482881908425,
    481339233046, 478268651820, 472186128389, 460252166613, 437281471545, 394722192388, 321626986286,
    213537599022, 94127842254, 18289658608, 690526882, 984306, 1]

  /** Distances that survive every later growing factor, and the final shift by 32. */
  ghost const RISING_GAPS: seq<nat> := seq(20, j => 0x1_0000_0000 + 19 - j)

  /** The ratios of blocks of trailing ones, per table. */
  ghost const CLMM_ONES: seq<nat> := [
    18446744073709551616, 18445821805675395072, 18443977407934601305, 18440289165698571674, 18432914893692470403,
    18418175195415540256, 18388731148799056322, 18329984191681429728, 18213052719148865012, 17981422819357952666,
    17526963021261866635, 16652210978343902665, 15031501797420854576, 12247947330324981103, 8131771826986601598,
    3584502866427774895, 696492473860388424, 26296104664138151, 37483609361155]

  ghost const NEGATIVE_ONES: seq<nat> := [
    18446744073709551616, 18445821805675392311, 18443977407934598850, 18440289165698567478, 18432914893692463368,
    18418175195415529478, 18388731148799035466, 18329984191681391131, 18213052719148788671, 17981422819357802651,
    17526963021261575450, 16652210978343353594, 15031501797419866121, 12247947330323375219, 8131771826984472022,
    3584502866425897898, 696492473859659073, 26296104664083085, 37483609360998]

  ghost const POSITIVE_ONES: seq<nat> := [
    79228162514264337593543950336, 79232123823359799118286999567,
    79240047035742135098198828266, 79255895837549753882639819013,
    79287602951555555546117890668, 79351055238886287249021387662,
    79478112192985828264683945743, 79732836757937260015387211174,
    80244737654238127488718973602, 81278420067934296167840804769,
    83385902940400299275461041535, 87766221508460644832294642638,
    97229249414171470058378025113, 119326250996567256184535330018,
    179727329839858001577522965083, 407727847289508202411734771016,
    2098373912401228121358801911315, 55578636303768444659257259827406,
    38990419072385107768429658011568861]

  lemma FallingGapsDecrease()
    ensures forall j :: 0 <= j < 19 ==> FALLING_GAPS[j] >= FALLING_GAPS[j + 1]
  {
  }

  lemma ClmmSurvives()
    ensures forall j :: 0 <= j < 19 ==> Survives(FALLING_GAPS[j], CLMM_FACTORS[j], FALLING_GAPS[j + 1], Q64)
  {
    forall j | 0 <= j < 19
      ensures Survives(FALLING_GAPS[j], CLMM_FACTORS[j], FALLING_GAPS[j + 1], Q64)
    {
    }
  }

  lemma ClmmGapTable()
    ensures GapTable(CLMM_FACTORS, Q64, FALLING_GAPS)
  {
    hide Survives;
    ClmmSurvives();
    FallingGapsDecrease();
  }

  lemma ClmmOnesTable()
    ensures OnesTable(CLMM_FACTORS, Q64, CLMM_ONES)
  {
    forall k | 0 < k < 19
      ensures CLMM_ONES[k] == Shift(CLMM_ONES[k - 1], CLMM_FACTORS[k - 1], Q64)
    {
    }
  }

  lemma ClmmFlips()
    ensures Flips(CLMM_FACTORS, FALLING_GAPS, CLMM_ONES, false)
  {
    forall k | 0 <= k < 19
      ensures FlipMoves(CLMM_ONES[k], CLMM_FACTORS[k], FALLING_GAPS[k + 1], false)
    {
    }
  }

  lemma ClmmFlipTable()
    ensures FlipTable(CLMM_FACTORS, Q64, FALLING_GAPS, CLMM_ONES, false)
  {
    ClmmGapTable();
    ClmmOnesTable();
    ClmmFlips();
    hide GapTable, OnesTable, Flips;
  }

  lemma NegativeSurvives()
    ensures forall j :: 0 <= j < 19 ==> Survives(FALLING_GAPS[j], NEGATIVE[j], FALLING_GAPS[j + 1], Q64)
  {
    forall j | 0 <= j < 19
      ensures Survives(FALLING_GAPS[j], NEGATIVE[j], FALLING_GAPS[j + 1], Q64)
    {
    }
  }

  lemma NegativeGapTable()
    ensures GapTable(NEGATIVE, Q64, FALLING_GAPS)
  {
    hide Survives;
    NegativeSurvives();
    FallingGapsDecrease();
  }

  lemma NegativeOnesTable()
    ensures OnesTable(NEGATIVE, Q64, NEGATIVE_ONES)
  {
    forall k | 0 < k < 19
      ensures NEGATIVE_ONES[k] == Shift(NEGATIVE_ONES[k - 1], NEGATIVE[k - 1], Q64)
    {
    }
  }

  lemma NegativeFlips()
    ensures Flips(NEGATIVE, FALLING_GAPS, NEGATIVE_ONES, false)
  {
    forall k | 0 <= k < 19
      ensures FlipMoves(NEGATIVE_ONES[k], NEGATIVE[k], FALLING_GAPS[k + 1], false)
    {
    }
  }

  lemma NegativeFlipTable()
    ensures FlipTable(NEGATIVE, Q64, FALLING_GAPS, NEGATIVE_ONES, false)
  {
    NegativeGapTable();
    NegativeOnesTable();
    NegativeFlips();
    hide GapTable, OnesTable, Flips;
  }

  lemma PositiveSurvives()
    ensures forall j :: 0 <= j < 19 ==> Survives(RISING_GAPS[j], POSITIVE[j], RISING_GAPS[j + 1], Q96)
  {
    forall j | 0 <= j < 19
      ensures Survives(RISING_GAPS[j], POSITIVE[j], RISING_GAPS[j + 1], Q96)
    {
    }
  }

  lemma PositiveGapTable()
    ensures GapTable(POSITIVE, Q96, RISING_GAPS)
  {
    hide Survives;
    PositiveSurvives();
  }

  lemma PositiveOnesTable()
    ensures OnesTable(POSITIVE, Q96, POSITIVE_ONES)
  {
    forall k | 0 < k < 19
      ensures POSITIVE_ONES[k] == Shift(POSITIVE_ONES[k - 1], POSITIVE[k - 1], Q96)
    {
    }
  }

  lemma PositiveFlips()
    ensures Flips(POSITIVE, RISING_GAPS, POSITIVE_ONES, true)
  {
    forall k | 0 <= k < 19
      ensures FlipMoves(POSITIVE_ONES[k], POSITIVE[k], RISING_GAPS[k + 1], true)
    {
    }
  }

  lemma PositiveFlipTable()
    ensures FlipTable(POSITIVE, Q96, RISING_GAPS, POSITIVE_ONES, true)
  {
    PositiveGapTable();
    PositiveOnesTable();
    PositiveFlips();
    hide GapTable, OnesTable, Flips;
  }

  /** `MAX_TICK` shifted right bit by bit, and the partial ratios it passes through. */
  ghost const END_BITS: seq<nat> := [
    443636, 221818, 110909, 55454, 27727, 13863, 6931, 3465, 1732, 866, 433, 216,
    108, 54, 27, 13, 6, 3, 1, 0]

  ghost const CLMM_END: seq<nat> := [
    18446744073709551616, 18446744073709551616, 18446744073709551616, 18443055278223355904, 18443055278223355904,
    18428307471288122970, 18398847226801874084, 18340067951587048657, 18223072152272633034, 18223072152272633034,
    18223072152272633034, 17313578044588124205, 17313578044588124205, 17313578044588124205, 17313578044588124205,
    7631863196528592884, 1482921196046239949, 1482921196046239949, 2113820261058665, 4295048016]

  ghost const NEGATIVE_END: seq<nat> := [
    18446744073709551616, 18446744073709551616, 18446744073709551616, 18443055278223354162, 18443055278223354162,
    18428307471288117479, 18398847226801858501, 18340067951587015306, 18223072152272561885, 18223072152272561885,
    18223072152272561885, 17313578044587773368, 17313578044587773368, 17313578044587773368, 17313578044587773368,
    7631863196526440527, 1482921196045045371, 1482921196045045371, 2113820261052536, 4295048016]

  ghost const POSITIVE_END: seq<nat> := [
    79228162514264337593543950336, 79228162514264337593543950336, 79228162514264337593543950336,
    79244008939048815603706035061, 79244008939048815603706035061, 79307426338960776842885539843,
    79434413434441317004961661155, 79688997946402660867703038957, 80200617388689977366536547152,
    80200617388689977366536547152, 80200617388689977366536547152, 84413610726049114366347414816,
    84413610726049114366347414816, 84413610726049114366347414816, 84413610726049114366347414816,
    191499978405809145203445059952, 985555834813563612221638545219, 985555834813563612221638545219,
    691402984567465602855604295835822, 340275971719517849884101479037289023427]

  predicate InRange(tick: int) {
    MIN_TICK <= tick <= MAX_TICK
  }

  /** The ratio of a magnitude in each table, before reciprocal or final shift. */
  function ClmmRatio(m: nat): nat {
    Product(CLMM_FACTORS, Q64, m, 0, Q64)
  }

  function NegativeRatio(m: nat): nat {
    Product(NEGATIVE, Q64, m, 0, Q64)
  }

  function PositiveRatio(m: nat): nat {
    Product(POSITIVE, Q96, m, 0, Q96)
  }

  lemma {:induction false} NoBitsSet(factors: seq<nat>, one: nat, bit: nat, ratio: nat)
    requires one > 0 && bit <= |factors|
    ensures Product(factors, one, 0, bit, ratio) == ratio
    decreases |factors| - bit
  {
    if bit < |factors| {
      NoBitsSet(factors, one, bit + 1, ratio);
    }
  }

  lemma NineteenBits()
    ensures Power2(19) == 524288
  {
    assert Power2(4) == 16;
    assert Power2(8) == 256;
    assert Power2(12) == 4096;
    assert Power2(16) == 65536;
  }

  lemma ClmmRatioStep(m: nat)
    requires m < MAX_TICK
    ensures ClmmRatio(m + 1) < ClmmRatio(m)
  {
    NineteenBits();
    ClmmFlipTable();
    assert CLMM_ONES[0] == Q64 && FALLING_GAPS[19] == 1;
    hide Product, FlipTable, Power2;
    SuccessorGap(CLMM_FACTORS, Q64, FALLING_GAPS, CLMM_ONES, false, m, 0);
  }

  lemma NegativeRatioStep(m: nat)
    requires m < MAX_TICK
    ensures NegativeRatio(m + 1) < NegativeRatio(m)
  {
    NineteenBits();
    NegativeFlipTable();
    assert NEGATIVE_ONES[0] == Q64 && FALLING_GAPS[19] == 1;
    hide Product, FlipTable, Power2;
    SuccessorGap(NEGATIVE, Q64, FALLING_GAPS, NEGATIVE_ONES, false, m, 0);
  }

  lemma PositiveRatioStep(m: nat)
    requires m < MAX_TICK
    ensures PositiveRatio(m + 1) - PositiveRatio(m) >= 0x1_0000_0000
  {
    NineteenBits();
    PositiveFlipTable();
    assert POSITIVE_ONES[0] == Q96 && RISING_GAPS[19] == 0x1_0000_0000;
    hide Product, FlipTable, Power2;
    SuccessorGap(POSITIVE, Q96, RISING_GAPS, POSITIVE_ONES, true, m, 0);
  }

  /** `bits` and `ratios` record one evaluation of `Product`, position by position. */
  ghost predicate TraceStep(bits: nat, next: nat, ratio: nat, after: nat, factor: nat, one: nat)
    requires one > 0
  {
    next == bits / 2 && after == if bits % 2 == 1 then Shift(ratio, factor, one) else ratio
  }

  ghost predicate Trace(factors: seq<nat>, one: nat, bits: seq<nat>, ratios: seq<nat>)
    requires one > 0
  {
    && |bits| == |ratios| == |factors| + 1
    && forall j :: 0 <= j < |factors| ==>
      TraceStep(bits[j], bits[j + 1], ratios[j], ratios[j + 1], factors[j], one)
  }

  lemma {:induction false} TraceEvaluates(
      factors: seq<nat>, one: nat, bits: seq<nat>, ratios: seq<nat>, bit: nat)
    requires one > 0 && Trace(factors, one, bits, ratios) && bit <= |factors|
    ensures Product(factors, one, bits[bit], bit, ratios[bit]) == ratios[|factors|]
    decreases |factors| - bit
  {
    if bit < |factors| {
      TraceEvaluates(factors, one, bits, ratios, bit + 1);
      hide Shift;
      assert TraceStep(bits[bit], bits[bit + 1], ratios[bit], ratios[bit + 1], factors[bit], one);
    }
  }

  /** The tables evaluated at the largest magnitude give the published bounds. */
  lemma ClmmEndRatio()
    ensures ClmmRatio(443636) == MIN_SQRT_PRICE
  {
    assert Trace(CLMM_FACTORS, Q64, END_BITS, CLMM_END) by {
      forall j | 0 <= j < 19
        ensures TraceStep(END_BITS[j], END_BITS[j + 1], CLMM_END[j], CLMM_END[j + 1], CLMM_FACTORS[j], Q64)
      {
      }
    }
    hide Product, Trace;
    TraceEvaluates(CLMM_FACTORS, Q64, END_BITS, CLMM_END, 0);
  }

  lemma NegativeEndRatio()
    ensures NegativeRatio(443636) == MIN_SQRT_PRICE
  {
    assert Trace(NEGATIVE, Q64, END_BITS, NEGATIVE_END) by {
      forall j | 0 <= j < 19
        ensures TraceStep(END_BITS[j], END_BITS[j + 1], NEGATIVE_END[j], NEGATIVE_END[j + 1], NEGATIVE[j], Q64)
      {
      }
    }
    hide Product, Trace;
    TraceEvaluates(NEGATIVE, Q64, END_BITS, NEGATIVE_END, 0);
  }

  lemma PositiveEndRatio()
    ensures PositiveRatio(443636) / 0x1_0000_0000 == MaxSqrtPrice(Whirlpool)
  {
    assert Trace(POSITIVE, Q96, END_BITS, POSITIVE_END) by {
      forall j | 0 <= j < 19
        ensures TraceStep(END_BITS[j], END_BITS[j + 1], POSITIVE_END[j], POSITIVE_END[j + 1], POSITIVE[j], Q96)
      {
      }
    }
    hide Product, Trace;
    TraceEvaluates(POSITIVE, Q96, END_BITS, POSITIVE_END, 0);
  }

  lemma RatiosAtZero()
    ensures ClmmRatio(0) == Q64 && NegativeRatio(0) == Q64 && PositiveRatio(0) == Q96
  {
    hide Product;
    NoBitsSet(CLMM_FACTORS, Q64, 0, Q64);
    NoBitsSet(NEGATIVE, Q64, 0, Q64);
    NoBitsSet(POSITIVE, Q96, 0, Q96);
  }

  /** Every CLMM ratio is positive, and below one as soon as a bit is set. */
  lemma {:induction false} ClmmRatioBounds(m: nat)
    requires m <= MAX_TICK
    ensures 0 < ClmmRatio(m) && ClmmRatio(m) + m <= Q64
  {
    hide ClmmRatio;
    if m == 0 {
      RatiosAtZero();
    } else {
      ClmmRatioBounds(m - 1);
      ClmmRatioStep(m - 1);
    }
    if m < MAX_TICK {
      ClmmRatioStep(m);
    } else {
      ClmmEndRatio();
    }
  }

  /** The square-root price of a tick, as each engine computes it. */
  function Price(engine: Engine, tick: int): nat
    requires InRange(tick)
  {
    match engine
    case Clmm =>
      ClmmRatioBounds(Abs(tick));
      var ratio := ClmmRatio(Abs(tick));
      if tick > 0 then Reciprocal(ratio) else ratio
    case Whirlpool =>
      if tick >= 0 then PositiveRatio(tick) / 0x1_0000_0000 else NegativeRatio(-tick)
  }

  function Reciprocal(ratio: nat): nat
    requires ratio > 0
  {
    FloorGe(U128, ratio, 0);
    U128 / ratio
  }

  /** Distinct ratios below one have distinct reciprocals. */
  lemma ReciprocalSeparates(low: nat, high: nat)
    requires 0 < low < high < Q64
    ensures Reciprocal(high) < Reciprocal(low)
  {
    var q := Reciprocal(high);
    FloorBounds(U128, high);
    assert q >= Q64 + 1 by {
      FloorGe(U128, high, Q64 + 1);
      MulMono(high, Q64 - 1, Q64 + 1);
    }
    assert (q + 1) * low <= U128 by {
      MulMono(low, high - 1, q);
    }
    FloorGe(U128, low, q + 1);
  }

  lemma ClmmAdjacent(tick: int)
    requires MIN_TICK <= tick < MAX_TICK
    ensures Price(Clmm, tick) < Price(Clmm, tick + 1)
  {
    hide ClmmRatio, Reciprocal;
    if tick < 0 {
      ClmmRatioStep(-tick - 1);
    } else {
      ClmmRatioBounds(tick);
      ClmmRatioBounds(tick + 1);
      if tick == 0 {
        RatiosAtZero();
        FirstReciprocal(ClmmRatio(1));
      } else {
        ClmmRatioStep(tick);
        ReciprocalSeparates(ClmmRatio(tick + 1), ClmmRatio(tick));
      }
    }
  }

  lemma FirstReciprocal(ratio: nat)
    requires 0 < ratio < Q64
    ensures Reciprocal(ratio) > Q64
  {
    FloorGe(U128, ratio, Q64 + 1);
    MulMono(ratio, Q64 - 1, Q64 + 1);
  }

  lemma WhirlpoolAdjacent(tick: int)
    requires MIN_TICK <= tick < MAX_TICK
    ensures Price(Whirlpool, tick) < Price(Whirlpool, tick + 1)
  {
    hide PositiveRatio, NegativeRatio;
    if tick >= 0 {
      PositiveRatioStep(tick);
    } else {
      RatiosAtZero();
      NegativeRatioStep(-tick - 1);
    }
  }

  /** The price map is strictly increasing over the whole tick range. */
  lemma {:induction false} PriceIncreases(engine: Engine, low: int, high: int)
    requires MIN_TICK <= low < high <= MAX_TICK
    ensures Price(engine, low) < Price(engine, high)
    decreases high - low
  {
    hide Price;
    if engine == Clmm {
      ClmmAdjacent(high - 1);
    } else {
      WhirlpoolAdjacent(high - 1);
    }
    if low < high - 1 {
      PriceIncreases(engine, low, high - 1);
    }
  }

  /** The ends of the tick range carry the published price bounds. */
  lemma PriceBounds(engine: Engine)
    ensures Price(engine, MIN_TICK) == MIN_SQRT_PRICE
    ensures Price(engine, MAX_TICK) == MaxSqrtPrice(engine)
  {
    hide ClmmRatio, PositiveRatio, NegativeRatio;
    ClmmEndRatio();
    NegativeEndRatio();
    PositiveEndRatio();
  }

  /** Comparing prices is comparing ticks. */
  lemma PriceOrder(engine: Engine, s: int, t: int)
    requires InRange(s) && InRange(t)
    ensures Price(engine, s) <= Price(engine, t) <==> s <= t
  {
    hide Price;
    if s < t {
      PriceIncreases(engine, s, t);
    } else if t < s {
      PriceIncreases(engine, t, s);
    }
  }

  /** The tick-to-price entry point: refuses ticks outside the range. */
  method SqrtPriceAtTick(engine: Engine, tick: int) returns (r: Result<nat>)
    ensures r == if InRange(tick) then Ok(Price(engine, tick)) else Err(TickOutsideRange)
  {
    hide Product;
    if !InRange(tick) {
      return Err(TickOutsideRange);
    }
    match engine {
      case Clmm =>
        var ratio := Multiply(CLMM_FACTORS, Q64, Abs(tick));
        ClmmRatioBounds(Abs(tick));
        r := Ok(if tick > 0 then Reciprocal(ratio) else ratio);
      case Whirlpool =>
        if tick >= 0 {
          var ratio := Multiply(POSITIVE, Q96, tick);
          r := Ok(ratio / 0x1_0000_0000);
        } else {
          var ratio := Multiply(NEGATIVE, Q64, -tick);
          r := Ok(ratio);
        }
    }
  }

  /** `tick` is the greatest tick whose price does not exceed `price`. */
  predicate Brackets(engine: Engine, price: int, tick: int) {
    && InRange(tick)
    && Price(engine, tick) <= price
    && (tick < MAX_TICK ==> price < Price(engine, tick + 1))
  }

  lemma BracketUnique(engine: Engine, price: int, s: int, t: int)
    requires Brackets(engine, price, s) && Brackets(engine, price, t)
    ensures s == t
  {
    hide Price;
    if s < t {
      PriceOrder(engine, s + 1, t);
    } else if t < s {
      PriceOrder(engine, t + 1, s);
    }
  }

  /** The greatest tick whose price does not exceed `price`, by halving `lo..hi`. */
  function Bisect(engine: Engine, price: int, lo: int, hi: int): (tick: int)
    requires MIN_TICK <= lo <= hi <= MAX_TICK
    requires Price(engine, lo) <= price
    requires hi < MAX_TICK ==> price < Price(engine, hi + 1)
    ensures Brackets(engine, price, tick)
    decreases hi - lo
  {
    hide Price;
    if lo == hi then lo
    else
      var middle := (lo + hi + 1) / 2;
      if Price(engine, middle) <= price then Bisect(engine, price, middle, hi)
      else Bisect(engine, price, lo, middle - 1)
  }

  predicate PriceInRange(engine: Engine, price: int) {
    && MIN_SQRT_PRICE <= price
    && if engine == Clmm then price < MaxSqrtPrice(engine) else price <= MaxSqrtPrice(engine)
  }

  function TickAt(engine: Engine, price: int): (r: Result<int>)
    ensures r.Ok? <==> PriceInRange(engine, price)
    ensures r.Ok? ==> Brackets(engine, price, r.value)
    ensures r.Err? ==> r.error == PriceOutsideRange
  {
    hide Price;
    if !PriceInRange(engine, price) then Err(PriceOutsideRange)
    else
      PriceBounds(engine);
      Ok(Bisect(engine, price, MIN_TICK, MAX_TICK))
  }

  /** The price-to-tick entry point: the binary search over the whole range. */
  method TickAtSqrtPrice(engine: Engine, price: int) returns (r: Result<int>)
    ensures r == TickAt(engine, price)
  {
    hide Price, TickAt;
    if !PriceInRange(engine, price) {
      return Err(PriceOutsideRange);
    }
    PriceBounds(engine);
    var lo, hi := MIN_TICK, MAX_TICK;
    while lo < hi
      invariant MIN_TICK <= lo <= hi <= MAX_TICK
      invariant Price(engine, lo) <= price
      invariant hi < MAX_TICK ==> price < Price(engine, hi + 1)
    {
      var middle := (lo + hi + 1) / 2;
      var at := SqrtPriceAtTick(engine, middle);
      if at.value <= price {
        lo := middle;
      } else {
        hi := middle - 1;
      }
    }
    BracketUnique(engine, price, lo, TickAt(engine, price).value);
    r := Ok(lo);
  }

  /** The two maps are inverse: searching a tick's own price finds that tick.
      CLMM refuses the price of the last tick, which its half-open range excludes. */
  lemma TickAtInvertsPrice(engine: Engine, tick: int)
    requires InRange(tick)
    ensures engine == Whirlpool || tick < MAX_TICK ==> TickAt(engine, Price(engine, tick)) == Ok(tick)
    ensures engine == Clmm && tick == MAX_TICK ==> TickAt(engine, Price(engine, tick)) == Err(PriceOutsideRange)
  {
    hide Price;
    PriceBounds(engine);
    PriceOrder(engine, MIN_TICK, tick);
    PriceOrder(engine, tick, MAX_TICK);
    PriceOrder(engine, MAX_TICK, tick);
    if tick < MAX_TICK {
      PriceIncreases(engine, tick, tick + 1);
    }
    if engine == Whirlpool || tick < MAX_TICK {
      BracketUnique(engine, Price(engine, tick), tick, TickAt(engine, Price(engine, tick)).value);
    }
  }
}
