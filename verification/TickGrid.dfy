/** What the two tick-to-price maps compute: the square root of 1.0001 to the tick, in Q64.64.
    Every price is within a few parts in 2^32 of it, the Whirlpool tables hold its exact
    floors at the powers of two, and the CLMM table is pinned entry by entry. */
module TickGrid {
  import opened Rounding
  import opened BitProduct
  import opened TickPrice

  /** Relative errors are counted in parts of 2^32. */
  const PART: nat := 0x1_0000_0000
  const ONE192: nat := 0x1_0000_0000_0000_0000_0000_0000_0000_0000_0000_0000_0000_0000

  // ----- comparing fixed-point numbers with roots of fractions -----

  /** `u^2 * a` is at most `v^2 * b`. */
  predicate RootLe(u: nat, a: nat, v: nat, b: nat) {
    u * u * a <= v * v * b
  }

  lemma RootMul(u: nat, a: nat, v: nat, b: nat, u': nat, a': nat, v': nat, b': nat)
    requires RootLe(u, a, v, b) && RootLe(u', a', v', b')
    ensures RootLe(u * u', a * a', v * v', b * b')
  {
    var l, r, l', r' := u * u * a, v * v * b, u' * u' * a', v' * v' * b';
    MulMono(l, r, l');
    MulMono(l', r', r);
    Regroup(u, a, u', a');
    Regroup(v, b, v', b');
  }

  lemma Regroup(u: nat, a: nat, u': nat, a': nat)
    ensures (u * u') * (u * u') * (a * a') == (u * u * a) * (u' * u' * a')
  {
    assert (u * u') * (u * u') == (u * u) * (u' * u');
    assert (u * u) * (u' * u') * (a * a') == (u * u * a) * (u' * u' * a') by {
      Regroup4(u * u, u' * u', a, a');
    }
  }

  lemma Regroup4(a: nat, b: nat, c: nat, d: nat)
    ensures (a * b) * (c * d) == (a * c) * (b * d)
  {
    assert (a * b) * (c * d) == a * (b * (c * d));
    assert b * (c * d) == c * (b * d);
  }

  lemma RootWeaken(u: nat, a: nat, v: nat, b: nat, u': nat, v': nat)
    requires RootLe(u, a, v, b) && u' <= u && v <= v'
    ensures RootLe(u', a, v', b)
  {
    SquareMono(u', u, a);
    SquareMono(v, v', b);
  }

  lemma SquareMono(u: nat, v: nat, a: nat)
    requires u <= v
    ensures u * u * a <= v * v * a
  {
    MulMono(u, v, u);
    MulMono(u, v, v);
    MulMono(u * u, v * v, a);
  }

  lemma RootScale(t: nat, u: nat, a: nat, v: nat, b: nat)
    requires 0 < t && RootLe(t * u, a, t * v, b)
    ensures RootLe(u, a, v, b)
  {
    ScaledSquare(t, u, a);
    ScaledSquare(t, v, b);
    MulStrict(0, t, t);
    MulCancel(u * u * a, v * v * b, t * t);
  }

  lemma ScaledSquare(t: nat, u: nat, a: nat)
    ensures (t * u) * (t * u) * a == (u * u * a) * (t * t)
  {
    assert (t * u) * (t * u) == (t * t) * (u * u);
  }

  // ----- powers -----

  lemma PowerStep(base: nat, e: nat)
    ensures Power(base, 0) == 1 && Power(base, e + 1) == base * Power(base, e)
  {
  }

  lemma {:induction false} PowerAdds(base: nat, p: nat, q: nat)
    ensures Power(base, p + q) == Power(base, p) * Power(base, q)
  {
    hide Power;
    if q == 0 {
      PowerStep(base, p);
    } else {
      PowerAdds(base, p, q - 1);
      PowerStep(base, p + q - 1);
      PowerStep(base, q - 1);
      Exchange(base, Power(base, p), Power(base, q - 1));
    }
  }

  lemma Exchange(a: nat, b: nat, c: nat)
    ensures a * (b * c) == b * (a * c)
  {
    assert (a * b) * c == (b * a) * c;
  }

  /** `value` is `unit` times the square root of `(x / y)^p`, up to `c` parts either way. */
  ghost predicate Near(value: nat, unit: nat, x: nat, y: nat, p: nat, c: nat) {
    && RootLe(PART * value, Power(y, p), (PART + c) * unit, Power(x, p))
    && RootLe(PART * unit, Power(x, p), (PART + c) * value, Power(y, p))
  }

  lemma NearWeaken(value: nat, unit: nat, x: nat, y: nat, p: nat, c: nat, c': nat)
    requires Near(value, unit, x, y, p, c) && c <= c'
    ensures Near(value, unit, x, y, p, c')
  {
    hide RootLe, Power;
    MulMono(PART + c, PART + c', unit);
    MulMono(PART + c, PART + c', value);
    RootWeaken(PART * value, Power(y, p), (PART + c) * unit, Power(x, p), PART * value, (PART + c') * unit);
    RootWeaken(PART * unit, Power(x, p), (PART + c) * value, Power(y, p), PART * unit, (PART + c') * value);
  }

  lemma NearOne(unit: nat, x: nat, y: nat)
    ensures Near(unit, unit, x, y, 0, 0)
  {
  }

  /** The errors of the two factors and of the floor add up to at most two more parts. */
  lemma PartsAdd(c: nat)
    requires c <= 100
    ensures (PART + c) * (PART + 1) <= PART * (PART + c + 3)
    ensures (PART + c) * (PART + 1) * (PART + 1) <= PART * PART * (PART + c + 3)
  {
  }

  lemma UpperProduct(r: nat, f: nat, s: nat, one: nat, c: nat)
    requires s * one <= r * f && c <= 100
    ensures PART * one * (PART * s) <= PART * r * (PART * f)
    ensures (PART + c) * one * ((PART + 1) * one) <= PART * one * ((PART + c + 3) * one)
  {
    PartsAdd(c);
    assert PART * one * (PART * s) == (s * one) * (PART * PART);
    assert PART * r * (PART * f) == (r * f) * (PART * PART);
    MulMono((PART + c) * (PART + 1), PART * (PART + c + 3), one * one);
    assert (PART + c) * one * ((PART + 1) * one) == ((PART + c) * (PART + 1)) * (one * one) by {
      Regroup4(PART + c, one, PART + 1, one);
    }
    assert PART * one * ((PART + c + 3) * one) == (PART * (PART + c + 3)) * (one * one) by {
      Regroup4(PART, one, PART + c + 3, one);
    }
  }

  lemma LowerProduct(r: nat, f: nat, s: nat, one: nat, c: nat)
    requires r * f < (s + 1) * one && PART <= s && c <= 100
    ensures (PART + c) * r * ((PART + 1) * f) <= PART * one * ((PART + c + 3) * s)
  {
    var d, e := (PART + c) * (PART + 1), PART * (PART + c + 3);
    assert (PART + c) * r * ((PART + 1) * f) == d * (r * f) by {
      Regroup4(PART + c, r, PART + 1, f);
    }
    assert PART * one * ((PART + c + 3) * s) == e * (one * s) by {
      Regroup4(PART, one, PART + c + 3, s);
    }
    PartsAdd(c);
    assert PART * (s + 1) <= (PART + 1) * s;
    MulMono(r * f, (s + 1) * one, d * PART);
    MulMono(PART * (s + 1), (PART + 1) * s, d * one);
    MulMono(d * (PART + 1), PART * e, one * s);
    assert d * (r * f) * PART <= e * (one * s) * PART by {
      assert d * (r * f) * PART == (r * f) * (d * PART);
      assert (s + 1) * one * (d * PART) == PART * (s + 1) * (d * one);
      assert (PART + 1) * s * (d * one) == d * (PART + 1) * (one * s);
      assert PART * e * (one * s) == e * (one * s) * PART;
    }
    MulCancel(d * (r * f), e * (one * s), PART);
  }

  lemma UpperStep(r: nat, f: nat, s: nat, one: Pos, c: nat, a: nat, b: nat, a': nat, b': nat)
    requires s * one <= r * f && c <= 100
    requires RootLe(PART * r, a, (PART + c) * one, b) && RootLe(PART * f, a', (PART + 1) * one, b')
    ensures RootLe(PART * s, a * a', (PART + c + 3) * one, b * b')
  {
    hide RootLe;
    UpperProduct(r, f, s, one, c);
    RootMul(PART * r, a, (PART + c) * one, b, PART * f, a', (PART + 1) * one, b');
    RootWeaken(PART * r * (PART * f), a * a', (PART + c) * one * ((PART + 1) * one), b * b',
               PART * one * (PART * s), PART * one * ((PART + c + 3) * one));
    RootScale(PART * one, PART * s, a * a', (PART + c + 3) * one, b * b');
  }

  lemma LowerStep(r: nat, f: nat, s: nat, one: Pos, c: nat, a: nat, b: nat, a': nat, b': nat)
    requires r * f < (s + 1) * one && PART <= s && c <= 100
    requires RootLe(PART * one, b, (PART + c) * r, a) && RootLe(PART * one, b', (PART + 1) * f, a')
    ensures RootLe(PART * one, b * b', (PART + c + 3) * s, a * a')
  {
    hide RootLe;
    LowerProduct(r, f, s, one, c);
    RootMul(PART * one, b, (PART + c) * r, a, PART * one, b', (PART + 1) * f, a');
    RootWeaken(PART * one * (PART * one), b * b', (PART + c) * r * ((PART + 1) * f), a * a',
               PART * one * (PART * one), PART * one * ((PART + c + 3) * s));
    RootScale(PART * one, PART * one, b * b', (PART + c + 3) * s, a * a');
  }

  lemma ShiftBounds(ratio: nat, factor: nat, one: Pos)
    ensures Shift(ratio, factor, one) * one <= ratio * factor < (Shift(ratio, factor, one) + 1) * one
  {
    FloorBounds(ratio * factor, one);
  }

  /** One multiply-and-shift by a near factor keeps a near ratio near. */
  lemma ShiftKeepsNear(ratio: nat, factor: nat, one: Pos, x: nat, y: nat, p: nat, q: nat, c: nat)
    requires c <= 100 && PART <= Shift(ratio, factor, one)
    requires Near(ratio, one, x, y, p, c) && Near(factor, one, x, y, q, 1)
    ensures Near(Shift(ratio, factor, one), one, x, y, p + q, c + 3)
  {
    hide Shift, RootLe, Power;
    var s := Shift(ratio, factor, one);
    ShiftBounds(ratio, factor, one);
    PowerAdds(x, p, q);
    PowerAdds(y, p, q);
    UpperStep(ratio, factor, s, one, c, Power(y, p), Power(x, p), Power(y, q), Power(x, q));
    LowerStep(ratio, factor, s, one, c, Power(y, p), Power(x, p), Power(y, q), Power(x, q));
  }

  // ----- whole products -----

  /** Every factor is the power its position stands for, up to one part. */
  ghost predicate GridTable(factors: seq<nat>, one: nat, x: nat, y: nat) {
    forall j :: 0 <= j < |factors| ==> Near(factors[j], one, x, y, Power2(j), 1)
  }

  predicate Shrinking(factors: seq<nat>, one: nat) {
    forall j :: 0 <= j < |factors| ==> factors[j] <= one
  }

  predicate Growing(factors: seq<nat>, one: nat) {
    forall j :: 0 <= j < |factors| ==> one <= factors[j]
  }

  lemma ShiftMoves(ratio: nat, factor: nat, one: nat)
    requires one > 0
    ensures factor <= one ==> Shift(ratio, factor, one) <= ratio
    ensures one <= factor ==> ratio <= Shift(ratio, factor, one)
  {
    FloorGe(ratio * factor, one, ratio);
    FloorGe(ratio * factor, one, ratio + 1);
    if factor <= one {
      MulMono(factor, one, ratio);
    } else {
      MulMono(one, factor, ratio);
    }
  }

  lemma {:induction false} ProductShrinks(factors: seq<nat>, one: nat, m: nat, bit: nat, ratio: nat)
    requires one > 0 && bit <= |factors| && Shrinking(factors, one)
    ensures Product(factors, one, m, bit, ratio) <= ratio
    decreases |factors| - bit
  {
    if bit < |factors| {
      ShiftMoves(ratio, factors[bit], one);
      hide Shift;
      ProductShrinks(factors, one, m / 2, bit + 1, if m % 2 == 1 then Shift(ratio, factors[bit], one) else ratio);
    }
  }

  /** Every ratio on the way is large enough for its floor to cost at most one part. */
  ghost predicate Resolved(factors: seq<nat>, one: nat, m: nat, bit: nat, ratio: nat)
    requires one > 0 && bit <= |factors|
  {
    || (Shrinking(factors, one) && PART <= Product(factors, one, m, bit, ratio))
    || (Growing(factors, one) && PART <= ratio)
  }

  lemma ResolvedStep(factors: seq<nat>, one: nat, m: nat, bit: nat, ratio: nat)
    requires one > 0 && bit < |factors| && Resolved(factors, one, m, bit, ratio)
    ensures
      var next := if m % 2 == 1 then Shift(ratio, factors[bit], one) else ratio;
      PART <= next && Resolved(factors, one, m / 2, bit + 1, next)
  {
    ShiftMoves(ratio, factors[bit], one);
    hide Shift;
    var next := if m % 2 == 1 then Shift(ratio, factors[bit], one) else ratio;
    if Shrinking(factors, one) {
      ProductShrinks(factors, one, m / 2, bit + 1, next);
    }
  }

  /** The product over the bits of `m` is the `m`th power, up to three parts a factor. */
  lemma {:induction false} ProductIsNear(
      factors: seq<nat>, one: nat, x: nat, y: nat, m: nat, bit: nat, ratio: nat, p: nat, c: nat)
    requires one > 0 && bit <= |factors| && GridTable(factors, one, x, y)
    requires m < Power2(|factors| - bit) && Resolved(factors, one, m, bit, ratio)
    requires Near(ratio, one, x, y, p, c) && c + 3 * (|factors| - bit) <= 100
    ensures Near(Product(factors, one, m, bit, ratio), one, x, y, p + m * Power2(bit), c + 3 * (|factors| - bit))
    decreases |factors| - bit
  {
    hide Near;
    if bit < |factors| {
      ResolvedStep(factors, one, m, bit, ratio);
      hide Shift, Resolved, Growing, Shrinking;
      var next := if m % 2 == 1 then Shift(ratio, factors[bit], one) else ratio;
      if m % 2 == 1 {
        ShiftKeepsNear(ratio, factors[bit], one, x, y, p, Power2(bit), c);
        assert m * Power2(bit) == Power2(bit) + m / 2 * Power2(bit + 1) by {
          assert m == 2 * (m / 2) + 1;
          Halved(m / 2, Power2(bit));
        }
        ProductIsNear(factors, one, x, y, m / 2, bit + 1, next, p + Power2(bit), c + 3);
      } else {
        NearWeaken(ratio, one, x, y, p, c, c + 3);
        assert m * Power2(bit) == m / 2 * Power2(bit + 1) by {
          assert m == 2 * (m / 2);
          Halved(m / 2, Power2(bit));
        }
        ProductIsNear(factors, one, x, y, m / 2, bit + 1, next, p, c + 3);
      }
    }
  }

  lemma Halved(h: nat, p: nat)
    ensures (2 * h) * p == h * (2 * p) && (2 * h + 1) * p == p + h * (2 * p)
  {
  }

  // ----- the true powers, by repeated squaring -----

  /** Bounds, in parts of 2^192, on 1.0001 to the powers of two. */
  ghost const GROWTH_LOW: seq<nat> := [
    6277729445560219431912173002149987182743965680008480916347,
    6278357218504775453855364219450202181462240076576481764438,
    6279612952732048593993889830847734416400554339214197826554,
    6282125174715037657126626493994298319743553567422187715946,
    6287152634201701595641302907078679116921104262721512909846,
    6297219626521535371841803138079884767835819635033240482997,
    6317401994792618667968533496785112136183510751086497847162,
    6357960989993617863769008224813818884022464101347349270074,
    6439861842989622129674920165827128006141643486700900841265,
    6606842186896458475735107781258519883308927836902614236532,
    6953904130066777862588919832585969272091659429769743605790,
    7703679928835967124830270389281548012908668013673878845684,
    9454472294337327469857523909033247506210922892125742295133,
    14240178052313457676536086561048319850147949602293016639699,
    32305143282674248942216538067294638670672331726315416564093,
    166258621655082054852288667615438598460903596740735137863704,
    4403613393553661593100083965477706681607844721725791272916144,
    3089293711867906377053302647583390725572503701032551401777502113,
    1520404804718156388978832708695395030457808537931054259900089420056828]

  ghost const GROWTH_HIGH: seq<nat> := [
    6277729445560219431912173002149987182743965680008480916348,
    6278357218504775453855364219450202181462240076576481764441,
    6279612952732048593993889830847734416400554339214197826561,
    6282125174715037657126626493994298319743553567422187715961,
    6287152634201701595641302907078679116921104262721512909877,
    6297219626521535371841803138079884767835819635033240483060,
    6317401994792618667968533496785112136183510751086497847290,
    6357960989993617863769008224813818884022464101347349270332,
    6439861842989622129674920165827128006141643486700900841788,
    6606842186896458475735107781258519883308927836902614237606,
    6953904130066777862588919832585969272091659429769743608052,
    7703679928835967124830270389281548012908668013673878850697,
    9454472294337327469857523909033247506210922892125742307438,
    14240178052313457676536086561048319850147949602293016676767,
    32305143282674248942216538067294638670672331726315416732278,
    166258621655082054852288667615438598460903596740735139594835,
    4403613393553661593100083965477706681607844721725791364619439,
    3089293711867906377053302647583390725572503701032551530443843721,
    1520404804718156388978832708695395030457808537931054386547111187390470]

  lemma ChainHolds()
    ensures forall j :: 0 <= j < 18 ==>
      && GROWTH_LOW[j + 1] * ONE192 <= GROWTH_LOW[j] * GROWTH_LOW[j]
      && GROWTH_HIGH[j] * GROWTH_HIGH[j] <= GROWTH_HIGH[j + 1] * ONE192
  {
    forall j | 0 <= j < 18
      ensures GROWTH_LOW[j + 1] * ONE192 <= GROWTH_LOW[j] * GROWTH_LOW[j]
      ensures GROWTH_HIGH[j] * GROWTH_HIGH[j] <= GROWTH_HIGH[j + 1] * ONE192
    {
    }
  }

  lemma SquareBounds(low: nat, high: nat, one: nat, a: nat, b: nat)
    requires low * a <= one * b <= high * a
    ensures (low * low) * (a * a) <= (one * one) * (b * b) <= (high * high) * (a * a)
  {
    Regroup4(low, low, a, a);
    Regroup4(one, one, b, b);
    Regroup4(high, high, a, a);
    MulMono(low * a, one * b, low * a);
    MulMono(low * a, one * b, one * b);
    MulMono(one * b, high * a, one * b);
    MulMono(one * b, high * a, high * a);
  }

  lemma Rescale(low: nat, high: nat, low': nat, high': nat, one: nat, a: nat, b: nat)
    requires 0 < one && low * a <= one * one * b <= high * a
    requires low' * one <= low && high <= high' * one
    ensures low' * a <= one * b <= high' * a
  {
    MulMono(low' * one, low, a);
    MulMono(high, high' * one, a);
    assert low' * one * a == low' * a * one && high' * one * a == high' * a * one && one * one * b == one * b * one;
    MulCancel(low' * a, one * b, one);
    MulCancel(one * b, high' * a, one);
  }

  lemma {:induction false} GrowthBounds(j: nat)
    requires j < 19
    ensures GROWTH_LOW[j] * Power(10000, Power2(j)) <= ONE192 * Power(10001, Power2(j)) <= GROWTH_HIGH[j] * Power(10000, Power2(j))
  {
    if j == 0 {
      assert Power(10000, 1) == 10000 * Power(10000, 0) && Power(10001, 1) == 10001 * Power(10001, 0);
    } else {
      GrowthBounds(j - 1);
      ChainHolds();
      PowerAdds(10000, Power2(j - 1), Power2(j - 1));
      PowerAdds(10001, Power2(j - 1), Power2(j - 1));
      assert Power2(j) == Power2(j - 1) + Power2(j - 1);
      var low, high, a, b := GROWTH_LOW[j - 1], GROWTH_HIGH[j - 1], Power(10000, Power2(j - 1)), Power(10001, Power2(j - 1));
      var low', high' := GROWTH_LOW[j], GROWTH_HIGH[j];
      hide Power, Power2;
      SquareBounds(low, high, ONE192, a, b);
      Rescale(low * low, high * high, low', high', ONE192, a * a, b * b);
    }
  }

  // ----- the three tables -----

  /** `f` is the floor of `one` times the square root of `b / a`, which lies in these bounds. */
  predicate FloorUp(f: nat, one: nat, low: nat, high: nat) {
    f * f * ONE192 <= one * one * low && one * one * high < (f + 1) * (f + 1) * ONE192
  }

  predicate FloorDown(f: nat, one: nat, low: nat, high: nat) {
    f * f * high <= one * one * ONE192 < (f + 1) * (f + 1) * low
  }

  predicate PartDown(f: nat, one: nat, low: nat, high: nat) {
    f * f * high * PART <= one * one * ONE192 * (PART + 1) && one * one * ONE192 * PART <= f * f * low * (PART + 1)
  }

  lemma PositiveFloors()
    ensures forall j :: 0 <= j < 19 ==> FloorUp(POSITIVE[j], Q96, GROWTH_LOW[j], GROWTH_HIGH[j])
  {
    forall j | 0 <= j < 19
      ensures FloorUp(POSITIVE[j], Q96, GROWTH_LOW[j], GROWTH_HIGH[j])
    {
    }
  }

  lemma NegativeFloors()
    ensures forall j :: 0 <= j < 19 ==> FloorDown(NEGATIVE[j], Q64, GROWTH_LOW[j], GROWTH_HIGH[j])
  {
    forall j | 0 <= j < 19
      ensures FloorDown(NEGATIVE[j], Q64, GROWTH_LOW[j], GROWTH_HIGH[j])
    {
    }
  }

  lemma ClmmParts()
    ensures forall j :: 0 <= j < 19 ==> PartDown(CLMM_FACTORS[j], Q64, GROWTH_LOW[j], GROWTH_HIGH[j])
  {
    forall j | 0 <= j < 19
      ensures PartDown(CLMM_FACTORS[j], Q64, GROWTH_LOW[j], GROWTH_HIGH[j])
    {
    }
  }

  lemma BoundAbove(n: nat, k: nat, low: nat, one: Pos, a: nat, b: nat)
    requires n * one <= k * low && low * a <= one * b
    ensures n * a <= k * b
    ensures n * one < k * low && 0 < a ==> n * a < k * b
  {
    MulMono(n * one, k * low, a);
    MulMono(low * a, one * b, k);
    assert n * one * a == n * a * one && k * low * a == low * a * k && one * b * k == k * b * one;
    MulCancel(n * a, k * b, one);
    if n * one < k * low && 0 < a {
      MulStrict(n * one, k * low, a);
    }
  }

  lemma BoundBelow(n: nat, k: nat, high: nat, one: Pos, a: nat, b: nat)
    requires k * high <= n * one && one * b <= high * a
    ensures k * b <= n * a
    ensures k * high < n * one && 0 < a ==> k * b < n * a
  {
    MulMono(k * high, n * one, a);
    MulMono(one * b, high * a, k);
    assert n * one * a == n * a * one && k * high * a == high * a * k && one * b * k == k * b * one;
    MulCancel(k * b, n * a, one);
    if k * high < n * one && 0 < a {
      MulStrict(k * high, n * one, a);
    }
  }

  /** `value` is the floor of `unit` times the square root of `(x / y)^p`. */
  ghost predicate FloorOfPower(value: nat, unit: nat, x: nat, y: nat, p: nat) {
    value * value * Power(y, p) <= unit * unit * Power(x, p) < (value + 1) * (value + 1) * Power(y, p)
  }

  lemma PositiveEntry(j: nat)
    requires j < 19
    ensures FloorOfPower(POSITIVE[j], Q96, 10001, 10000, Power2(j))
  {
    hide Power, Power2;
    PositiveFloors();
    GrowthBounds(j);
    var f, a, b := POSITIVE[j], Power(10000, Power2(j)), Power(10001, Power2(j));
    BoundAbove(f * f, Q96 * Q96, GROWTH_LOW[j], ONE192, a, b);
    BoundBelow((f + 1) * (f + 1), Q96 * Q96, GROWTH_HIGH[j], ONE192, a, b);
  }

  lemma NegativeEntry(j: nat)
    requires j < 19
    ensures FloorOfPower(NEGATIVE[j], Q64, 10000, 10001, Power2(j))
  {
    hide Power, Power2;
    NegativeFloors();
    GrowthBounds(j);
    var f, a, b := NEGATIVE[j], Power(10000, Power2(j)), Power(10001, Power2(j));
    BoundBelow(Q64 * Q64, f * f, GROWTH_HIGH[j], ONE192, a, b);
    BoundAbove(Q64 * Q64, (f + 1) * (f + 1), GROWTH_LOW[j], ONE192, a, b);
  }

  /** A floor that is not small is near. */
  lemma FloorIsNear(value: nat, unit: nat, x: nat, y: nat, p: nat)
    requires FloorOfPower(value, unit, x, y, p) && PART <= value
    ensures Near(value, unit, x, y, p, 1)
  {
    hide Power;
    ScaledSquare(PART, value, Power(y, p));
    ScaledSquare(PART, unit, Power(x, p));
    ScaledSquare(PART, value + 1, Power(y, p));
    MulMono(value * value * Power(y, p), unit * unit * Power(x, p), PART * PART);
    MulMono(unit * unit * Power(x, p), (value + 1) * (value + 1) * Power(y, p), PART * PART);
    RootWeaken(PART * value, Power(y, p), PART * unit, Power(x, p), PART * value, (PART + 1) * unit);
    RootWeaken(PART * unit, Power(x, p), PART * (value + 1), Power(y, p), PART * unit, (PART + 1) * value);
  }

  lemma RootFromPart(u: nat, a: nat, v: nat, b: nat)
    requires u * u * PART * a <= v * v * (PART + 1) * b
    ensures RootLe(PART * u, a, (PART + 1) * v, b)
  {
    ScaledSquare(PART, u, a);
    ScaledSquare(PART + 1, v, b);
    assert u * u * a * (PART * PART) == (u * u * PART * a) * PART;
    assert v * v * b * ((PART + 1) * (PART + 1)) == (v * v * (PART + 1) * b) * (PART + 1);
    MulMono(u * u * PART * a, v * v * (PART + 1) * b, PART);
  }

  lemma ClmmEntry(j: nat)
    requires j < 19
    ensures Near(CLMM_FACTORS[j], Q64, 10000, 10001, Power2(j), 1)
  {
    hide Power, Power2, RootLe;
    ClmmParts();
    GrowthBounds(j);
    var f, a, b := CLMM_FACTORS[j], Power(10000, Power2(j)), Power(10001, Power2(j));
    BoundBelow(Q64 * Q64 * (PART + 1), f * f * PART, GROWTH_HIGH[j], ONE192, a, b);
    BoundAbove(Q64 * Q64 * PART, f * f * (PART + 1), GROWTH_LOW[j], ONE192, a, b);
    RootFromPart(f, b, Q64, a);
    RootFromPart(Q64, a, f, b);
  }

  lemma ClmmGrid()
    ensures GridTable(CLMM_FACTORS, Q64, 10000, 10001) && Shrinking(CLMM_FACTORS, Q64)
  {
    hide Near, Power2;
    forall j | 0 <= j < 19
      ensures Near(CLMM_FACTORS[j], Q64, 10000, 10001, Power2(j), 1)
    {
      ClmmEntry(j);
    }
  }

  lemma NegativeGrid()
    ensures GridTable(NEGATIVE, Q64, 10000, 10001) && Shrinking(NEGATIVE, Q64)
  {
    hide Near, FloorOfPower, Power2;
    forall j | 0 <= j < 19
      ensures Near(NEGATIVE[j], Q64, 10000, 10001, Power2(j), 1)
    {
      NegativeEntry(j);
      FloorIsNear(NEGATIVE[j], Q64, 10000, 10001, Power2(j));
    }
  }

  lemma PositiveGrid()
    ensures GridTable(POSITIVE, Q96, 10001, 10000) && Growing(POSITIVE, Q96)
  {
    hide Near, FloorOfPower, Power2;
    forall j | 0 <= j < 19
      ensures Near(POSITIVE[j], Q96, 10001, 10000, Power2(j), 1)
    {
      PositiveEntry(j);
      FloorIsNear(POSITIVE[j], Q96, 10001, 10000, Power2(j));
    }
  }

  // ----- every tick -----

  /** The product over a table's bits from the start. */
  lemma RatioIsNear(factors: seq<nat>, one: Pos, x: nat, y: nat, m: nat)
    requires |factors| == 19 && m <= MAX_TICK && GridTable(factors, one, x, y)
    requires Resolved(factors, one, m, 0, one)
    ensures Near(Product(factors, one, m, 0, one), one, x, y, m, 57)
  {
    hide Near, GridTable, Product, Resolved, Power2;
    NineteenBits();
    NearOne(one, x, y);
    ProductIsNear(factors, one, x, y, m, 0, one, 0, 0);
    assert Power2(0) == 1 by {
      PowerOfZero();
    }
  }

  lemma PowerOfZero()
    ensures Power2(0) == 1
  {
  }

  lemma RatiosAreNear(m: nat)
    requires m <= MAX_TICK
    ensures Near(ClmmRatio(m), Q64, 10000, 10001, m, 57)
    ensures Near(NegativeRatio(m), Q64, 10000, 10001, m, 57)
    ensures Near(PositiveRatio(m), Q96, 10001, 10000, m, 57)
  {
    hide Near, GridTable, Product, Shrinking, Growing;
    ClmmGrid();
    NegativeGrid();
    PositiveGrid();
    RatiosAreLarge(m);
    RatioIsNear(CLMM_FACTORS, Q64, 10000, 10001, m);
    RatioIsNear(NEGATIVE, Q64, 10000, 10001, m);
    RatioIsNear(POSITIVE, Q96, 10001, 10000, m);
  }

  lemma RatiosAreLarge(m: nat)
    requires m <= MAX_TICK
    ensures PART <= ClmmRatio(m) && PART <= NegativeRatio(m)
  {
    RatiosAtZero();
    var tick := 0 - m;
    assert ClmmRatio(m) == Price(Engine.Clmm, tick);
    assert NegativeRatio(m) == if m == 0 then Q64 else Price(Engine.Whirlpool, tick);
    hide Price, ClmmRatio, NegativeRatio;
    PriceBounds(Engine.Clmm);
    PriceBounds(Engine.Whirlpool);
    PriceOrder(Engine.Clmm, MIN_TICK, tick);
    PriceOrder(Engine.Whirlpool, MIN_TICK, tick);
  }

  /** Dropping the lowest 32 bits costs at most one part. */
  lemma ShiftedIsNear(ratio: nat, x: nat, y: nat, p: nat)
    requires Near(ratio, Q96, x, y, p, 57) && Q64 <= ratio / PART
    ensures Near(ratio / PART, Q64, x, y, p, 58)
  {
    var price := ratio / PART;
    FloorBounds(ratio, PART);
    hide Power, RootLe;
    assert PART * ratio >= PART * (PART * price) && (PART + 57) * Q96 <= PART * ((PART + 58) * Q64);
    RootWeaken(PART * ratio, Power(y, p), (PART + 57) * Q96, Power(x, p), PART * (PART * price), PART * ((PART + 58) * Q64));
    RootScale(PART, PART * price, Power(y, p), (PART + 58) * Q64, Power(x, p));
    assert PART * Q96 == PART * (PART * Q64) && (PART + 57) * ratio <= PART * ((PART + 58) * price);
    RootWeaken(PART * Q96, Power(x, p), (PART + 57) * ratio, Power(y, p), PART * (PART * Q64), PART * ((PART + 58) * price));
    RootScale(PART, PART * Q64, Power(x, p), (PART + 58) * price, Power(y, p));
  }

  lemma TimesBoth(u: nat, a: nat, v: nat, b: nat, t: nat)
    requires RootLe(u, a, v, b)
    ensures RootLe(u * t, a, v * t, b)
  {
    hide RootLe;
    assert RootLe(t, 1, t, 1) by {
      RootLeItself(t);
    }
    RootMul(u, a, v, b, t, 1, t, 1);
  }

  lemma RootLeItself(t: nat)
    ensures RootLe(t, 1, t, 1)
  {
  }

  /** The reciprocal of a near ratio is near the inverse power. */
  lemma ReciprocalIsNear(ratio: Pos, x: nat, y: nat, p: nat)
    requires Near(ratio, Q64, x, y, p, 57) && Q64 <= Reciprocal(ratio)
    ensures Near(Reciprocal(ratio), Q64, y, x, p, 58)
  {
    var price := Reciprocal(ratio);
    FloorBounds(U128, ratio);
    assert ratio * price <= Q64 * Q64 <= ratio * (price + 1) by {
      assert ratio * (price + 1) == price * ratio + ratio;
    }
    hide Power, RootLe, Reciprocal;
    var a, b := Power(x, p), Power(y, p);
    TimesBoth(PART * Q64, a, (PART + 57) * ratio, b, price);
    ReciprocalParts(ratio, price);
    RootWeaken(PART * Q64 * price, a, (PART + 57) * ratio * price, b, Q64 * (PART * price), Q64 * ((PART + 58) * Q64));
    RootScale(Q64, PART * price, a, (PART + 58) * Q64, b);
    TimesBoth(PART * ratio, b, (PART + 57) * Q64, a, price + 1);
    RootWeaken(PART * ratio * (price + 1), b, (PART + 57) * Q64 * (price + 1), a,
               Q64 * (PART * Q64), Q64 * ((PART + 58) * price));
    RootScale(Q64, PART * Q64, b, (PART + 58) * price, a);
  }

  lemma ReciprocalParts(ratio: nat, price: nat)
    requires ratio * price <= Q64 * Q64 <= ratio * (price + 1) && Q64 <= price
    ensures PART * Q64 * price == Q64 * (PART * price)
    ensures (PART + 57) * ratio * price <= Q64 * ((PART + 58) * Q64)
    ensures Q64 * (PART * Q64) <= PART * ratio * (price + 1)
    ensures (PART + 57) * Q64 * (price + 1) <= Q64 * ((PART + 58) * price)
  {
    assert (PART + 57) * ratio * price == (PART + 57) * (ratio * price);
    assert PART * ratio * (price + 1) == PART * (ratio * (price + 1));
  }

  /** The price of every tick, in either engine, is the square root of 1.0001 to the tick up
      to 58 parts in 2^32. */
  lemma PriceIsGeometric(engine: Engine, tick: int)
    requires InRange(tick)
    ensures 0 <= tick ==> Near(Price(engine, tick), Q64, 10001, 10000, tick, 58)
    ensures tick <= 0 ==> Near(Price(engine, tick), Q64, 10000, 10001, -tick, 58)
  {
    RatiosAtZero();
    RatiosAreNear(Abs(tick));
    PriceAtZero(engine, tick);
    hide Near, ClmmRatio, NegativeRatio, PositiveRatio, Reciprocal;
    if tick == 0 {
      assert Price(engine, 0) == Q64;
      NearOne(Q64, 10001, 10000);
      NearOne(Q64, 10000, 10001);
      NearWeaken(Q64, Q64, 10001, 10000, 0, 0, 58);
      NearWeaken(Q64, Q64, 10000, 10001, 0, 0, 58);
    } else if tick < 0 {
      NearWeaken(Price(engine, tick), Q64, 10000, 10001, -tick, 57, 58);
    } else if engine == Engine.Clmm {
      ClmmRatioBounds(tick);
      ReciprocalIsNear(ClmmRatio(tick), 10000, 10001, tick);
    } else {
      ShiftedIsNear(PositiveRatio(tick), 10001, 10000, tick);
    }
  }

  lemma PriceAtZero(engine: Engine, tick: int)
    requires InRange(tick)
    ensures Price(engine, 0) == Q64 && (0 <= tick ==> Q64 <= Price(engine, tick))
  {
    RatiosAtZero();
    assert Price(engine, 0) == Q64;
    hide Price;
    PriceOrder(engine, 0, tick);
  }

  /** Above zero a CLMM price is the floored reciprocal of the price as far below. */
  lemma ClmmReciprocal(tick: int)
    requires 0 < tick <= MAX_TICK
    ensures
      var above, below := Price(Engine.Clmm, tick), Price(Engine.Clmm, -tick);
      above * below <= U128 < (above + 1) * below
  {
    ClmmRatioBounds(tick);
    hide ClmmRatio;
    FloorBounds(U128, ClmmRatio(tick));
  }

  // ----- adjacent ticks -----

  /** Two near prices whose true squares stand as 10001 to 10000. */
  lemma NearPair(p: nat, p': nat, a: nat, b: nat, a': nat, b': nat, g: Pos)
    requires a' * b == 10000 * g && b' * a == 10001 * g
    requires RootLe(PART * p, a, (PART + 58) * Q64, b) && RootLe(PART * Q64, b, (PART + 58) * p, a)
    requires RootLe(PART * p', a', (PART + 58) * Q64, b') && RootLe(PART * Q64, b', (PART + 58) * p', a')
    ensures RootLe(PART * PART * p', 10000, (PART + 58) * (PART + 58) * p, 10001)
    ensures RootLe(PART * PART * p, 10001, (PART + 58) * (PART + 58) * p', 10000)
  {
    hide RootLe;
    RootMul(PART * p', a', (PART + 58) * Q64, b', PART * Q64, b, (PART + 58) * p, a);
    PairParts(p, p');
    RootCommon(PART * PART * p', 10000, (PART + 58) * (PART + 58) * p, 10001, g);
    RootMul(PART * p, a, (PART + 58) * Q64, b, PART * Q64, b', (PART + 58) * p', a');
    PairParts(p', p);
    RootCommon(PART * PART * p, 10001, (PART + 58) * (PART + 58) * p', 10000, g);
  }

  lemma PairParts(p: nat, p': nat)
    ensures PART * p' * (PART * Q64) == Q64 * (PART * PART * p')
    ensures (PART + 58) * Q64 * ((PART + 58) * p) == Q64 * ((PART + 58) * (PART + 58) * p)
  {
  }

  /** Common factors, of the numbers and of the fractions, cancel. */
  lemma RootCommon(u: nat, a: nat, v: nat, b: nat, g: Pos)
    requires RootLe(Q64 * u, a * g, Q64 * v, b * g)
    ensures RootLe(u, a, v, b)
  {
    RootScale(Q64, u, a * g, v, b * g);
    assert u * u * (a * g) == (u * u * a) * g && v * v * (b * g) == (v * v * b) * g;
    MulCancel(u * u * a, v * v * b, g);
  }

  lemma Within1000th(p: nat, p': nat)
    requires RootLe(PART * PART * p', 10000, (PART + 58) * (PART + 58) * p, 10001)
    requires RootLe(PART * PART * p, 10001, (PART + 58) * (PART + 58) * p', 10000)
    ensures 1000 * Abs(10000 * (p' * p') - 10001 * (p * p)) <= p * p
  {
    ScaledSquare(PART * PART, p', 10000);
    ScaledSquare(PART * PART, p, 10001);
    ScaledSquare((PART + 58) * (PART + 58), p, 10001);
    ScaledSquare((PART + 58) * (PART + 58), p', 10000);
    var x, y := p * p, p' * p';
    assert y * 10000 * (PART * PART * (PART * PART)) <= x * 10001 * ((PART + 58) * (PART + 58) * ((PART + 58) * (PART + 58)));
    assert x * 10001 * (PART * PART * (PART * PART)) <= y * 10000 * ((PART + 58) * (PART + 58) * ((PART + 58) * (PART + 58)));
  }

  /** One tick further multiplies the square of the price by 1.0001, up to a thousandth of
      the difference that a tick makes. */
  lemma AdjacentRatio(engine: Engine, tick: int)
    requires MIN_TICK <= tick < MAX_TICK
    ensures
      var p, p' := Price(engine, tick), Price(engine, tick + 1);
      1000 * Abs(10000 * (p' * p') - 10001 * (p * p)) <= p * p
  {
    hide Price, RootLe, Power;
    PriceIsGeometric(engine, tick);
    PriceIsGeometric(engine, tick + 1);
    var p, p' := Price(engine, tick), Price(engine, tick + 1);
    var m := if 0 <= tick then tick else 0 - tick - 1;
    PowerGrows(m);
    var a, b: nat := Power(10000, m), Power(10001, m);
    var g: Pos := a * b;
    Factored(a, b);
    if 0 <= tick {
      NearPair(p, p', a, b, Power(10000, m + 1), Power(10001, m + 1), g);
    } else {
      NearPair(p, p', Power(10001, m + 1), Power(10000, m + 1), b, a, g);
    }
    Within1000th(p, p');
  }

  lemma Factored(a: nat, b: nat)
    ensures 10000 * a * b == 10000 * (a * b) && 10001 * b * a == 10001 * (a * b)
    ensures b * (10000 * a) == 10000 * (a * b) && a * (10001 * b) == 10001 * (a * b)
  {
  }

  lemma PowerGrows(m: nat)
    ensures Power(10000, m + 1) == 10000 * Power(10000, m) && Power(10001, m + 1) == 10001 * Power(10001, m)
    ensures 0 < Power(10000, m) * Power(10001, m)
  {
    MulStrict(0, Power(10000, m), Power(10001, m));
  }

  // ----- the powers of two -----

  /** The bits of a power of two select one factor. */
  lemma {:induction false} ProductOfPower(factors: seq<nat>, one: Pos, k: nat, bit: nat)
    requires bit <= k < |factors|
    ensures Product(factors, one, Power2(k - bit), bit, one) == factors[k]
    decreases k - bit
  {
    if bit == k {
      DivideBack(one, factors[k]);
      NoBitsSet(factors, one, k + 1, factors[k]);
    } else {
      assert Power2(k - bit) == 2 * Power2(k - bit - 1);
      ProductOfPower(factors, one, k, bit + 1);
    }
  }

  /** At the powers of two the Whirlpool ratios are the exact floors of the true powers. */
  lemma WhirlpoolPowers(k: nat)
    requires k < 19
    ensures FloorOfPower(NegativeRatio(Power2(k)), Q64, 10000, 10001, Power2(k))
    ensures FloorOfPower(PositiveRatio(Power2(k)), Q96, 10001, 10000, Power2(k))
  {
    hide FloorOfPower, Product;
    ProductOfPower(NEGATIVE, Q64, k, 0);
    ProductOfPower(POSITIVE, Q96, k, 0);
    NegativeEntry(k);
    PositiveEntry(k);
  }

  lemma DeviationsHold(k: nat)
    requires k < 18
    ensures CLMM_FACTORS[k + 1] == Shift(CLMM_FACTORS[k], CLMM_FACTORS[k], Q64) + [
      -5826, 2354, -639, -1931, 2617, -2325, 2619, -374, -566, -3193, 1123, -3252, 705, 1799, 63, -121, 3, -157][k]
  {
    assert k in {0, 1, 2, 3, 4, 5, 6, 7, 8, 9, 10, 11, 12, 13, 14, 15, 16, 17};
  }

  lemma ClmmPower(k: nat)
    requires k < 19
    ensures ClmmRatio(Power2(k)) == CLMM_FACTORS[k]
  {
    hide Product;
    ProductOfPower(CLMM_FACTORS, Q64, k, 0);
  }

  lemma FirstFloor()
    ensures
      var f := CLMM_FACTORS[0] - 2761;
      0 <= f && f * f * 10001 <= Q64 * Q64 * 10000 < (f + 1) * (f + 1) * 10001
  {
  }

  /** The first CLMM ratio is 2761 above the floor of the true root of 10000 / 10001. */
  lemma FirstClmmRatio()
    ensures 2761 <= ClmmRatio(1) && FloorOfPower(ClmmRatio(1) - 2761, Q64, 10000, 10001, 1)
  {
    hide ClmmRatio, Power2, Power;
    PowerStep(10000, 0);
    PowerStep(10001, 0);
    PowerOfZero();
    ClmmPower(0);
    FirstFloor();
  }

  /** At the powers of two each CLMM ratio is the floored square of the one before, up to
      these deviations, none above four parts in 10^16 of one. */
  lemma ClmmPowers(k: nat)
    requires k < 18
    ensures ClmmRatio(Power2(k + 1)) == Shift(ClmmRatio(Power2(k)), ClmmRatio(Power2(k)), Q64) + [
      -5826, 2354, -639, -1931, 2617, -2325, 2619, -374, -566, -3193, 1123, -3252, 705, 1799, 63, -121, 3, -157][k]
  {
    hide ClmmRatio, Power2, Shift;
    ClmmPower(k);
    ClmmPower(k + 1);
    DeviationsHold(k);
  }
}
