/** Fixed-point powers by bit products: a magnitude's set bits select factors
    from a table, each applied by one multiply-and-shift. Both tick-to-price maps
    are instances. The result of the module is that consecutive magnitudes stay a
    known distance apart, so the map is strictly monotone although every factor
    application rounds. */
module BitProduct {
  import opened Rounding

  /** One fixed-point multiplication, `ratio * factor >> shift` with `one == 1 << shift`. */
  function Shift(ratio: nat, factor: nat, one: nat): nat
    requires one > 0
  {
    FloorGe(ratio * factor, one, 0);
    ratio * factor / one
  }

  /** Applies the factors selected by the bits of `m` from position `bit` on. */
  function Product(factors: seq<nat>, one: nat, m: nat, bit: nat, ratio: nat): nat
    requires one > 0 && bit <= |factors|
    decreases |factors| - bit
  {
    if bit == |factors| then ratio
    else Product(factors, one, m / 2, bit + 1, if m % 2 == 1 then Shift(ratio, factors[bit], one) else ratio)
  }

  function Power2(e: nat): nat
    ensures Power2(e) > 0
  {
    if e == 0 then 1 else 2 * Power2(e - 1)
  }

  /** Halving `m / mask` is dividing by the next mask. */
  lemma NextMask(m: nat, mask: nat)
    requires mask > 0
    ensures m / mask / 2 == m / (2 * mask)
  {
    var q := m / mask;
    FloorBounds(m, mask);
    FloorBounds(q, 2);
    FloorGe(m, 2 * mask, q / 2);
    FloorGe(m, 2 * mask, q / 2 + 1);
    MulMono(2 * (q / 2), q, mask);
    MulMono(q + 1, 2 * (q / 2) + 2, mask);
  }

  /** The loop both price maps run: test each bit of `m`, multiply and shift. */
  method Multiply(factors: seq<nat>, one: nat, m: nat) returns (ratio: nat)
    requires one > 0
    ensures ratio == Product(factors, one, m, 0, one)
  {
    ratio := one;
    var mask := 1;
    for bit := 0 to |factors|
      invariant mask > 0
      invariant Product(factors, one, m / mask, bit, ratio) == Product(factors, one, m, 0, one)
    {
      NextMask(m, mask);
      if m / mask % 2 == 1 {
        ratio := Shift(ratio, factors[bit], one);
      }
      mask := 2 * mask;
    }
  }

  /** `need[j]` is a distance which the factors from position `j` on cannot erode
      below the last entry, whichever of them a magnitude selects. */
  ghost predicate GapTable(factors: seq<nat>, one: nat, need: seq<nat>) {
    && one > 0
    && |need| == |factors| + 1
    && (forall j :: 0 <= j < |factors| ==> need[j] >= need[j + 1])
    && (forall j :: 0 <= j < |factors| ==> Survives(need[j], factors[j], need[j + 1], one))
  }

  ghost predicate Survives(gap: nat, factor: nat, next: nat, one: nat) {
    gap * factor >= (next + 1) * one
  }

  /** One multiply-and-shift keeps a gap, up to the rounding of two floors. */
  lemma ShiftKeepsGap(low: nat, high: nat, factor: nat, one: nat, gap: nat, next: nat)
    requires one > 0 && high - low >= gap
    requires Survives(gap, factor, next, one)
    ensures Shift(high, factor, one) - Shift(low, factor, one) >= next
  {
    var h, l := Shift(high, factor, one), Shift(low, factor, one);
    FloorBounds(high * factor, one);
    FloorBounds(low * factor, one);
    MulMono(gap, high - low, factor);
    assert (h + 1 - l) * one > (next + 1) * one;
    if h - l < next {
      MulMono(h + 1 - l, next, one);
    }
  }

  lemma ProductStep(factors: seq<nat>, one: nat, m: nat, bit: nat, ratio: nat)
    requires one > 0 && bit < |factors| && m % 2 == 1
    ensures Product(factors, one, m, bit, ratio)
         == Product(factors, one, m / 2, bit + 1, Shift(ratio, factors[bit], one))
  {
  }

  lemma {:induction false} ProductKeepsGap(
      factors: seq<nat>, one: nat, need: seq<nat>, m: nat, bit: nat, low: nat, high: nat)
    requires GapTable(factors, one, need) && bit <= |factors|
    requires high - low >= need[bit]
    ensures Product(factors, one, m, bit, high) - Product(factors, one, m, bit, low) >= need[|factors|]
    decreases |factors| - bit
  {
    if bit < |factors| {
      if m % 2 == 1 {
        ProductStep(factors, one, m, bit, low);
        ProductStep(factors, one, m, bit, high);
        hide Product, Shift;
        ShiftKeepsGap(low, high, factors[bit], one, need[bit], need[bit + 1]);
        ProductKeepsGap(factors, one, need, m / 2, bit + 1, Shift(low, factors[bit], one), Shift(high, factors[bit], one));
      } else {
        ProductKeepsGap(factors, one, need, m / 2, bit + 1, low, high);
      }
    }
  }

  /** `ones[k]` is the ratio of a magnitude whose `k` lowest bits are all ones. */
  ghost predicate OnesTable(factors: seq<nat>, one: nat, ones: seq<nat>)
    requires one > 0
  {
    && |ones| == |factors| > 0
    && ones[0] == one
    && forall k :: 0 < k < |factors| ==> ones[k] == Shift(ones[k - 1], factors[k - 1], one)
  }

  /** Going from `m` to `m + 1` flips a trailing block of `k` ones into a single
      one at position `k`. That moves the ratio by at least `gap`: down for
      shrinking factors, up for growing ones (`rising`). */
  ghost predicate FlipMoves(ones: nat, factor: nat, gap: nat, rising: bool) {
    if rising then factor - ones >= gap else ones - factor >= gap
  }

  ghost predicate Flips(factors: seq<nat>, need: seq<nat>, ones: seq<nat>, rising: bool)
    requires |ones| == |factors| && |need| == |factors| + 1
  {
    forall k :: 0 <= k < |factors| ==> FlipMoves(ones[k], factors[k], need[k + 1], rising)
  }

  ghost predicate FlipTable(factors: seq<nat>, one: nat, need: seq<nat>, ones: seq<nat>, rising: bool) {
    && GapTable(factors, one, need)
    && OnesTable(factors, one, ones)
    && Flips(factors, need, ones, rising)
  }

  lemma DivideBack(one: nat, factor: nat)
    requires one > 0
    ensures Shift(one, factor, one) == factor
  {
    FloorGe(one * factor, one, factor + 1);
    FloorGe(one * factor, one, factor);
  }

  /** Consecutive magnitudes, processed from `bit` on after a block of ones
      (in `m`) and of zeros (in `m + 1`), end up the final gap apart. */
  lemma {:induction false} SuccessorGap(
      factors: seq<nat>, one: nat, need: seq<nat>, ones: seq<nat>, rising: bool, m: nat, bit: nat)
    requires FlipTable(factors, one, need, ones, rising)
    requires bit < |factors| && m + 1 < Power2(|factors| - bit)
    ensures FlipMoves(Product(factors, one, m, bit, ones[bit]), Product(factors, one, m + 1, bit, one),
                      need[|factors|], rising)
    decreases |factors| - bit
  {
    hide Shift, Product;
    var p := m / 2;
    if m % 2 == 0 {
      assert m == 2 * p;
      EvenSuccessor(factors, one, need, ones, rising, p, bit);
    } else {
      assert m == 2 * p + 1;
      OddSuccessor(factors, one, p, bit, ones[bit]);
      SuccessorGap(factors, one, need, ones, rising, p, bit + 1);
    }
  }

  lemma OddSuccessor(factors: seq<nat>, one: nat, p: nat, bit: nat, ones: nat)
    requires one > 0 && bit < |factors|
    ensures Product(factors, one, 2 * p + 1, bit, ones)
         == Product(factors, one, p, bit + 1, Shift(ones, factors[bit], one))
    ensures Product(factors, one, 2 * p + 2, bit, one)
         == Product(factors, one, p + 1, bit + 1, one)
  {
    hide Shift;
  }

  lemma EvenStep(factors: seq<nat>, one: nat, p: nat, bit: nat, ones: nat)
    requires one > 0 && bit < |factors|
    ensures Product(factors, one, 2 * p, bit, ones) == Product(factors, one, p, bit + 1, ones)
    ensures Product(factors, one, 2 * p + 1, bit, one) == Product(factors, one, p, bit + 1, factors[bit])
  {
    DivideBack(one, factors[bit]);
    hide Shift;
  }

  lemma EvenSuccessor(
      factors: seq<nat>, one: nat, need: seq<nat>, ones: seq<nat>, rising: bool, p: nat, bit: nat)
    requires FlipTable(factors, one, need, ones, rising) && bit < |factors|
    ensures FlipMoves(Product(factors, one, 2 * p, bit, ones[bit]), Product(factors, one, 2 * p + 1, bit, one),
                      need[|factors|], rising)
  {
    hide Product, Shift;
    EvenStep(factors, one, p, bit, ones[bit]);
    assert FlipMoves(ones[bit], factors[bit], need[bit + 1], rising);
    if rising {
      ProductKeepsGap(factors, one, need, p, bit + 1, ones[bit], factors[bit]);
    } else {
      ProductKeepsGap(factors, one, need, p, bit + 1, factors[bit], ones[bit]);
    }
  }
}
