/** One constant-product trade, in both directions, shared by every curve quote:
    reserves `x` are paid into and reserves `y` paid out of. */
module ConstantProduct {
  import opened Rounding

  /** What `a` buys, rounded down. */
  function Out(x: nat, y: nat, a: nat): nat
    requires x + a > 0
  {
    MulMono(0, a, y);
    FloorGe(a * y, x + a, 0);
    a * y / (x + a)
  }

  /** What `out` costs, rounded up. */
  function In(x: nat, y: nat, out: nat): nat
    requires out < y
  {
    MulMono(0, out, x);
    FloorGe(x * out + (y - out) - 1, y - out, 0);
    Ceil(x * out, y - out)
  }

  /** Paying `a` reaches `out` exactly when `a` covers the cost of `out`. */
  lemma InIsAdjoint(x: nat, y: nat, out: nat, a: nat)
    requires x + a > 0 && out < y
    ensures out <= Out(x, y, a) <==> In(x, y, out) <= a
  {
    FloorGe(a * y, x + a, out);
    CeilLe(x * out, y - out, a);
  }

  /** A purchase never lowers the product of the reserves and never takes more than
      there is, and takes everything only from an unpriced side. */
  lemma OutConserves(x: nat, y: nat, a: nat)
    requires x + a > 0
    ensures (x + a) * (y - Out(x, y, a)) >= x * y
    ensures Out(x, y, a) <= y
    ensures 0 < x && 0 < y ==> Out(x, y, a) < y
  {
    var out := Out(x, y, a);
    FloorGe(a * y, x + a, out);
    hide Out;
    assert out * (x + a) <= a * y;
    if y <= out {
      MulMono(y, out, x + a);
      if 0 < x && 0 < y {
        MulStrict(0, x, y);
      }
      if y < out {
        MulMono(y + 1, out, x + a);
      }
    }
  }

  lemma OutMonotone(x: nat, y: nat, less: nat, more: nat)
    requires x + less > 0 && less <= more
    ensures Out(x, y, less) <= Out(x, y, more)
  {
    var out := Out(x, y, less);
    FloorGe(less * y, x + less, out);
    FloorGe(more * y, x + more, out);
    OutConserves(x, y, less);
    MulMono(out, y, more - less);
    hide Out;
  }
}
