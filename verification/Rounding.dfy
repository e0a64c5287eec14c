/** Integer rounding as the quote engines use it: floor is `/` and ceiling is
    `(n + d - 1) / d`, always with a positive divisor. The lemmas pin down the
    two Galois connections every later proof rests on, and the handful of
    product inequalities that the verifier needs to be told about. */
module Rounding {

  const Q64: int := 0x1_0000_0000_0000_0000
  const U64: int := 0xFFFF_FFFF_FFFF_FFFF
  const U128: int := 0xFFFF_FFFF_FFFF_FFFF_FFFF_FFFF_FFFF_FFFF

  /** Fee rates are in millionths. */
  const FEE_SCALE: int := 1000000

  type Pos = n: int | 0 < n witness 1

  function Ceil(n: int, d: int): int
    requires d > 0
  {
    (n + d - 1) / d
  }

  function Min(a: int, b: int): int {
    if a <= b then a else b
  }

  function Max(a: int, b: int): int {
    if a >= b then a else b
  }

  function Abs(a: int): nat {
    if a < 0 then -a else a
  }

  lemma MulMono(a: int, b: int, c: int)
    requires a <= b && 0 <= c
    ensures a * c <= b * c
  {
  }

  lemma MulStrict(a: int, b: int, c: int)
    requires a < b && 0 < c
    ensures a * c < b * c
  {
  }

  lemma MulCancel(a: int, b: int, c: int)
    requires a * c <= b * c && 0 < c
    ensures a <= b
  {
    if b < a {
      MulStrict(b, a, c);
    }
  }

  lemma FloorBounds(n: int, d: int)
    requires d > 0
    ensures (n / d) * d <= n < (n / d) * d + d
  {
    assert n == d * (n / d) + n % d;
  }

  /** Floor is the right adjoint of multiplication. */
  lemma FloorGe(n: int, d: int, k: int)
    requires d > 0
    ensures k <= n / d <==> k * d <= n
  {
    FloorBounds(n, d);
    var q := n / d;
    if k <= q {
      MulMono(k, q, d);
    } else {
      MulMono(q + 1, k, d);
    }
  }

  /** Ceiling is the left adjoint of multiplication. */
  lemma CeilLe(n: int, d: int, k: int)
    requires d > 0
    ensures Ceil(n, d) <= k <==> n <= k * d
  {
    FloorGe(n + d - 1, d, k + 1);
  }

  lemma CeilBounds(n: int, d: int)
    requires d > 0
    ensures (Ceil(n, d) - 1) * d < n <= Ceil(n, d) * d
  {
    FloorBounds(n + d - 1, d);
  }

  lemma FloorMono(m: int, n: int, d: int)
    requires m <= n && d > 0
    ensures m / d <= n / d
  {
    FloorBounds(m, d);
    FloorGe(n, d, m / d);
  }

  lemma CeilMono(m: int, n: int, d: int)
    requires m <= n && d > 0
    ensures Ceil(m, d) <= Ceil(n, d)
  {
    FloorMono(m + d - 1, n + d - 1, d);
  }

  function Power(base: nat, exponent: nat): (p: nat)
    ensures base > 0 ==> p > 0
  {
    if exponent == 0 then 1
    else
      var p := Power(base, exponent - 1);
      MulMono(0, base, p);
      if base > 0 then MulStrict(0, base, p); base * p else base * p
  }
}
