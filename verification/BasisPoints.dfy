/** Fees and slippage allowances in basis points. */
module BasisPoints {
  import opened Rounding

  const BPS: int := 10000

  /** A fee, rounded up. */
  function Fee(n: nat, bps: nat): nat {
    MulMono(0, bps, n);
    FloorGe(n * bps + BPS - 1, BPS, 0);
    Ceil(n * bps, BPS)
  }

  /** The fee is the exact share, rounded up by less than one. */
  lemma FeeBounds(n: nat, bps: nat)
    ensures n * bps <= BPS * Fee(n, bps) < n * bps + BPS
  {
    CeilBounds(n * bps, BPS);
  }

  lemma FeeMonotone(less: nat, more: nat, bps: nat)
    requires less <= more
    ensures Fee(less, bps) <= Fee(more, bps)
    ensures Fee(0, bps) == 0 && Fee(less, 0) == 0
  {
    MulMono(less, more, bps);
    CeilMono(less * bps, more * bps, BPS);
  }

  /** The least acceptable amount: the floored allowance is taken off. */
  function Least(amount: nat, bps: nat): int {
    amount - amount * bps / BPS
  }

  /** The least acceptable amount when the kept share itself is floored. */
  function KeptShare(amount: nat, bps: nat): int {
    amount * (BPS - bps) / BPS
  }

  /** The two roundings differ by at most one and neither exceeds the amount; only the
      first keeps every positive amount positive. */
  lemma LeastMeaning(amount: nat, bps: nat)
    requires bps < BPS
    ensures 0 <= KeptShare(amount, bps) <= Least(amount, bps) <= amount
    ensures Least(amount, bps) <= KeptShare(amount, bps) + 1
    ensures 0 < Least(amount, bps) <==> 0 < amount
    ensures BPS * KeptShare(amount, bps) <= amount * (BPS - bps) <= BPS * Least(amount, bps)
  {
    FloorBounds(amount * bps, BPS);
    FloorBounds(amount * (BPS - bps), BPS);
    MulMono(0, bps, amount);
    MulMono(bps, BPS, amount);
    if 0 < amount {
      MulStrict(bps, BPS, amount);
    }
  }

  lemma LeastMonotone(less: nat, more: nat, bps: nat)
    requires less <= more && bps < BPS
    ensures Least(less, bps) <= Least(more, bps)
    ensures KeptShare(less, bps) <= KeptShare(more, bps)
  {
    FloorBounds(less * bps, BPS);
    FloorBounds(more * bps, BPS);
    MulMono(bps, BPS, more - less);
    MulMono(less, more, BPS - bps);
    FloorMono(less * (BPS - bps), more * (BPS - bps), BPS);
  }
}
