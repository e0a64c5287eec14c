/** A fee on an amount at a rate out of a scale, rounded up, and the gross amount behind
    a net one. */
module TradeFee {
  import opened Rounding

  /** A rate in millionths. */
  type Rate = n: nat | n <= FEE_SCALE

  /** An amount after its rounded-up fee. */
  function AfterRate(amount: nat, rate: nat, scale: Pos): nat
    requires rate <= scale
  {
    MulMono(rate, scale, amount);
    CeilLe(amount * rate, scale, amount);
    amount - Ceil(amount * rate, scale)
  }

  /** The least amount that leaves `net` after its fee. */
  function BeforeRate(net: nat, rate: nat, scale: Pos): nat
    requires rate < scale
  {
    FloorGe(net * scale + (scale - rate) - 1, scale - rate, 0);
    Ceil(net * scale, scale - rate)
  }

  lemma AfterRateGe(amount: nat, rate: nat, scale: Pos, k: int)
    requires rate <= scale
    ensures k <= AfterRate(amount, rate, scale) <==> k * scale <= amount * (scale - rate)
  {
    CeilLe(amount * rate, scale, amount - k);
    assert (amount - k) * scale == amount * scale - k * scale;
    assert amount * (scale - rate) == amount * scale - amount * rate;
  }

  lemma BeforeRateLe(net: nat, rate: nat, scale: Pos, k: int)
    requires rate < scale
    ensures BeforeRate(net, rate, scale) <= k <==> net * scale <= k * (scale - rate)
  {
    CeilLe(net * scale, scale - rate, k);
  }

  /** At least `net` is left of an amount exactly when it is at least `net` grossed up. */
  lemma RateIsAdjoint(net: nat, amount: nat, rate: nat, scale: Pos)
    requires rate < scale
    ensures net <= AfterRate(amount, rate, scale) <==> BeforeRate(net, rate, scale) <= amount
  {
    AfterRateGe(amount, rate, scale, net);
    BeforeRateLe(net, rate, scale, amount);
    hide AfterRate, BeforeRate;
  }

  lemma AfterRateMonotone(less: nat, more: nat, rate: nat, scale: Pos)
    requires rate <= scale && less <= more
    ensures AfterRate(less, rate, scale) <= AfterRate(more, rate, scale) <= more
  {
    AfterRateGe(less, rate, scale, AfterRate(less, rate, scale));
    AfterRateGe(more, rate, scale, AfterRate(less, rate, scale));
    AfterRateGe(more, rate, scale, more + 1);
    MulMono(less, more, scale - rate);
    MulMono(scale - rate, scale, more);
    hide AfterRate;
  }
}
