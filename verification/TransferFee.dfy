/** The Token-2022 transfer fee, forward and inverse. The inverse is exact and least:
    grossing up is left adjoint to taking the fee off. */
module TransferFee {
  import opened Results
  import opened Rounding
  import opened BasisPoints

  datatype TokenFee = TokenFee(basisPoints: int, maximumFee: int)

  /** A transfer fee whose parameters are in range. */
  predicate Valid(fee: TokenFee) {
    0 <= fee.maximumFee <= U64 && 0 <= fee.basisPoints <= BPS
  }

  /** The fee withheld from a transfer of `amount`. */
  function Withheld(fee: TokenFee, amount: nat): int
    requires Valid(fee)
  {
    if fee.basisPoints == 0 || amount == 0 then 0
    else Min(Ceil(amount * fee.basisPoints, BPS), fee.maximumFee)
  }

  /** The fee to add so that `amount` arrives. */
  function GrossUp(fee: TokenFee, amount: nat): int
    requires Valid(fee)
  {
    if fee.basisPoints == 0 || amount == 0 then 0
    else if fee.basisPoints == BPS then fee.maximumFee
    else Min(Ceil(amount * fee.basisPoints, BPS - fee.basisPoints), fee.maximumFee)
  }

  function Calculate(fee: TokenFee, amount: int, inverse: bool): Result<int> {
    if !(0 <= amount <= U64 && 0 <= fee.maximumFee <= U64) then Err(OutsideUnsignedRange)
    else if !Valid(fee) then Err(InvalidFee)
    else Ok(if inverse then GrossUp(fee, amount) else Withheld(fee, amount))
  }

  /** What arrives of a transfer of `amount`. */
  function Arrives(fee: TokenFee, amount: nat): nat
    requires Valid(fee)
  {
    WithheldBounds(fee, amount);
    amount - Withheld(fee, amount)
  }

  lemma WithheldLe(fee: TokenFee, amount: nat, k: int)
    requires Valid(fee) && 0 < fee.basisPoints && 0 < amount
    ensures Withheld(fee, amount) <= k <==> amount * fee.basisPoints <= k * BPS || fee.maximumFee <= k
  {
    CeilLe(amount * fee.basisPoints, BPS, k);
  }

  lemma GrossUpLe(fee: TokenFee, amount: nat, k: int)
    requires Valid(fee) && 0 < fee.basisPoints < BPS && 0 < amount
    ensures GrossUp(fee, amount) <= k <==> amount * fee.basisPoints <= k * (BPS - fee.basisPoints) || fee.maximumFee <= k
  {
    CeilLe(amount * fee.basisPoints, BPS - fee.basisPoints, k);
  }

  lemma WithheldBounds(fee: TokenFee, amount: nat)
    requires Valid(fee)
    ensures 0 <= Withheld(fee, amount) <= amount
    ensures 0 <= GrossUp(fee, amount)
  {
    MulMono(0, fee.basisPoints, amount);
    MulMono(fee.basisPoints, BPS, amount);
    if 0 < fee.basisPoints && 0 < amount {
      WithheldLe(fee, amount, amount);
      CeilLe(amount * fee.basisPoints, BPS, -1);
      if fee.basisPoints < BPS {
        MulStrict(0, fee.basisPoints, amount);
        CeilLe(amount * fee.basisPoints, BPS - fee.basisPoints, -1);
      }
    }
  }

  lemma EdgeCases(fee: TokenFee, amount: nat)
    requires Valid(fee)
    ensures fee.basisPoints == 0 || amount == 0 ==> Withheld(fee, amount) == 0 && GrossUp(fee, amount) == 0
    ensures fee.basisPoints == BPS && 0 < amount ==>
      GrossUp(fee, amount) == fee.maximumFee && Withheld(fee, amount) == Min(amount, fee.maximumFee)
  {
    FloorGe(amount * BPS + BPS - 1, BPS, amount);
    FloorGe(amount * BPS + BPS - 1, BPS, amount + 1);
  }

  /** At least `v` of a transfer arrives exactly when it is at least `v` grossed up. */
  lemma GrossUpIsAdjoint(fee: TokenFee, v: nat, amount: nat)
    requires Valid(fee)
    ensures v <= Arrives(fee, amount) <==> v + GrossUp(fee, v) <= amount
  {
    hide Withheld, GrossUp;
    WithheldBounds(fee, amount);
    WithheldBounds(fee, v);
    EdgeCases(fee, amount);
    EdgeCases(fee, v);
    if 0 < fee.basisPoints < BPS && 0 < v && 0 < amount {
      WithheldLe(fee, amount, amount - v);
      GrossUpLe(fee, v, amount - v);
    }
  }

  lemma GrossUpMonotone(fee: TokenFee, less: nat, more: nat)
    requires Valid(fee) && less <= more
    ensures GrossUp(fee, less) <= GrossUp(fee, more)
  {
    WithheldBounds(fee, more);
    if 0 < fee.basisPoints < BPS && 0 < less {
      MulMono(less, more, fee.basisPoints);
      GrossUpLe(fee, less, GrossUp(fee, more));
      GrossUpLe(fee, more, GrossUp(fee, more));
      hide GrossUp;
    }
  }

  lemma ArrivesMonotone(fee: TokenFee, less: nat, more: nat)
    requires Valid(fee) && less <= more
    ensures Arrives(fee, less) <= Arrives(fee, more)
  {
    WithheldBounds(fee, less);
    GrossUpIsAdjoint(fee, Arrives(fee, less), less);
    GrossUpIsAdjoint(fee, Arrives(fee, less), more);
    hide Arrives, GrossUp;
  }

  /** The grossed-up transfer delivers exactly `v`, and every smaller one strictly less. */
  lemma GrossUpIsExactAndLeast(fee: TokenFee, v: nat, amount: nat)
    requires Valid(fee)
    ensures 0 <= GrossUp(fee, v)
    ensures Arrives(fee, v + GrossUp(fee, v)) == v
    ensures amount < v + GrossUp(fee, v) ==> Arrives(fee, amount) < v
  {
    WithheldBounds(fee, v);
    var gross := v + GrossUp(fee, v);
    GrossUpIsAdjoint(fee, v, gross);
    GrossUpIsAdjoint(fee, v + 1, gross);
    GrossUpMonotone(fee, v, v + 1);
    GrossUpIsAdjoint(fee, v, amount);
    hide Arrives, GrossUp;
  }

  /** The two directions of the entry point undo each other whenever both are in range. */
  lemma CalculateInverts(fee: TokenFee, v: int)
    requires Calculate(fee, v, true).Ok?
    requires v + Calculate(fee, v, true).value <= U64
    ensures
      var gross := v + Calculate(fee, v, true).value;
      && Calculate(fee, gross, false).Ok?
      && gross - Calculate(fee, gross, false).value == v
  {
    GrossUpIsExactAndLeast(fee, v, 0);
    hide GrossUp, Withheld;
  }
}
