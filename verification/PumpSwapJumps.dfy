/** For which fee rates a larger PumpSwap budget never buys less. The budget's share before
    rounding grows one unit at a time; buying gets worse exactly where the rounding of the
    three fees takes two units back at once. */
module PumpSwapJumps {
  import opened Rounding
  import opened BasisPoints
  import opened ConstantProduct
  import opened PumpSwap

  /** A larger budget never buys less base with these fees, whatever the pool. */
  ghost predicate NeverBuysWorse(fees: Fees) {
    forall p: Pool, less: int, more: int, slippageBps: int ::
      p.fees == fees && less <= more && BuyQuote(p, less, slippageBps).Ok? && BuyQuote(p, more, slippageBps).Ok?
      ==> BuyQuote(p, less, slippageBps).value.base <= BuyQuote(p, more, slippageBps).value.base
  }

  // ----- the part of the fees that rounds -----

  /** The three rounded-up fees at the parts of the rates beyond whole multiples. */
  function Parts(fees: Fees, n: nat): nat {
    Fee(n, fees.lp % BPS) + Fee(n, fees.protocol % BPS) + Fee(n, fees.creator % BPS)
  }

  /** Rounding these three fees apart takes two units more than rounding their sum. */
  predicate Jumps(fees: Fees, n: nat) {
    Fee(n, Residues(fees)) + 2 <= Parts(fees, n)
  }

  lemma FeeSplits(n: nat, bps: nat)
    ensures Fee(n, bps) == n * (bps / BPS) + Fee(n, bps % BPS)
  {
    FeeBounds(n, bps);
    FeeBounds(n, bps % BPS);
    hide Fee;
    var whole := bps / BPS;
    assert bps == BPS * whole + bps % BPS;
    assert n * bps == BPS * (n * whole) + n * (bps % BPS);
  }

  lemma AllFeesSplit(fees: Fees, n: nat)
    requires fees.InRange()
    ensures AllFees(fees, n) == n * Wholes(fees) + Parts(fees, n)
  {
    FeeSplits(n, fees.lp);
    FeeSplits(n, fees.protocol);
    FeeSplits(n, fees.creator);
    hide Fee;
    Distributes(n, fees.lp / BPS, fees.protocol / BPS, fees.creator / BPS);
  }

  lemma PartsBounds(fees: Fees, n: nat)
    ensures Fee(n, Residues(fees)) <= Parts(fees, n) <= Fee(n, Residues(fees)) + 2
    ensures OneNeverRounds(fees) ==> !Jumps(fees, n)
  {
    FeeBounds(n, fees.lp % BPS);
    FeeBounds(n, fees.protocol % BPS);
    FeeBounds(n, fees.creator % BPS);
    FeeBounds(n, Residues(fees));
    FeeMonotone(n, n, 0);
    hide Fee;
    Distributes(n, fees.lp % BPS, fees.protocol % BPS, fees.creator % BPS);
  }

  lemma PartsMonotone(fees: Fees, less: nat, more: nat)
    requires less <= more
    ensures Parts(fees, less) <= Parts(fees, more) && Fee(less, Residues(fees)) <= Fee(more, Residues(fees))
    ensures Parts(fees, 0) == 0
  {
    FeeMonotone(less, more, fees.lp % BPS);
    FeeMonotone(less, more, fees.protocol % BPS);
    FeeMonotone(less, more, fees.creator % BPS);
    FeeMonotone(less, more, Residues(fees));
    hide Fee;
  }

  lemma FeePeriod(n: nat, k: nat, bps: nat)
    ensures Fee(n + BPS * k, bps) == Fee(n, bps) + k * bps
  {
    FeeBounds(n, bps);
    FeeBounds(n + BPS * k, bps);
    hide Fee;
    assert (n + BPS * k) * bps == n * bps + BPS * (k * bps);
  }

  /** Jumps recur with every whole scale. */
  lemma JumpsRecur(fees: Fees, n: nat, k: nat)
    ensures Parts(fees, n + BPS * k) == Parts(fees, n) + k * Residues(fees)
    ensures Jumps(fees, n + BPS * k) <==> Jumps(fees, n)
  {
    FeePeriod(n, k, fees.lp % BPS);
    FeePeriod(n, k, fees.protocol % BPS);
    FeePeriod(n, k, fees.creator % BPS);
    FeePeriod(n, k, Residues(fees));
    hide Fee;
    Distributes(k, fees.lp % BPS, fees.protocol % BPS, fees.creator % BPS);
  }

  // ----- the least budget for a share -----

  /** The least budget whose share before rounding is `n`. */
  function LeastBudget(fees: Fees, n: nat): int {
    n + n * Wholes(fees) + Fee(n, Residues(fees))
  }

  lemma ShareGe(fees: Fees, quote: nat, n: nat)
    requires fees.InRange()
    ensures n <= Share(fees, quote) <==> LeastBudget(fees, n) <= quote
  {
    hide Wholes, Residues;
    FeesOnOne(fees);
    FloorGe(quote * BPS, BPS + fees.Total(), n);
    CeilLe(n * Residues(fees), BPS, quote - n - n * Wholes(fees));
    hide Ceil;
    Scaled(n, Wholes(fees), Residues(fees));
  }

  lemma Scaled(n: int, wholes: int, residues: int)
    ensures n * (BPS + (BPS * wholes + residues)) == n * BPS + BPS * (n * wholes) + n * residues
  {
  }

  lemma LeastBudgetRises(fees: Fees, n: nat)
    requires fees.InRange()
    ensures 0 <= LeastBudget(fees, n) < LeastBudget(fees, n + 1)
  {
    FeesOnOne(fees);
    PartsMonotone(fees, n, n + 1);
    MulMono(0, n, Wholes(fees));
    MulMono(n, n + 1, Wholes(fees));
    hide Fee, Wholes, Residues, Parts;
  }

  /** Without a jump the correction takes at most one unit back. */
  lemma CorrectionWithoutJump(fees: Fees, quote: nat)
    requires fees.InRange() && !Jumps(fees, Share(fees, quote))
    ensures Share(fees, quote) - 1 <= Spendable(fees, quote)
  {
    var n := Share(fees, quote);
    ShareGe(fees, quote, n);
    AllFeesSplit(fees, n);
    hide Share, AllFees, Parts, Fee, Wholes, Residues;
  }

  /** No amount that a budget can reach jumps; a total beyond u64 reaches none. */
  ghost predicate NoJumpInReach(fees: Fees)
    requires fees.InRange()
  {
    BPS + fees.Total() <= U64 ==> forall n: nat :: 3 <= n <= Share(fees, U64) ==> !Jumps(fees, n)
  }

  lemma SpendableMonotone(fees: Fees, less: nat, more: nat)
    requires fees.InRange() && less <= more <= U64 && NoJumpInReach(fees) && BPS + fees.Total() <= U64
    requires 0 < Spendable(fees, less) && 0 < Spendable(fees, more)
    ensures Spendable(fees, less) <= Spendable(fees, more)
  {
    hide Share, AllFees, Jumps;
    ShareGe(fees, less, Share(fees, less));
    ShareGe(fees, more, Share(fees, less));
    ShareGe(fees, more, Share(fees, more));
    ShareGe(fees, U64, Share(fees, more));
    hide LeastBudget;
    if Share(fees, less) < Share(fees, more) && 3 <= Share(fees, more) {
      CorrectionWithoutJump(fees, more);
    }
  }

  // ----- a jump lets a larger budget buy less -----

  const RICH: int := 1000000000000

  function RichPool(fees: Fees): Pool {
    Pool(2 * RICH, RICH, 0, fees)
  }

  lemma OutIsFloor(x: nat, y: nat, a: nat)
    requires x + a > 0
    ensures Out(x, y, a) == a * y / (x + a)
  {
  }

  /** In a pool this deep every unit more buys more. */
  lemma RichPoolSells(a: nat)
    requires a <= 100000
    ensures Out(RICH, 2 * RICH, a) == if a == 0 then 0 else 2 * a - 1
  {
    MulMono(a, 100000, a);
    FloorGe(a * (2 * RICH), RICH + a, 2 * a - 1);
    FloorGe(a * (2 * RICH), RICH + a, 2 * a);
    FloorGe(a * (2 * RICH), RICH + a, 0);
    assert (2 * a) * (RICH + a) == 2 * RICH * a + 2 * (a * a);
    assert (2 * a - 1) * (RICH + a) == 2 * RICH * a + 2 * (a * a) - RICH - a;
    if 0 < a {
      MulStrict(0, a, a);
    }
    OutIsFloor(RICH, 2 * RICH, a);
    hide Out;
  }

  /** An amount in reach that jumps, where the amount before pays for itself one unit of
      budget earlier. */
  predicate Drops(fees: Fees, n: nat)
    requires fees.InRange()
  {
    && 3 <= n <= 2 * BPS && n <= Share(fees, U64) && Jumps(fees, n)
    && Parts(fees, n - 1) <= Fee(n, Residues(fees)) + Wholes(fees)
  }

  lemma SpendableDrops(fees: Fees, n: nat)
    requires fees.InRange() && Drops(fees, n)
    ensures 3 <= n <= 2 * BPS && 0 < LeastBudget(fees, n) <= U64
    ensures Share(fees, LeastBudget(fees, n) - 1) == n - 1 && Share(fees, LeastBudget(fees, n)) == n
    ensures Spendable(fees, LeastBudget(fees, n) - 1) == n - 1 && Spendable(fees, LeastBudget(fees, n)) == n - 2
    ensures AllFees(fees, n - 1) <= AllFees(fees, n) <= U64
  {
    hide Share, AllFees, Parts, Fee, Wholes, Residues;
    ShareGe(fees, U64, n);
    LeastBudgetRises(fees, n - 1);
    LeastBudgetRises(fees, n);
    var budget := LeastBudget(fees, n);
    ShareGe(fees, budget, n);
    ShareGe(fees, budget, n + 1);
    ShareGe(fees, budget - 1, n - 1);
    ShareGe(fees, budget - 1, n);
    AllFeesSplit(fees, n);
    AllFeesSplit(fees, n - 1);
    AllFeesMonotone(fees, n - 1, n);
    PartsBounds(fees, n);
    assert (n - 1) * Wholes(fees) == n * Wholes(fees) - Wholes(fees);
  }

  lemma BuyQuoteDrops(fees: Fees, n: nat)
    requires fees.InRange() && BPS + fees.Total() <= U64 && Drops(fees, n)
    ensures
      var less := BuyQuote(RichPool(fees), LeastBudget(fees, n) - 1, 0);
      var more := BuyQuote(RichPool(fees), LeastBudget(fees, n), 0);
      less.Ok? && more.Ok? && more.value.base < less.value.base
  {
    hide Share, AllFees, Out, CheckedFees, LeastBudget, Spendable, Drops;
    SpendableDrops(fees, n);
    RichPoolSells(n - 2);
    RichPoolSells(n - 3);
    assert CheckedFees(fees, n).Ok? && CheckedFees(fees, n - 1).Ok?;
  }

  /** From a jump down to the first one. */
  lemma {:induction false} FirstJump(fees: Fees, n: nat) returns (first: nat)
    requires Jumps(fees, n)
    ensures 0 < first <= n && Jumps(fees, first) && !Jumps(fees, first - 1)
  {
    PartsMonotone(fees, 0, n);
    assert !Jumps(fees, 0);
    hide Jumps;
    if Jumps(fees, n - 1) {
      first := FirstJump(fees, n - 1);
    } else {
      first := n;
    }
  }

  /** A residue beyond the scale charges more for every unit. */
  lemma FeeRises(n: nat, bps: nat)
    requires BPS <= bps
    ensures Fee(n, bps) < Fee(n + 1, bps)
  {
    FeeBounds(n, bps);
    FeeBounds(n + 1, bps);
    hide Fee;
    assert (n + 1) * bps == n * bps + bps;
  }

  /** With small rates every amount up to two scales is in reach. */
  lemma InReach(fees: Fees, n: nat)
    requires fees.InRange() && Wholes(fees) <= 1 && n <= 2 * BPS
    ensures n <= Share(fees, U64)
  {
    FeesOnOne(fees);
    ShareGe(fees, U64, n);
    MulMono(Wholes(fees), 1, n);
    MulMono(n, 2 * BPS, Residues(fees));
    CeilLe(n * Residues(fees), BPS, 2 * Residues(fees));
    hide Share, Ceil;
  }

  /** When all three fees round, and their residues sum to at most the scale, the first
      unit jumps, and so does the one past a whole scale. */
  lemma FirstUnitJumps(fees: Fees)
    requires fees.InRange() && !OneNeverRounds(fees) && Residues(fees) <= BPS
    ensures Jumps(fees, BPS + 1) && Parts(fees, BPS) == Residues(fees)
    ensures Fee(BPS + 1, Residues(fees)) == Residues(fees) + 1
  {
    assert 0 < Residues(fees);
    hide Fee, Parts, AllFees, Residues, OneNeverRounds, Wholes;
    JumpsRecur(fees, 1, 1);
    JumpsRecur(fees, 0, 1);
    FeePeriod(1, 1, Residues(fees));
    PartsMonotone(fees, 0, 1);
    FeesOnOne(fees);
    AllFeesSplit(fees, 1);
    FeeBounds(1, Residues(fees));
  }

  lemma JumpAtScale(fees: Fees, n: nat)
    requires fees.InRange() && Jumps(fees, n) && Residues(fees) <= BPS && Wholes(fees) <= 1
    ensures Drops(fees, BPS + 1)
  {
    PartsBounds(fees, n);
    FeesOnOne(fees);
    InReach(fees, BPS + 1);
    hide Fee, Share, Parts, Residues, OneNeverRounds, Wholes;
    FirstUnitJumps(fees);
  }

  /** There the jumps in reach are those of three fees that round. */
  lemma RoundingReachesJump(fees: Fees)
    requires fees.InRange() && !OneNeverRounds(fees) && Residues(fees) <= BPS && 2 * (BPS + fees.Total()) <= U64
    ensures !NoJumpInReach(fees)
  {
    hide Fee, Share, Parts, Residues, OneNeverRounds, Wholes, Jumps;
    FirstUnitJumps(fees);
    FeesOnOne(fees);
    ShareGe(fees, U64, BPS + 1);
    assert Jumps(fees, BPS + 1) && 3 <= BPS + 1 <= Share(fees, U64);
  }

  /** Rates that sum to more than the scale drop at their first jump. */
  lemma DropAtFirstJump(fees: Fees, n: nat) returns (drop: nat)
    requires fees.InRange() && Jumps(fees, n) && n <= BPS < Residues(fees) && Wholes(fees) <= 1
    ensures Drops(fees, drop)
  {
    hide Jumps, Fee, Share, Parts, Wholes, Residues;
    FeesOnOne(fees);
    var first := FirstJump(fees, n);
    drop := first + BPS;
    JumpsRecur(fees, first, 1);
    JumpsRecur(fees, first - 1, 1);
    InReach(fees, drop);
    FeeRises(drop - 1, Residues(fees));
    assert Parts(fees, drop - 1) < Fee(drop - 1, Residues(fees)) + 2 by {
      assert !Jumps(fees, drop - 1);
      NotJumps(fees, drop - 1);
    }
  }

  lemma NotJumps(fees: Fees, n: nat)
    requires !Jumps(fees, n)
    ensures Parts(fees, n) < Fee(n, Residues(fees)) + 2
  {
    hide Parts, Fee;
  }

  /** Every jump in reach makes some budget buy less than a smaller one. */
  lemma JumpDrops(fees: Fees, n: nat) returns (drop: nat)
    requires fees.InRange() && 3 <= n <= Share(fees, U64) && Jumps(fees, n)
    ensures Drops(fees, drop)
  {
    hide Fee, Share, Parts, Residues, Wholes, Jumps;
    var low := n % BPS;
    JumpsRecur(fees, low, n / BPS);
    assert low + BPS * (n / BPS) == n;
    JumpsRecur(fees, low, 1);
    if 2 <= Wholes(fees) {
      drop := if n <= 2 * BPS then n else low + BPS;
      PartsMonotone(fees, drop - 1, drop);
      PartsBounds(fees, drop);
    } else if Residues(fees) <= BPS {
      drop := BPS + 1;
      JumpAtScale(fees, n);
    } else {
      drop := DropAtFirstJump(fees, low);
    }
  }

  /** Buying by budget is monotone over every pool exactly when no amount in reach jumps,
      which is so whenever one of the fees never rounds. */
  lemma BuyQuoteMonotoneExactly(fees: Fees)
    requires fees.InRange()
    ensures NeverBuysWorse(fees) <==> NoJumpInReach(fees)
    ensures OneNeverRounds(fees) ==> NoJumpInReach(fees)
    ensures Residues(fees) <= BPS && 2 * (BPS + fees.Total()) <= U64 ==> (NoJumpInReach(fees) <==> OneNeverRounds(fees))
  {
    hide BuyQuote, OneNeverRounds, Share, Jumps, Drops;
    if NoJumpInReach(fees) {
      forall p: Pool, less: int, more: int, slippageBps: int
        | p.fees == fees && less <= more && BuyQuote(p, less, slippageBps).Ok? && BuyQuote(p, more, slippageBps).Ok?
        ensures BuyQuote(p, less, slippageBps).value.base <= BuyQuote(p, more, slippageBps).value.base
      {
        BuysNoWorse(p, less, more, slippageBps);
      }
    } else {
      var n: nat :| 3 <= n <= Share(fees, U64) && Jumps(fees, n);
      var drop := JumpDrops(fees, n);
      BuyQuoteDrops(fees, drop);
    }
    forall n: nat
      ensures OneNeverRounds(fees) ==> !Jumps(fees, n)
    {
      PartsBounds(fees, n);
    }
    if !OneNeverRounds(fees) && Residues(fees) <= BPS && 2 * (BPS + fees.Total()) <= U64 {
      RoundingReachesJump(fees);
    }
  }

  lemma BuysNoWorse(p: Pool, less: int, more: int, slippageBps: int)
    requires less <= more && BuyQuote(p, less, slippageBps).Ok? && BuyQuote(p, more, slippageBps).Ok?
    requires p.fees.InRange() && NoJumpInReach(p.fees)
    ensures BuyQuote(p, less, slippageBps).value.base <= BuyQuote(p, more, slippageBps).value.base
  {
    hide Out, Spendable, AllFees, Share, NoJumpInReach;
    SpendableMonotone(p.fees, less, more);
    OutMonotone(p.quote + p.virtualQuote, p.base, Spendable(p.fees, less) - 1, Spendable(p.fees, more) - 1);
  }
}
