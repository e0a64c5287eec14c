/** A CLMM pass that skips groups towards the reference and charges the reference group
    the saturated fee. */
module ClmmInwardFee {
  import opened Results
  import opened Rounding
  import opened TickPrice
  import opened TickBook
  import opened TickGroups
  import opened Clmm
  import opened ClmmPass
  import opened ClmmGroups
  import opened ClmmFaithful

  const DYNAMIC := DynamicFee(10, 100, 5000, 99999, 10000, 0, 0, 0, 0)
  const CFG := Config(60, 3000, NO_TICKS, Q64, true, true, Dynamic(0, 0, 10000, 99999))

  /** A coherent pool at the start of tick 300, in group 5. */
  function PoolAt300(): Pool {
    Pool(Price(Engine.Clmm, 300), 1, 300, 60, 3000)
  }

  function Start(): State {
    State(Price(Engine.Clmm, 300), 300, 1, AMOUNT, 0, [], 5)
  }

  lemma PricesUpTo300()
    ensures MIN_SQRT_PRICE < Price(Engine.Clmm, 0) == Q64 < Price(Engine.Clmm, 300) < MaxSqrtPrice(Engine.Clmm)
  {
    RatiosAtZero();
    assert Price(Engine.Clmm, 0) == Q64;
    hide Price;
    PriceBounds(Engine.Clmm);
    PriceIncreases(Engine.Clmm, 0, 300);
    PriceIncreases(Engine.Clmm, 300, MAX_TICK);
  }

  lemma Volatilities()
    ensures Volatility(CFG.rule, 5) == 10000 && Volatility(CFG.rule, 0) == 0
    ensures VariableFee(99999, 600000) == 3600 && VariableFee(99999, 0) == 0
  {
  }

  lemma FeesOfGroups()
    ensures FeeAt(CFG, 5) == 6600 && FeeAt(CFG, 0) == 3000
    ensures Skips(CFG, 5, 1) && !MovesAway(CFG, 5)
  {
    hide Volatility, VariableFee;
    Volatilities();
  }

  lemma StartsAt300()
    ensures Prepare(PoolAt300(), NO_TICKS, AMOUNT, Q64, 0, Some(DYNAMIC), 0, true) == Ok((CFG, Start()))
    ensures Coherent(Engine.Clmm, PoolAt300().sqrtPrice, PoolAt300().tickCurrent)
  {
    PricesUpTo300();
    hide Price;
    CoherentAt(Engine.Clmm, 300);
    hide Coherent;
    assert SettleRule(DYNAMIC, 60, 5, 0) == Ok(CFG.rule);
    assert InitialOrders(NO_TICKS) == [];
    hide SettleRule, InitialOrders;
  }

  /** The first pass of an accepted swap from a coherent pool moves through tick 0, in the
      reference group, at more than twice that group's fee. */
  lemma InwardFeeHappens()
    ensures Prepare(PoolAt300(), NO_TICKS, AMOUNT, Q64, 0, Some(DYNAMIC), 0, true) == Ok((CFG, Start()))
    ensures Swap(PoolAt300(), NO_TICKS, AMOUNT, Q64, 0, Some(DYNAMIC), 0, true).Ok?
    ensures Coherent(Engine.Clmm, PoolAt300().sqrtPrice, PoolAt300().tickCurrent)
    ensures Visited(CFG, Start(), 0) == Ok(Start()) && !Finished(CFG, Start()) && Iterate(CFG, Start()).Ok?
    ensures
      var to := Iterate(CFG, Start()).value.state.current;
      && Traversed(Engine.Clmm, 0, Start().current, to)
      && FeeAt(CFG, Start().group) == FeeAt(CFG, 0) + 3600
      && !Faithful(CFG, Start().current, to, FeeAt(CFG, Start().group))
  {
    hide Price, FeeAt, Skips, Prepare, Coherent, Iterate, Run;
    StartsAt300();
    PricesUpTo300();
    FeesOfGroups();
    OnePass(CFG, Start());
    VisitedStart(CFG, Start());
    PriceIncreases(Engine.Clmm, 0, 1);
    ReachesLowGroup(CFG, 0, Start().current, FeeAt(CFG, 5));
    assert Traversed(Engine.Clmm, 0, Start().current, Q64);
  }
}
