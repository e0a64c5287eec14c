# Exact-integer swap quotes

This project models the offline quote engines of a Solana trading kit: the functions that
decide, from a snapshot of an exchange's state, how much a trade consumes, pays out and
charges. All of them compute on unbounded integers with explicit floors, ceilings and
64- and 128-bit range checks, so the model does the same on Dafny's `int`. A refusal
(`raise ValueError` in the original) is an `Err` of `Results.Result`.

Every engine comes as a functional specification (`Whirlpool.dfy`, `Clmm.dfy`, `Dlmm.dfy`,
…) that follows the code branch by branch. Where the original is a loop over mutable
state, a method with the same loop is proved to compute that specification
(`WhirlpoolSwap.dfy`, `ClmmSwap.dfy`, `DlmmSwap.dfy`, `TickPrice.dfy`, `PumpRoute.dfy`,
`PumpUpgrade.dfy`), and the theorems about whole runs are lemmas on the specification. A
statement "at every loop head" quantifies over `Visited(cfg, start, k)`, the state after
`k` passes.

| files | what they hold |
|---|---|
| `Rounding`, `BasisPoints`, `TradeFee`, `TransferFee`, `ConstantProduct`, `Bytes` | each rounding step and encoding once, with the law that pins it down |
| `BitProduct`, `TickPrice`, `TickGrid` | the tick-to-price map, its strict monotonicity, the binary search that inverts it, and how near every price is to the true power of 1.0001 |
| `LiquidityStep` | one constant-liquidity swap step with directed rounding |
| `TickBook`, `TickGroups` | the tick that brackets a price, summed net liquidity, and groups of ticks |
| `Whirlpool*` | the Orca loop with adaptive-fee tick groups |
| `Clmm*` | the Raydium loop with limit orders filled in place |
| `Dlmm*` | the Meteora bin walk and its skip-ahead index |
| `LaunchLab*`, `PumpV3*`, `PumpSwap*`, `Cpmm*` | curve and constant-product quotes |
| `PumpRoute`, `PumpUpgrade` | multi-hop route derivation and the instruction builder that checks it |

A pool is coherent when price(tick) <= price <= price(tick + 1) wherever those ticks are in
range. Main results:

- For all ticks and prices: the price map of both engines is strictly increasing, proved
  from 19 concrete gaps per table instead of by enumeration, and the binary search inverts
  it. Every price is the square root of 1.0001 to its tick up to 58 parts in 2^32, and the
  table entries behind it are pinned one by one.
- For all inputs: no Whirlpool or CLMM swap beats the starting spot price or spends more
  than its input, and Whirlpool output is monotone in its input. So is CLMM output, limit
  orders included, except downwards with the fee on the output; there it takes a coherent
  pool.
- For all inputs from a coherent pool: neither loop loses track of the tick or the liquidity
  book, and it is decided exactly when a CLMM result stops being coherent. (A first loop
  head is the pool itself, so an incoherent pool has no such result.)
- For all fee accounts and times: the reference carried over and the rate of the first pass
  follow from the account's own fields, and no swap beats its starting price less the least
  rate it was charged, on either fee side and with limit orders.
- For all fee parameters: whether every pass of every swap from a coherent pool charges each
  price its own group's fee is decided exactly, for both engines; for a CLMM pass that skips
  groups in any direction it is decided pass by pass.
- For all inputs: the DLMM walk that skips over empty bins returns what the bin-by-bin walk
  returns, its output is monotone, and a quote that completes with input left over has sold
  out every bin ahead, exactly unless it starts before all the loaded arrays.
- For all inputs: the capped LaunchLab input is least; the two Pump V3 quotes are adjoint
  across the curve and the pool; PumpSwap pairs invert with the stated slack; cached CPMM
  quotes conserve and are monotone on every fee side.
- For all inputs: LaunchLab, CPMM, Pump V3 and PumpSwap quotes deliver an amount exactly when
  the input covers its cost through every fee, stated over the pools' own fields.
- For all PumpSwap fee rates: whether buying by budget, selling, and selling back are
  monotone or lossless over every pool is decided exactly.
- For all routes: a multi-hop buy is accepted exactly when its reversal is accepted as a
  sell, and whatever is derived passes the builder.

Ten natural claims are false of the code. Each has an instance and its exact condition:

| claim | instance | exact condition |
|---|---|---|
| the returned CLMM tick brackets the returned price | `ClmmRangeEnd.TickLeftBehindHappens` | `ClmmLastStretch.ResultIsCoherentExactly`, on the arguments of one swap and whether it ends at the end of the range |
| a CLMM pass charges each price its own group's fee | `ClmmInwardFee.InwardFeeHappens` | `ClmmFaithful.AlwaysFaithfulExactly`, on the fee parameters; `ClmmFaithful.PassFaithfulExactly` for one pass |
| a larger CLMM input never returns less | `ClmmIncoherent.LargerInputReturnsLess` | `ClmmIncoherent.NeverReturnsLessExactly`, on the fee side and direction; a coherent pool suffices in the failing mode |
| a Whirlpool pass charges each price its own group's fee | `WhirlpoolFaithful.UnfaithfulFeeHappens` | `WhirlpoolFaithful.AlwaysFaithfulExactly`, on the fee parameters and the tick spacing |
| a capped LaunchLab quote can be repeated | `LaunchLab.UnrepeatableQuoteHappens` | `LaunchLab.CappedQuote`, on the launch |
| a larger LaunchLab offer is charged no less | `LaunchLab.LargerOfferChargedLess` | `LaunchLab.ChargeMonotoneExactly`, on the two offers |
| an exhaustive DLMM quote with input left over has sold every bin ahead | `DlmmAccount.GivesUpHappens` | `DlmmAccount.SwapSells`, on the active bin and the loaded arrays |
| selling more on PumpSwap never returns less | the pools of `PumpSwap.SellBaseDrops` | `PumpSwap.SellBaseMonotoneExactly`, on the fee rates |
| selling back what PumpSwap quotes for an amount returns that amount | `PumpSwap.SellReturnsTwoLess` | `PumpSwap.SellBackExactly`, on the fee rates |
| a larger PumpSwap budget never buys less | the pools of `PumpSwapJumps.BuyQuoteDrops` | `PumpSwapJumps.BuyQuoteMonotoneExactly`, on the fee rates |

## Model

| member | source | states |
|---|---|---|
| Rounding.FloorGe | src/calc/clmm.py:72 | floor division is the right adjoint of multiplication, which fixes every rounded-down quotient |
| Rounding.CeilLe | src/instruction/stonkfun.py:26-27 | ceiling division is the left adjoint of multiplication, which fixes every rounded-up quotient |
| BitProduct.Multiply | src/calc/whirlpool.py:62-65 | the bit-test, multiply and shift loop computes the recursive product over the bits of the magnitude |
| BitProduct.ProductKeepsGap | src/calc/clmm.py:45-48 | two running products that are far enough apart stay apart through all remaining multiply-and-shift rounds |
| BitProduct.SuccessorGap | src/calc/clmm.py:45-48 | going from a magnitude to the next one, a block of ones becomes zeros and one bit is set; the finished products differ by the final gap, for any table that passes 19 checks |
| TickPrice.PriceIncreases | src/calc/whirlpool.py:58-66 | the tick-to-price map of either engine is strictly increasing over the whole tick range |
| TickPrice.PriceBounds | src/calc/clmm.py:10-13 | the first and last tick have exactly the published minimum and maximum price |
| TickPrice.SqrtPriceAtTick | src/calc/clmm.py:38-49 | the entry point returns the price of a tick in range and refuses every other tick |
| TickPrice.TickAt | src/calc/clmm.py:52-63 | succeeds exactly on prices in the engine's range, with the tick whose price is at most the given one and whose successor's price exceeds it |
| TickPrice.BracketUnique | src/calc/clmm.py:52-63 | at most one tick brackets a price in that way, so the search has one right answer |
| TickPrice.TickAtSqrtPrice | src/calc/whirlpool.py:69-80 | the binary-search loop computes that tick |
| TickPrice.TickAtInvertsPrice | src/calc/whirlpool.py:58-80 | searching a tick's own price finds the tick; only the CLMM's last price is refused |
| TickGrid.PriceIsGeometric | src/calc/clmm.py:38-49 | the price of every tick in either engine is the square root of 1.0001 to the tick, in Q64.64, up to 58 parts in 2^32 either way |
| TickGrid.AdjacentRatio | src/calc/whirlpool.py:58-66 | one tick further multiplies the squared price by 10001 / 10000, up to a thousandth of the step |
| TickGrid.WhirlpoolPowers | src/calc/whirlpool.py:14-55 | at every power of two, in both signs, the Whirlpool ratio is the exact floor of the true power |
| TickGrid.ClmmPowers | src/calc/clmm.py:15-35 | at every power of two the CLMM ratio is the floored square of the one before up to a listed deviation |
| TickGrid.FirstClmmRatio | src/calc/clmm.py:16 | the first CLMM ratio is 2761 above the floor of the true root |
| TickGrid.ClmmReciprocal | src/calc/clmm.py:49 | above zero a CLMM price is the floored reciprocal of the price as far below |
| LiquidityStep.ReachIsFurthest | src/calc/clmm.py:102-107 | the price an input reaches is exactly the furthest one it can pay for, in both directions |
| LiquidityStep.EndPriceIsFurthest | src/calc/clmm.py:96-107 | a step ends between the current price and its target at a price it can pay for, and no affordable price lies beyond |
| LiquidityStep.ReachIsFinal | src/calc/clmm.py:102-112 | once an input has moved the price as far as it reaches, what its rounded cost leaves over moves it no further |
| LiquidityStep.NoLiquidityNoCost | src/calc/clmm.py:98-101 | moving without liquidity costs nothing, so the zero-liquidity refusal never fires |
| LiquidityStep.StepMeaning | src/calc/clmm.py:83-124 | a successful step ends at the furthest affordable price and reports the rounded-up cost and rounded-down yield of that move |
| LiquidityStep.StepSucceeds | src/calc/clmm.py:84-124 | a step with valid arguments succeeds exactly when its output fits u64 |
| LiquidityStep.FeeFits | src/calc/clmm.py:114-118 | an affordable input leaves room for its own rounded-up fee, and that fee is at least the rate of the gross amount |
| LiquidityStep.StepBudget | src/calc/clmm.py:83-124 | a step stays between its prices, spends at most what is left, spends everything when it misses the target, and charges at least its rate |
| LiquidityStep.StepNoBetter | src/calc/clmm.py:83-124 | no step pays better than any spot price at least as good as its own starting price |
| LiquidityStep.StepMonotone | src/calc/clmm.py:83-124 | more input yields at least as much, and a step that reaches its target does the same with more |
| TickBook.SortKeepsNet | src/calc/whirlpool.py:161 | sorting the ticks leaves every sum of net liquidity unchanged |
| TickBook.CoherentAt | src/calc/whirlpool.py:271-277 | landing on a tick's price is coherent with that tick and with the one before it |
| TickBook.CoherentOnTheWay | src/calc/whirlpool.py:278-279 | the tick re-derived from a price short of the next tick brackets it and has crossed nothing |
| WhirlpoolPass.NextTickMeaning | src/calc/whirlpool.py:228-230 | bisection finds the nearest initialized tick ahead, and none exactly when there is none |
| WhirlpoolPass.RunVisits | src/calc/whirlpool.py:221-225 | a successful run returns a finished state that one of its loop heads has |
| WhirlpoolLedger.PassKeepsLedger | src/calc/whirlpool.py:262-270 | every pass keeps: price between start and limit, remaining never negative, fees at least the lowest rate of what is spent, output no better than the spot price |
| WhirlpoolLedger.SwapConserves | src/calc/whirlpool.py:221-288 | a swap consumes at most its input, all of it unless it stops at its price limit, charges fee times 10^6 at least the minimum rate times what it consumed, and never beats the starting spot price |
| WhirlpoolLedger.FeeRatesSpan | src/calc/whirlpool.py:262-264 | at every loop head the reported minimum and maximum fee rates are the least and greatest rates of the passes made |
| WhirlpoolRule.SettleMeaning | src/calc/whirlpool.py:182-204 | an account settles to the pool's group and nothing when stale, to the pool's group and the floored reduced volatility once past the filter period, and to its own reference before; it is refused only when invalid, from the future or above its maximum |
| WhirlpoolRule.FirstPassRate | src/calc/whirlpool.py:182-243 | the first pass of every adaptive swap is charged the least rate that covers the pool rate and the variable part of the carried volatility, capped, all from the account's and pool's fields |
| WhirlpoolRule.BandIsTight | src/calc/whirlpool.py:204-210 | just inside either edge of the core band volatility is below its maximum, so the band is no wider than it must be |
| WhirlpoolRule.FreePass | src/calc/whirlpool.py:237-243 | with nothing in range or nothing that varies a pass may go straight to its target |
| WhirlpoolRule.SwapSucceeds | src/calc/whirlpool.py:221-288 | a swap succeeds exactly when it is set up and over before its 8192nd pass |
| WhirlpoolRule.SwapReports | src/calc/whirlpool.py:221-225 | a swap makes a pass, reports the state it ended in, and the least and greatest rate of the passes it made |
| WhirlpoolRule.SwapPaysReportedFee | src/calc/whirlpool.py:262-270 | what a swap pays out is no better than the starting price on its input less the fee it reports |
| WhirlpoolRule.SwapStaysLoaded | src/calc/whirlpool.py:137-138 | a swap ends within the tick arrays it was given, in the direction of the trade |
| WhirlpoolBook.PassKeepsBook | src/calc/whirlpool.py:271-279 | every pass keeps the tick bracketing the price and the liquidity equal to what the crossed ticks account for |
| WhirlpoolBook.VisitedBook | src/calc/whirlpool.py:221-288 | from a coherent pool, at every loop head the tick brackets the price, and liquidity is the start minus (down) or plus (up) the net liquidity of exactly the supplied ticks between start and current tick |
| WhirlpoolBook.SwapBook | src/calc/whirlpool.py:221-225 | the same holds of the returned price, tick and liquidity |
| WhirlpoolMonotone.PassMonotone | src/calc/whirlpool.py:226-287 | with more input a pass either does the same or the smaller input is used up and has bought no more |
| WhirlpoolMonotone.SwapMonotone | src/calc/whirlpool.py:221-288 | for the same pool, ticks, adaptive state and limit a larger input never returns less |
| WhirlpoolGroups.SettledBandSaturated | src/calc/whirlpool.py:187-210 | volatility is at its maximum from either edge of the derived core band outwards |
| WhirlpoolGroups.SkipIsSound | src/calc/whirlpool.py:239-261 | a pass with control and liquidity skips exactly outside the core band; every group it may pass then has saturated volatility and the very fee charged; inwards it is clamped where the band's edge group begins |
| WhirlpoolGroups.PassFaithful | src/calc/whirlpool.py:239-266 | a pass that starts inside its group charges each tick it moves through the fee of that tick's own group, skipping or not |
| WhirlpoolGroups.PassKeepsGroup | src/calc/whirlpool.py:280-287 | after every pass that does not end the run the price lies in the next pass's group and no initialized tick ahead lies inside it |
| WhirlpoolGroups.GroupsAdvance | src/calc/whirlpool.py:280-287 | every pass charges a group strictly further on |
| WhirlpoolGroups.FeesAreFaithful | src/calc/whirlpool.py:221-288 | in every pass of a swap from a coherent pool whose initialized ticks lie on group edges, or whose control or maximum is zero, all prices moved through are charged their own group's fee, and the fee taken is at least that rate |
| WhirlpoolGroups.DividingSizePutsTicksOnEdges | src/calc/whirlpool.py:150-155 | the ticks of every accepted swap lie on group edges when the group size divides the tick spacing |
| WhirlpoolFaithful.AlwaysFaithfulExactly | src/calc/whirlpool.py:182-287 | for every spacing, fee rate, group size, control and maximum: all passes of all accepted swaps from coherent pools are charged faithfully exactly when the size divides the spacing, or control or maximum is zero |
| WhirlpoolFaithful.SecondPassOvercharges | src/calc/whirlpool.py:239-287 | for every other choice, an accepted swap from a coherent pool whose second pass moves through a tick inside the group before at the next group's higher fee |
| WhirlpoolFaithful.UnfaithfulFeeHappens | src/calc/whirlpool.py:239-287 | a concrete one, which charges 40 millionths more than the tick's group |
| WhirlpoolSwap.FindNext | src/calc/whirlpool.py:228-229 | the bisecting lookup computes the specified next tick |
| WhirlpoolSwap.Pass | src/calc/whirlpool.py:226-287 | one pass, with the last looked-up price cached, computes the specified pass |
| WhirlpoolSwap.Traverse | src/calc/whirlpool.py:221-288 | the loop with its budget of 8192 passes computes the specified run |
| WhirlpoolSwap.SwapExactIn | src/calc/whirlpool.py:110-288 | the whole swap computes the specification all Whirlpool theorems are about |
| ClmmPass.NextMeaning | src/calc/clmm.py:237-250 | the pass heads for the nearest tick with liquidity or unfilled orders; every other such tick ahead is further away |
| ClmmLedger.BuysAndCost | src/calc/clmm.py:294-301 | what an input buys of the orders and what the orders cost are adjoint |
| ClmmLedger.PaysNoBetter | src/calc/clmm.py:288-302 | trading at the rounded order price is no better than the pool's price |
| ClmmLedger.FillMeaning | src/calc/clmm.py:287-307 | a fill completes the orders or exhausts the input, its cost and fee fit in what is left, and it pays no better than the pool |
| ClmmLedger.FillIsGreedy | src/calc/clmm.py:292-299 | a fill takes exactly the orders that the fee-free part of the input pays for |
| ClmmLedger.PassKeepsLedger | src/calc/clmm.py:268-316 | every pass keeps the totals within the spot price and the input, and any orders it changes are filled or the input is exhausted |
| ClmmLedger.OrdersFillInTurn | src/calc/clmm.py:283-316 | in every pass of every swap, orders only shrink, never below zero, and a tick whose orders change is filled completely or the input is used up |
| ClmmLedger.SwapConserves | src/calc/clmm.py:234-328 | a swap consumes at most its input, all of it unless it reaches its limit, and never beats the starting spot price, limit orders and either fee side included |
| ClmmFees.MoveAccounts | src/calc/clmm.py:269-282 | a move goes exactly as far as the input it may use reaches; what it spends and adds is the rounded cost and yield of that move with the fee taken off on its side, to the unit |
| ClmmFees.ArriveAccounts | src/calc/clmm.py:286-307 | an arrival fills exactly the orders the input without its fee pays for, and spends and adds their cost and worth with the fee on its side, to the unit |
| ClmmFees.SwapPaysFee | src/calc/clmm.py:234-328 | a swap reports the state its run ended in, and beats no price above the starting one less the lowest rate its passes were charged, on either fee side and with orders |
| ClmmFees.SwapSucceeds | src/calc/clmm.py:233-328 | a swap succeeds exactly when it is set up and over, at a loop head or stopped at the end of the range, after at most 8192 passes |
| ClmmRule.SettleMeaning | src/calc/clmm.py:205-210 | an account keeps its own reference within the filter period, then carries the pool's group with the floored reduced volatility, and from the decay period on none |
| ClmmRule.FirstPassRate | src/calc/clmm.py:196-258 | the first pass is charged the least rate that covers the pool rate and the variable part of the carried volatility, capped, all from the account's and pool's fields |
| ClmmRule.PassBound | src/calc/clmm.py:252-267 | a pass may go to its target when nothing is in range, nothing varies or volatility is at its maximum, and else to the edge of its group |
| ClmmRule.OutputFeeSide | src/calc/clmm.py:187 | the fee is on the output exactly when its mode names the token paid out |
| ClmmRule.SwapPaysPoolFee | src/calc/clmm.py:234-328 | no swap beats the starting price less the pool's own fee rate, taken at the cap under a dynamic fee |
| ClmmBook.PassKeepsBook | src/calc/clmm.py:283-318 | every pass keeps the bracketing tick and the liquidity book, except the one that runs into the end of the tick range and leaves tick and liquidity alone |
| ClmmBook.VisitedBook | src/calc/clmm.py:234-318 | from a coherent pool, at every loop head the tick brackets the price and liquidity accounts for the ticks crossed, each once |
| ClmmBook.SwapBook | src/calc/clmm.py:234-328 | the result's liquidity accounts for the ticks up to the returned tick, and that tick brackets the returned price unless the price is the end of the tick range, which takes a limit set there |
| ClmmRangeEnd.PassKeepsGuard | src/calc/clmm.py:283-318 | while a tick next to the end of the range still has liquidity or orders, no pass stops the loop with its tick behind |
| ClmmRangeEnd.PassApproaches | src/calc/clmm.py:268-318 | without one, a pass stops with its tick behind, or the run is over short of the end, stalled, or still on its way |
| ClmmLastStretch.StretchRun | src/calc/clmm.py:254-267 | upwards under a dynamic fee with a group boundary on the last tick but one, a run lands next to the end exactly when it skips no group after its last tick with liquidity or orders |
| ClmmLastStretch.ResultIsCoherentExactly | src/calc/clmm.py:234-328 | from a coherent pool the returned tick brackets the returned price exactly when the price is not the end of the range, or the pool or a supplied tick with liquidity or orders is next to the end, or the swap pauses at that last boundary; all but the first read only the arguments |
| ClmmLastStretch.ResultIsCoherent | src/calc/clmm.py:283-328 | on the arguments alone: a limit short of the end, a tick with liquidity or orders next to it, or such a pause makes the result of every accepted amount coherent |
| ClmmRangeEnd.TickLeftBehindHappens | src/calc/clmm.py:283-285 | a concrete coherent pool whose swap returns the minimum price with tick 0 |
| ClmmGroups.PassKeepsGroup | src/calc/clmm.py:319-325 | unless the run is over or stalled, a pass leaves the price in the group the next pass is charged in, with the ticks ahead beyond it |
| ClmmGroups.PassFaithful | src/calc/clmm.py:253-282 | a pass that stays in its group, or skips away from the reference, charges every tick it moves through that tick's own group's fee |
| ClmmGroups.FeesAreFaithful | src/calc/clmm.py:234-325 | the same in every pass of every swap from a coherent pool that moves the price with liquidity in range |
| ClmmGroups.SaturatedFaithfulExactly | src/calc/clmm.py:254-260 | a move from a saturated group is charged faithfully exactly when the traversed tick nearest the reference is charged the same |
| ClmmFaithful.PassFaithfulExactly | src/calc/clmm.py:234-325 | any pass of a swap from a coherent pool that moves the price with liquidity in range, skipping inwards or not, is charged faithfully exactly when the tick it moves through in the group nearest the reference is charged the same |
| ClmmFaithful.AlwaysFaithfulExactly | src/calc/clmm.py:179-267 | for every spacing, fee rate, control and maximum: all passes of all accepted swaps from coherent pools and storable accounts are charged faithfully exactly when the maximum is zero or the fee rate is at the cap |
| ClmmFaithful.InwardPass | src/calc/clmm.py:254-282 | for every other choice, an accepted swap whose first pass runs from a saturated group through the reference group |
| ClmmInwardFee.InwardFeeHappens | src/calc/clmm.py:254-267 | a concrete pass that skips towards the reference and charges the reference group 3600 millionths too much |
| ClmmMonotone.MoveMonotone | src/calc/clmm.py:269-282 | a move that reaches its bound is the same with more input; one that misses it uses everything up with the fee on the input, and ends exactly where its input reaches otherwise |
| ClmmMonotone.FillMonotone | src/calc/clmm.py:287-307 | a fill that leaves input over is the same with more input, and one that does not receives no more |
| ClmmMonotone.StalledNeverSucceeds | src/calc/clmm.py:270-282 | input left over after a missed target can never move the price again, so such a run spends its passes and is refused |
| ClmmMonotone.PassMonotone | src/calc/clmm.py:237-325 | with more input a pass does the same, or the smaller input is used up and has bought no more, or the smaller run is stalled |
| ClmmMonotone.SwapMonotone | src/calc/clmm.py:154-328 | for the same pool, ticks, fee state and limit a larger input never returns less, orders included: always upwards or with the fee on the input, and downwards with it on the output from a coherent pool |
| ClmmIncoherent.NeverReturnsLessExactly | src/calc/clmm.py:154-328 | over all pools, ticks, amounts, limits and fee accounts it holds in exactly the modes with the fee on the input or upwards |
| ClmmIncoherent.LargerInputReturnsLess | src/calc/clmm.py:234-328 | from an incoherent pool with the fee on the output it fails: two concrete accepted swaps, one more unit of input and a smaller output |
| ClmmSwap.FindNearest | src/calc/clmm.py:237-247 | the scan over the ticks and the live order array computes the specified candidate |
| ClmmSwap.FillAndCross | src/calc/clmm.py:286-316 | filling the order array in place and crossing computes the specified arrival |
| ClmmSwap.OnePass | src/calc/clmm.py:237-325 | one pass, orders updated in place, computes the specified pass |
| ClmmSwap.SwapExactIn | src/calc/clmm.py:154-328 | the whole swap, from the bytes of the dynamic-fee account and with orders updated in place, computes the specification all CLMM theorems are about |
| ClmmDynamic.DecodeEncodeDynamic | src/calc/clmm.py:179-195 | an account laid out at the source's offsets and widths is decoded to the fields it was written from, the signed reference included |
| ClmmDynamic.DecodedIsStorable | src/calc/clmm.py:184-195 | every decoded field lies in the range of its width and sign |
| Sorting.SortSorts | src/calc/dlmm.py:160 | sorting orders the elements and keeps each of them |
| Sorting.BisectRight | src/calc/dlmm.py:173 | the binary search counts the sorted elements up to a bound |
| Dlmm.PreparedIndexed | src/calc/dlmm.py:125-160 | the index built from the supplied bins is sorted and holds exactly the priced bins with something to sell |
| Dlmm.AdvanceReduces | src/calc/dlmm.py:172-187 | every skip strictly reduces the distance to the edge of the bin range, so the walk terminates without a budget |
| DlmmWalk.EmptyPasses | src/calc/dlmm.py:172-177 | no bin between the current one and the one the index skips to could have traded or been refused |
| DlmmWalk.FastIsPlain | src/calc/dlmm.py:181-233 | from any state the skipping walk and the bin-by-bin walk return the same outcome |
| DlmmWalk.SwapIsPlainWalk | src/calc/dlmm.py:84-233 | a quote equals the bin-by-bin walk's: output, remaining input, bins crossed, completeness and missing bin, in strict, partial and exhaustive modes |
| DlmmWalk.FillMeaning | src/calc/dlmm.py:208-223 | filling splits the input into used and left, pays at most the tiers and the used input's worth, and leaves input only after buying every tier at its own cost |
| DlmmWalk.FillMonotone | src/calc/dlmm.py:208-223 | more input fills at least as much, and the same once everything is filled |
| DlmmWalk.VisitConserves | src/calc/dlmm.py:200-230 | per bin, used plus left is the net input, the payout is covered, and when the walk continues the bin is sold out and input remains |
| DlmmWalk.WalkConserves | src/calc/dlmm.py:181-233 | a walk only adds output, returns no more input than it was given, and is incomplete exactly when it names a missing bin of an array that is not loaded |
| DlmmWalk.SwapMonotone | src/calc/dlmm.py:84-233 | a larger amount never quotes a smaller output |
| DlmmWalk.FeeGrowsWithDistance | src/calc/dlmm.py:204-206 | a bin further from the index reference is never charged less, and none above ten percent |
| DlmmAccount.VisitPaysHoldings | src/calc/dlmm.py:196-230 | a bin pays at most its own amount of the token paid out and the orders that sell it, at its own price or worse, and exactly that when the walk goes on |
| DlmmAccount.TierOrder | src/calc/dlmm.py:196-200 | a bin sells its own token first, then processed and then open orders, and orders only on their side and when supported |
| DlmmAccount.FillFirst | src/calc/dlmm.py:211-223 | each tier is bought in full for its least cost exactly when the input pays for it, and else takes the whole input for the most it pays for |
| DlmmAccount.VisitCharges | src/calc/dlmm.py:207-230 | what a bin is offered, what its fill costs and what the trader receives are exact on either fee side |
| DlmmAccount.SwapSells | src/calc/dlmm.py:178-233 | no quote pays more than selling out every supplied bin from the active one on; one that completes with input over pays exactly that, unless it is exhaustive and starts before all the arrays, where it pays nothing |
| DlmmAccount.GivesUpHappens | src/calc/dlmm.py:182-187 | a concrete exhaustive quote that leaves the only bin ahead unsold |
| DlmmAccount.WalkReports | src/calc/dlmm.py:182-193 | an exhaustive walk is always complete, and an incomplete one is a refusal exactly when strict |
| DlmmAccount.QuoteRate | src/calc/dlmm.py:161-206 | the rate of every bin is the least that covers the base rate and the variable part of the carried volatility, capped, and it is taken on the output only in fee mode 1 when token X is sold |
| DlmmSwap.IndexArrays | src/calc/dlmm.py:125-130 | the loop accepts exactly distinct arrays that touch the bin range and collects them |
| DlmmSwap.IndexBins | src/calc/dlmm.py:131-160 | the loop accepts exactly valid, distinct, loaded bins and builds the map and the sorted index |
| DlmmSwap.FillLoop | src/calc/dlmm.py:208-223 | the tier loop computes the specified fill |
| DlmmSwap.Skip | src/calc/dlmm.py:172-177 | the bisecting skip computes the specified next bin |
| DlmmSwap.WalkLoop | src/calc/dlmm.py:179-233 | the loop without a budget computes the specified walk |
| DlmmSwap.SwapExactIn | src/calc/dlmm.py:84-233 | the whole quote computes the specification all DLMM theorems are about |
| TransferFee.GrossUpIsAdjoint | src/instruction/stonkfun.py:48-54 | at least v of a transfer arrives exactly when it is at least v plus its inverse fee |
| TransferFee.GrossUpIsExactAndLeast | src/instruction/stonkfun.py:35-54 | v plus its inverse fee delivers exactly v and every smaller amount strictly less, at 10000 basis points and at the cap too |
| TransferFee.ArrivesMonotone | src/instruction/stonkfun.py:46-54 | a larger transfer never delivers less |
| TransferFee.CalculateInverts | src/instruction/stonkfun.py:35-54 | the two directions of the entry point undo each other whenever both are in range |
| TradeFee.RateIsAdjoint | src/instruction/stonkfun.py:106 | taking off a rounded-up fee and grossing up by the rounded-up quotient are adjoint |
| ConstantProduct.InIsAdjoint | src/instruction/stonkfun.py:107-119 | an input buys at least an amount exactly when it covers that amount's rounded-up cost |
| ConstantProduct.OutConserves | src/instruction/cached_cpmm.py:89 | a purchase never lowers the product of the reserves and never empties a priced side |
| LaunchLab.CapInputIsLeast | src/instruction/stonkfun.py:111-124 | the input solved back through curve, trade fee and transfer fee is the least one whose curve output reaches what is left to sell |
| LaunchLab.CappedBuy | src/instruction/stonkfun.py:111-125 | a capped buy pays exactly that input, sells exactly what is left, and its final minimum with the offer never binds |
| LaunchLab.CappedQuote | src/instruction/stonkfun.py:78-136 | a capped quote's input is least, and quoting it again gives the same quote exactly when the curve has a price and something left to sell, that is when the input is positive |
| LaunchLab.UnrepeatableQuoteHappens | src/instruction/stonkfun.py:78-136 | a concrete sale with nothing left, whose capped quote is an input of zero that is refused when offered |
| LaunchLab.ChargeMonotoneExactly | src/instruction/stonkfun.py:98-136 | a larger offer is charged no less, exactly unless it is capped and the smaller one, charged in full, already lies above the least input that sells the rest |
| LaunchLab.LargerOfferChargedLess | src/instruction/stonkfun.py:98-136 | a concrete sale whose last 100 units cost an offer of 1120 all of it and an offer of 1124 only 1112 |
| LaunchLab.QuoteMonotone | src/instruction/stonkfun.py:78-136 | a larger offer never lowers the guaranteed output of a buy or a sell, through every fee, the curve, the cap and the slippage |
| LaunchLabExact.BuyReceives | src/instruction/stonkfun.py:98-136 | a buy delivers an amount exactly when what must leave the sale for it is still there and the offer covers its cost through transfer fee, the four fee rates and the curve |
| LaunchLabExact.SellReceives | src/instruction/stonkfun.py:98-136 | a sell delivers an amount exactly when the offer covers the cost of what must come out of the curve for it through both transfer fees and the fee rates |
| LaunchLabExact.BuyCharges | src/instruction/stonkfun.py:114-125 | a buy charged less than its offer is charged the least offer that covers everything left |
| LaunchLabExact.SetUpAccepts | src/instruction/stonkfun.py:79-103 | a quote is set up exactly for arguments and a launch in range |
| BasisPoints.FeeBounds | src/calc/pump_v3.py:60-61 | a fee is its exact share rounded up by less than one |
| BasisPoints.LeastMeaning | src/calc/__init__.py:119-130 | the two slippage minima differ by at most one and never exceed the amount; only the first keeps a positive amount positive |
| PumpV3.NetIsGreatest | src/calc/pump_v3.py:64-67 | the net of a budget is the greatest amount that fits in it with both of its fees |
| PumpV3.CurveCostCovered | src/calc/pump_v3.py:70-71 | what the curve sells for a net amount costs no more than it |
| PumpV3.CurveCostTight | src/calc/pump_v3.py:70-71 | the charge for an amount never buys more than that amount |
| PumpV3.ExactInIsSound | src/calc/pump_v3.py:117-136 | an exact-in buy stays within its budget over both legs and all fees, lowers neither leg's product and opens the pool only after the curve is sold out |
| PumpV3.ExactOutIsSound | src/calc/pump_v3.py:96-114 | an exact-out buy delivers what was asked, or the rest of the curve on an allowed partial fill, and lowers neither product |
| PumpV3.ExactOutOfExactIn | src/calc/pump_v3.py:96-136 | asking for what a budget bought succeeds and costs no more than was spent |
| PumpV3.ExactInOfExactOut | src/calc/pump_v3.py:96-136 | spending what an amount was quoted at succeeds and buys no more than it, across the boundary, with mayhem and partial fills |
| PumpV3.ExactInMonotone | src/calc/pump_v3.py:117-136 | a larger budget never buys less |
| PumpV3Exact.ExactInOnCurve | src/calc/pump_v3.py:117-128 | a budget buys an amount on the curve exactly when there is that much and its net exceeds the cost; the charge and both fees are fixed to the unit |
| PumpV3Exact.ExactInInPool | src/calc/pump_v3.py:127-136 | a budget buys an amount from the pool exactly when it pays for one more than the curve has left and the net of what the curve leaves exceeds the cost in the pool of the state's own reserves |
| PumpV3Exact.ExactOutPays | src/calc/pump_v3.py:96-114 | an exact-out buy pays the curve's charge and the least amount that buys the rest from the pool, with both fees on each leg |
| PumpSwap.SpendableFits | src/calc/__init__.py:355-372 | the adjusted effective quote and its three fees fit in the budget; it falls at most two short of the greatest amount that does, and is the greatest when one of the fees never rounds |
| PumpSwap.BuyBaseOfBuyQuote | src/calc/__init__.py:281-388 | buying the base a budget bought succeeds and costs at most the budget, with signed virtual reserves |
| PumpSwap.BuyQuoteMonotone | src/calc/__init__.py:346-388 | a larger budget spends at most two units less, and buys no less when one of the fees never rounds |
| PumpSwapJumps.BuyQuoteMonotoneExactly | src/calc/__init__.py:355-381 | for every three u64 rates, buying by budget is monotone over every pool exactly when no amount a budget can reach jumps, that is pays two units more for its three rounded fees than for their rounded sum |
| PumpSwapJumps.ShareGe | src/calc/__init__.py:358-360 | the share of a budget before rounding reaches an amount exactly from that amount's least budget on |
| PumpSwapJumps.JumpsRecur | src/calc/__init__.py:355-372 | whether an amount jumps depends only on its remainder modulo 10000, so the condition can be checked |
| PumpSwap.SellBaseIsCovered | src/calc/__init__.py:448-482 | a sell succeeds exactly when the fees leave something and the real vault covers what leaves it; the product of the reserves never falls |
| PumpSwap.SellBaseOfSellQuote | src/calc/__init__.py:448-559 | selling the base quoted for an amount returns at least that amount less two, and all of it when at most one fee is charged, when both succeed |
| PumpSwap.SellBackExactly | src/calc/__init__.py:448-559 | over every pool it returns all of the amount exactly when at most one fee is charged, or the fees leave nothing and no amount is quoted |
| PumpSwap.SellReturnsTwoLess | src/calc/__init__.py:448-559 | a concrete pool where it returns exactly two less |
| PumpSwap.SellBaseMonotone | src/calc/__init__.py:457-475 | selling more returns at most two units less |
| PumpSwap.SellBaseMonotoneExactly | src/calc/__init__.py:457-475 | selling is monotone over every pool exactly when at most one fee is charged or the fees leave nothing |
| PumpSwapExact.BuyBaseMeaning | src/calc/__init__.py:281-313 | buying base is quoted at the least amount that buys it, with its three rounded fees and the greatest budget the slippage allows |
| PumpSwapExact.ReserveAccepts | src/calc/__init__.py:213-217 | a quote starts exactly from u64 arguments, positive vaults and a positive priced reserve |
| PumpSwapExact.BuyQuoteMeaning | src/calc/__init__.py:346-388 | a quote budget spends its greatest unrounded share, or what the rounded fees leave of it if less, and takes every base amount that costs less than what is spent |
| PumpSwapExact.SellBaseMeaning | src/calc/__init__.py:448-482 | selling base is quoted at the greatest amount it buys less its three rounded fees, and the minimum the slippage allows |
| PumpSwapExact.SellQuoteMeaning | src/calc/__init__.py:535-559 | asking for a quote amount is quoted at the least gross whose unrounded fees leave it and the least base that sells for that |
| Cpmm.CreatorPartBounds | src/instruction/cached_cpmm.py:87-88 | the creator's part of an input fee is its floored proportion and never exceeds the fee |
| Cpmm.QuoteAccounts | src/instruction/cached_cpmm.py:79-96 | input and output are accounted for to the unit: transfer fees, trade fee, creator fee on its side, and what is traded or arrives |
| Cpmm.QuoteConserves | src/instruction/cached_cpmm.py:79-96 | (in + net - fee) * (out - swapped) is at least in * out, and what arrives is below the output reserve |
| Cpmm.QuoteMonotone | src/instruction/cached_cpmm.py:47-96 | a larger input never lowers what arrives or its minimum, for every creator-fee side |
| Cpmm.QuoteIsSymmetric | src/instruction/cached_cpmm.py:72-84 | exchanging the two sides of a pool and the direction gives the same quote |
| CpmmExact.QuoteReceives | src/instruction/cached_cpmm.py:47-96 | an amount arrives exactly when the input covers the cost of what must come out of the curve for it, through both transfer fees, the trade fee and the creator fee on its side |
| CpmmExact.SetUpAccepts | src/instruction/cached_cpmm.py:47-77 | a quote is set up exactly for a positive amount, positive u64 reserves and rates in range |
| CpmmExact.SetUpMeaning | src/instruction/cached_cpmm.py:58-84 | reserves, transfer fees, rates and the creator fee's side follow from the pool and the direction |
| PumpRoute.DeriveAccounts | src/instruction/pump_compact_accounts.py:150-239 | the loop over the hops computes the specified derivation |
| PumpRoute.WalkMeaning | src/instruction/pump_compact_accounts.py:162-206 | the walk succeeds one way exactly when every remaining hop is canonical, carries cashback only at the currency end, and leaves with what the next one enters with |
| PumpRoute.DeriveMeaning | src/instruction/pump_compact_accounts.py:150-239 | a route is derived in a direction exactly when its normalized hops connect the normalized ends that way, with fewer than four hops or a lookup table |
| PumpRoute.ReversedRoute | src/instruction/pump_compact_accounts.py:150-239 | a buy route is accepted exactly when the reversed hops are accepted as a sell back; only the user's two accounts change places and the blocks of five come in reverse order |
| PumpRoute.NormalizeMeaning | src/instruction/pump_compact_accounts.py:13-29 | every spelling of the native currency becomes wrapped under the plain token program, and nothing else changes |
| PumpRoute.CanonicalIsUnique | src/instruction/pump_compact_accounts.py:173-197 | a canonical hop's address follows from its mints, a curve's vaults from the mints and their programs; completed curves and other pools are out |
| PumpRoute.ProgramAccounts | src/instruction/pump_compact_accounts.py:209-238 | the accounts of a derived route that depend on the programs and the user alone |
| PumpUpgrade.BuildInstruction | src/instruction/pump_upgrade.py:266-303 | the builder's loops compute the specified checks, key list and data bytes |
| PumpUpgrade.PackData | src/instruction/pump_upgrade.py:298-302 | the data is the discriminator, each amount in eight little-endian bytes, and the partial-fill flag if there is one |
| PumpUpgrade.DataDeterminesArguments | src/instruction/pump_upgrade.py:298-303 | two accepted instructions of one kind with equal data have equal amounts and partial-fill choice |
| PumpUpgrade.DerivedRouteBuilds | src/instruction/pump_upgrade.py:279-296 | every derived route passes the builder exactly when both amounts are positive u64; the user is the only signer and each hop adds five keys |
| PumpUpgrade.BuildAccepts | src/instruction/pump_upgrade.py:266-296 | an instruction is built exactly from valid amounts, given accounts and well-flagged blocks of five |
| PumpUpgrade.MultiHopLayout | src/instruction/pump_upgrade.py:199-222 | of the sixteen different named accounts of the multi-hop instruction only the user signs, and only its own and the buyback account are writable |
| PumpUpgrade.InstructionMeaning | src/instruction/pump_upgrade.py:283-303 | every amount can be read back from its eight bytes, the partial-fill choice from the last, and the keys are the named accounts with their own flags before the remaining ones |
| PumpUpgrade.DerivedInstruction | src/instruction/pump_compact_accounts.py:207-229 | the instruction of a derived route carries both amounts, the user's accounts on the sides it enters and leaves with, and the buyback account of its currency |
| PumpUpgrade.DerivedBlocks | src/instruction/pump_compact_accounts.py:198-203 | behind the named accounts come five addresses of every hop, mints read-only and the rest writable |

## Left out

- PumpSwap.SellBaseOfSellQuote: says nothing when the sell back is refused; `PumpSwap.SellBaseIsCovered` says exactly when that is.
- WhirlpoolFaithful.AlwaysFaithfulExactly: decided over all pools with given parameters; for one given set of ticks off the group edges `WhirlpoolGroups.FeesAreFaithful` makes no claim.
- ClmmMonotone.SwapMonotone: downwards with the fee on the output, which incoherent pools still behave is left open; `ClmmIncoherent.NeverReturnsLessExactly` decides it per mode.
- ClmmBook.VisitedBook: assumes that the pool's tick brackets its price, as do the Whirlpool book theorems; the code does not check it.
- Which refusal is reported when several apply: error kinds are coarser than the original's messages.
- Checks that an argument is an integer and not a boolean; DLMM bin amounts are natural numbers from the start.
- The wrappers that only fix PumpSwap's fee constants, and the slippage helper for buys beyond its use in the quotes.
- The account tables of the other upgrade instructions, the single-trade account derivations, the coin-creation chain and the choice between official and sequential routes.
- Program-derived addresses: arbitrary functions of their seeds, so nothing is said about collisions.
- Network access, signing, submission, caches, account decoders, the floating-point price helpers and the simplified legacy quotes.
