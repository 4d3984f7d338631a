# RAI market simulation: a Dafny model

This project models the core of an agent-based simulation of the RAI
stablecoin system. It covers four parts:

- **`Uniswap`** (uniswap.py) is a fee-less constant-product RAI/ETH pool. It holds reserves R and E, a supply S of
  liquidity (LP) tokens and a window of at most 16 end-of-hour spot prices
  that feeds a 16-hour TWAP.
- **`RaiSystem`** (rai_system.py) is the debt system. It keeps a ledger of safes keyed by the
  decimal string of an id counter, running collateral and debt totals, and a
  redemption price that an hourly redemption rate moves. A proportional
  controller sets that rate.
- **The three agents** (agents/BuyAndSellApe.py, agents/ShortRAI.py,
  agents/LongETH.py):
  - the ape (`BuyAndSellApes`) provides all its ETH as liquidity while the APY it expects beats its threshold;
  - the RAI shorter (`ShortRai`) mints and sells RAI while the market premium is high;
  - the leveraged ETH long (`LongEth`) opens a safe after weeks of rising ETH prices.

  `DebtPositions` holds the arithmetic the shorter and the long share.
  agents.py repeats the same three classes verbatim:
  - BuyAndSellApe is at the same line numbers;
  - ShortRAI is 249 lines further down;
  - LongETH is 528 lines further down.

  Each row below that cites agents/*.py applies equally to agents.py at that offset.
- **`Simulation`** (simulation.py:166-245) is one hour of the run. The redemption rate is recorded and
  the redemption price moves by it. Every agent then acts once, in shuffled order. The
  controller may set a new rate from the TWAP read at the start of the hour,
  and the pool records its end-of-hour spot price.

## How the model is built

- Quantities are exact `real`s.
- Objects the source updates in place are classes whose methods are proved
  against pure functions: `UniswapPool`, `RAISystem`, `BuyAndSellApe`, `ShortRAI` and `LongETH`.
  Each wallet dictionary becomes fields.
- Random draws are arguments:
  - the uniform constructor parameters;
  - the permutation `random.shuffle` picks;
  - the ETH price series.
- `math.sqrt` is a function argument `sqrt` constrained by `IsSqrt`.
- `x ** 8760` is an exact power.
- Where Python raises or exits, there are two cases:
  - a leaf operation states the failure as a precondition;
  - the hour checks the same condition just before the call and returns `ok == false`.

Several source quirks are modelled as written, because the code and its comments disagree:

- `modifySafe` adds the deltas to the safe but leaves `total_collateral` and
  `total_debt` alone. The model therefore states the totals invariant as a drift,
  `total - sum over live safes`. OpenSafe, CloseSafe, Mint and BuyAndRepay preserve the drift;
  ModifySafe shifts it by exactly the deltas.
- `modifySafe` compares a plain ratio (collateral value over debt value) with the percent constant 145.
  As a result, a safe opened at any collateralization up to 14500 percent fails the check
  (`RaiSystem.ModifyCheckRejectsOpenedSafe`). A long's open tops its fresh safe up with the sale
  proceeds, and that check passes only when the proceeds exceed about 99 times the collateral
  (`LongEth.TopUpAfterMintCheck`). In any ordinary pool the run therefore stops at the check's
  assertion (rai_system.py:239) the first time a long opens, which is `ok == false` in the model.
- `buyAndRepay` never swaps in the pool. It only prices the debt with
  `ETHInGivenRAIOut` and charges the wallet for it.
- The trend tests index the whole ETH price series from its end, not the prices up to the current hour.
- `ShortRAI.isLossAboveStopLoss` has no active-safe guard, unlike LongETH's, so it
  requires a live last safe.

## Model

| member | source | states |
|---|---|---|
| Numeric.TruncToInt | agents/LongETH.py:69-79 | `int()` truncates toward zero: for x >= 0 the result is the largest integer not above x, and for x < 0 the smallest not below it |
| Uniswap.SwapOutput | uniswap.py:224-238 | a swap pays out a positive amount, strictly less than the output reserve, and the new reserves keep the product k = R * E |
| Uniswap.EthForRaiOut | uniswap.py:362-372 | for 0 < x < R the ETH quoted is positive, and a swap of exactly that ETH pays out exactly x |
| Uniswap.EthForSwapOutput | uniswap.py:362-372 | the other direction of the round trip: quoting the ETH for what a purchase with e returns gives back e |
| Uniswap.SwapOutputInjective | uniswap.py:227-238 | two different inputs never give the same swap output |
| Uniswap.LiquidityMinted | uniswap.py:86-88 | a positive deposit mints a positive amount, and its share of the grown supply equals the deposit's share of the grown RAI reserve |
| Uniswap.Withdrawal | uniswap.py:190-194 | a withdrawal is taken in the pool's price ratio, and burning 0 < lp < S pays strictly positive amounts below each reserve |
| Uniswap.AddThenRemove | uniswap.py:82-201 | depositing a RAI and b ETH and burning the LP tokens minted returns all a RAI for any b, and returns b ETH exactly when b·R = a·E (a deposit at the pool price) |
| Uniswap.LiquidityAfterBuying | uniswap.py:145-163 | buying RAI with e and depositing it at the new spot price mints S * e / E LP tokens, whatever the RAI reserve |
| Uniswap.PushPrice | uniswap.py:340-346 | the window grows by one until it holds 16 prices, then keeps its length, and always holds the latest prices in order |
| Uniswap.PushPricesKeepsLatest | uniswap.py:340-346 | after any sequence of pushes, the window holds exactly the most recent min(16, all) prices |
| Uniswap.TwapWithinBounds | uniswap.py:357-360 | a warm TWAP lies between any lower and upper bound of the window's prices |
| Uniswap.TwapAfterWarmUp | uniswap.py:340-360 | after 16 or more pushes, the TWAP is the mean of the last 16 prices pushed, whatever the window held before |
| Uniswap.TwapColdStart | uniswap.py:357-359 | with fewer than 16 prices pushed into an empty window, the TWAP is the initial spot price |
| Uniswap.UniswapPool.constructor | uniswap.py:46-54 | the pool starts with the given reserves, an empty window, LP supply sqrt(R * E) and initial spot price E / R |
| Uniswap.UniswapPool.GetSpotPrice | uniswap.py:56-62 | the spot price is positive, and the spot price times R equals E |
| Uniswap.UniswapPool.AddLiquidity | uniswap.py:65-97 | both amounts are added to the reserves; the supply grows by the LP tokens minted, which equal the preview's; the window is unchanged |
| Uniswap.UniswapPool.VirtualAddLiquidity | uniswap.py:99-121 | the preview mints a positive amount, which is the deposit's share of the grown RAI reserve |
| Uniswap.UniswapPool.VirtualAddLiquidityAfterBuyingRai | uniswap.py:123-163 | reserves, supply and window end exactly as they started; the result is the LP that buying then depositing would mint |
| Uniswap.UniswapPool.RemoveLiquidity | uniswap.py:165-201 | pays lp / S of each reserve, takes it out of the reserves, burns lp from the supply and keeps all three positive |
| Uniswap.UniswapPool.BuyRai | uniswap.py:203-238 | adds the ETH and pays out what the preview would; R * E, the supply and the window are unchanged |
| Uniswap.UniswapPool.VirtualBuyRai | uniswap.py:240-271 | the preview pays a positive amount below the RAI reserve that keeps R * E, with no state change |
| Uniswap.UniswapPool.SellRai | uniswap.py:273-308 | adds the RAI and pays out a positive amount below the ETH reserve, keeping R * E, the supply and the window |
| Uniswap.UniswapPool.GetTotalValueLockedInEth | uniswap.py:310-324 | the TVL in ETH is twice the ETH reserve |
| Uniswap.UniswapPool.AddHourlyPrice | uniswap.py:326-346 | the window becomes the push of the end price, dropping the oldest when 16 are held |
| Uniswap.UniswapPool.GetTwap | uniswap.py:348-360 | returns the initial spot price below 16 samples; otherwise 16 times the TWAP is their sum and it lies between their lowest and highest |
| Uniswap.UniswapPool.EthInGivenRaiOut | uniswap.py:362-372 | for 0 < x < R the ETH needed is positive, and a purchase with it yields exactly x |
| RaiSystem.ProportionalRate | rai_system.py:96-99 | with a positive gain, the rate is positive, zero or negative exactly when the market price (TWAP times ETH/USD) is below, at or above the redemption price |
| RaiSystem.DecimalString | rai_system.py:158-159 | `str(n)` is non-empty and has two or more digits exactly when n >= 10 |
| RaiSystem.DecimalStringInjective | rai_system.py:158-161 | distinct counters give distinct safe ids |
| RaiSystem.TotalAfterOpen | rai_system.py:161-164 | the id of a fresh counter is not yet in the ledger, and adding its safe raises the sum over live safes by that safe's amount |
| RaiSystem.TotalAfterRemove | rai_system.py:193-197 | deleting a live safe lowers the sum over live safes by that safe's amount |
| RaiSystem.ReplaceSafe | rai_system.py:232-234 | replacing a live safe keeps the ids handed out and shifts each sum by that safe's change |
| RaiSystem.DebtToMint | rai_system.py:160 | the debt minted makes collateral value over debt value equal collateralization / 100, and it is positive for positive inputs |
| RaiSystem.ModifyCheckRejectsOpenedSafe | rai_system.py:236-239 | a safe opened at any collateralization in (145, 14500] percent fails modifySafe's check even when nothing is changed |
| RaiSystem.RAISystem.constructor | rai_system.py:45-76 | accepts only P/PI/PID with 1/2/3 gains; starts with rate 0, zero totals, no safes and counter 0; max RAI per ETH is the ETH price / 1.45 / redemption price |
| RaiSystem.RAISystem.UpdateRedemptionRateHourly | rai_system.py:78-102 | succeeds exactly for controller "P", and then sets the rate to Kp * (redemption price - TWAP * ETH/USD) |
| RaiSystem.RAISystem.UpdateRedemptionPriceHourly | rai_system.py:104-122 | adds the rate to the redemption price exactly once; the run continues exactly when the result is not negative |
| RaiSystem.RAISystem.OpenSafe | rai_system.py:124-166 | stores the safe under the fresh id str(counter), increments the counter, adds collateral and minted debt to the totals, and preserves totals minus sums |
| RaiSystem.RAISystem.CloseSafe | rai_system.py:168-199 | deletes only that id, returns its collateral, subtracts its collateral and debt from the totals and preserves totals minus sums; its debt is not checked |
| RaiSystem.RAISystem.GetSafe | rai_system.py:241-250 | returns the ledger entry of a live id; a missing id is the KeyError that the precondition excludes |
| RaiSystem.RAISystem.ModifySafe | rai_system.py:201-239 | adds both deltas to the one safe and shifts the sums by them, leaving the totals as they were; ok exactly when collateral value / debt value > 145 |
| DebtPositions.WalletAfterRepay | agents/ShortRAI.py:205-216 | after repaying, the wallet is max(w - needed, 0) + collateral, and so never below the collateral returned |
| DebtPositions.LossAboveStopLoss | agents/ShortRAI.py:264-270 | the stop loss triggers exactly when the drop in net worth exceeds stop-loss percent of the starting net worth, with the sign of the start taken into account |
| BuyAndSellApes.SpendToBalance | agents/BuyAndSellApe.py:213-214 | the ETH spent, E * (sqrt(1 + w / E) - 1), is strictly between 0 and w, and E + spend is the geometric mean of E and E + w |
| BuyAndSellApes.BalancedRemainder | agents/BuyAndSellApe.py:213-219 | after that purchase, the ETH left and the RAI bought stand exactly in the new spot price's ratio, so both can be deposited whole |
| BuyAndSellApes.ShareAfterProviding | agents/BuyAndSellApe.py:123-127 | a deposit minting S * spend / E holds spend / (E + spend) of the grown supply, a share strictly between 0 and 1 |
| BuyAndSellApes.ProvideOutcome | agents/BuyAndSellApe.py:213-221 | buying with spend and depositing the result mints S * spend / E > 0 LP, which is spend / (E + spend) of the new supply |
| BuyAndSellApes.ExtrapolatedRedemptionPrice | agents/BuyAndSellApe.py:142-143 | a year of compounding leaves the price unchanged at rate 0, raises it under a positive rate, and lowers it but keeps it positive under a small negative rate |
| BuyAndSellApes.SystemApy | agents/BuyAndSellApe.py:142-147 | the size of the system APY is 100 times the distance between 1 and future redemption price / market price; its sign follows the sign of rate / redemption price |
| BuyAndSellApes.SystemApyWithoutRate | agents/BuyAndSellApe.py:142-147 | at rate zero the system APY is minus the distance between the redemption price and the market price |
| BuyAndSellApes.ApyForShare | agents/BuyAndSellApe.py:129-148 | the pool share cancels out: the APY on any share is the APY of the whole pool |
| BuyAndSellApes.BuyAndSellApe.constructor | agents/BuyAndSellApe.py:35-79 | RAI and LP start at 0, ETH and both thresholds at their draws, and the current APY at 0 |
| BuyAndSellApes.BuyAndSellApe.PotentialPoolShare | agents/BuyAndSellApe.py:114-127 | the pool is restored exactly; the share the ape would get is spend / (E + spend), strictly between 0 and 1 |
| BuyAndSellApes.BuyAndSellApe.IsApyGood | agents/BuyAndSellApe.py:81-185 | the pool is unchanged; the current APY is the pool's APY; the share is lp / S, or the potential share when lp == 0; the result is APY >= threshold |
| BuyAndSellApes.BuyAndSellApe.BuyAndProvide | agents/BuyAndSellApe.py:187-223 | wallet ETH ends at 0 and all of it in the pool, RAI reserve unchanged; LP grows by S * spend / E, the fresh provider holds spend / (E + spend) |
| BuyAndSellApes.BuyAndSellApe.RemoveAndSell | agents/BuyAndSellApe.py:225-251 | all LP is burned; the ape is credited the withdrawn ETH plus what the withdrawn RAI sells for in the drained pool; the RAI reserve ends where it began; ETH moves only between the pool and the ape |
| ShortRai.ShortRAI.constructor | agents/ShortRAI.py:52-80 | RAI 0, no safes, counter 0, net worth before shorting = initial ETH, target 0 |
| ShortRai.ShortRAI.UpdateWallet | agents/ShortRAI.py:82-101 | adds both signed deltas and changes nothing else |
| ShortRai.ShortRAI.IsDifferenceAboveThreshold | agents/ShortRAI.py:103-132 | for a positive ETH price: true exactly when (100 - threshold) * spot in USD > 100 * redemption price |
| ShortRai.ShortRAI.Mint | agents/ShortRAI.py:134-166 | with no active safe, opens one safe under a fresh id, records it, credits the minted RAI, debits the collateral and sets the target; otherwise nothing changes |
| ShortRai.ShortRAI.BuyAndRepay | agents/ShortRAI.py:168-219 | wallet ETH becomes max(w - needed, 0) + collateral; RAI 0, counter - 1, last safe deleted; the pool is not touched |
| ShortRai.ShortRAI.SellRai | agents/ShortRAI.py:221-241 | credits the pool's swap output for the whole RAI balance and zeroes it |
| ShortRai.ShortRAI.IsLossAboveStopLoss | agents/ShortRAI.py:243-270 | with a positive net worth before shorting, true exactly when the drop in net worth (ETH + collateral - ETH to buy the debt) exceeds stop-loss percent of it; with a negative one, exactly when the drop is below that (the division turns the inequality round) |
| ShortRai.ShortRAI.IsSpotPriceBelowTarget | agents/ShortRAI.py:272-282 | for a positive ETH price: true exactly when the spot price in USD is below the target |
| LongEth.RisesCompound | agents/LongETH.py:274-286 | an n-week uptrend means the latest weekly sample is above the one n weeks before it |
| LongEth.FallsCompound | agents/LongETH.py:288-300 | an n-week downtrend means the latest weekly sample is below the one n weeks before it |
| LongEth.NotBothTrends | agents/LongETH.py:274-300 | no series is both an uptrend and a downtrend of at least one week |
| LongEth.OpenedSafeIsNearLiquidation | agents/LongETH.py:302-318 | a safe opened at 145.01 percent is already below the 150 percent near-liquidation line |
| LongEth.TopUpAfterMintCheck | agents/LongETH.py:113-130 | topping up a freshly opened safe passes modifySafe's check exactly when its collateral grows to over 14500 / 145.01 times the original |
| LongEth.LongETH.constructor | agents/LongETH.py:60-90 | trend lengths are the truncated draws; RAI 0, no safes, counter 0, net worth before longing = initial ETH |
| LongEth.LongETH.UpdateWallet | agents/LongETH.py:92-111 | adds both signed deltas and changes nothing else |
| LongEth.LongETH.NetAddCollateral | agents/LongETH.py:113-130 | modifies the last safe by (+amount, 0), shifting the collateral sum by amount; when the check passes, the wallet is debited by amount |
| LongEth.LongETH.Mint | agents/LongETH.py:133-167 | like the shorter's but always at 145.01 percent; with an active safe nothing changes |
| LongEth.LongETH.SellRai | agents/LongETH.py:169-189 | credits the pool's swap output for the whole RAI balance and zeroes it |
| LongEth.LongETH.IsLossAboveStopLoss | agents/LongETH.py:191-219 | None exactly without an active safe; otherwise, with a positive net worth before longing, true exactly when the drop in net worth exceeds stop-loss percent of it, and with a negative one exactly when the drop is below that |
| LongEth.LongETH.BuyAndRepay | agents/LongETH.py:221-272 | wallet ETH becomes max(w - needed, 0) + collateral; RAI 0, counter - 1, last safe deleted; the pool is not touched |
| LongEth.LongETH.IsUptrendGoodToLong | agents/LongETH.py:274-286 | true exactly when each of the last n weekly samples is above the week before (vacuous for n = 0) |
| LongEth.LongETH.IsDowntrendBad | agents/LongETH.py:288-300 | true exactly when each of the last n weekly samples is below the week before |
| LongEth.LongETH.IsCloseToLiquidation | agents/LongETH.py:302-318 | None exactly without an active safe; otherwise true exactly when collateral value is under 1.5 times the debt at the redemption price |
| Simulation.Shuffle | simulation.py:183 | position k of the shuffled list holds the agent the permutation puts there |
| Simulation.ApeTrade | simulation.py:189-197 | with a good APY and no LP the ape buys and provides, with a bad APY and LP it removes and sells, and otherwise the wallet and the reserves stay as they were; afterwards it holds LP exactly when the APY was good |
| Simulation.ApeStep | simulation.py:186-197 | the ape's APY is the pool's APY; afterwards it holds LP tokens exactly when that APY meets its threshold; buying from no LP puts all its ETH in the pool for the LP the spend mints; selling credits the withdrawn ETH plus the sale proceeds; otherwise the wallet and the reserves are unchanged; LP outside the ape is unchanged |
| Simulation.ShorterStep | simulation.py:199-214 | without a safe, a shorter opens one exactly when the premium is above its threshold; opening puts its whole ETH stack in a fresh safe holding the RAI minted, sells all the RAI and takes the redemption price as target; not opening changes neither wallet, ledger nor pool |
| Simulation.MintAndSellLong | simulation.py:223-225 | the long's fresh safe holds its whole ETH stack against the RAI minted at 145.01 percent; it sells exactly when it then holds RAI, for the swap output of that RAI, and ends with none |
| Simulation.OpenLong | simulation.py:223-227 | the long's fresh safe holds its whole ETH stack plus what selling the minted RAI brings, against the RAI minted at 145.01 percent, and its wallet ends empty |
| Simulation.LongerOpen | simulation.py:218-227 | a long opens exactly when the hour exceeds both trend lengths (Python's `max`) and the weekly uptrend holds; opening leaves OpenLong's safe and an empty wallet; not opening changes neither wallet, ledger nor pool |
| Simulation.LongerManage | simulation.py:229-231 | a long with a safe leaves the supply, the window, the redemption price and the rate as they were |
| Simulation.LongerStep | simulation.py:216-231 | without a safe, LongerOpen's outcomes: it opens exactly on the trend trigger, into a safe holding its whole ETH stack plus the sale proceeds; otherwise wallet, ledger and pool are unchanged |
| Simulation.Act | simulation.py:184-231 | one agent's step keeps every object valid and leaves the LP held outside that agent, the redemption price, the rate and the window unchanged |
| Simulation.Turn | simulation.py:184-231 | agent j's step keeps every agent valid and the LP held outside the apes unchanged |
| Simulation.AllTurns | simulation.py:183-231 | all agents take their turns in permutation order; the LP outside the apes, the redemption price, the rate and the window are unchanged |
| Simulation.StartHour | simulation.py:169-179 | the rate as a percent of the old redemption price is appended to the rate plot, then the price moves by the rate; the hour stops exactly on a zero old price or a negative new one |
| Simulation.ControllerStep | simulation.py:237-240 | after hour 2, on every update-period hour, the rate becomes the proportional rate; otherwise it is unchanged; a non-P controller on a due hour stops the run |
| Simulation.RecordSpotPrice | simulation.py:234-242 | the end-of-hour spot price is pushed into the window once |
| Simulation.EndHour | simulation.py:234-242 | the controller step, then one push of the spot price; the redemption price is unchanged |
| Simulation.TurnsThenEndHour | simulation.py:183-242 | the agents' turns keep the LP outside the apes, then the end of the hour sets the rate and pushes the spot price |
| Simulation.Tick | simulation.py:166-245 | one hour: moves the price by the rate once, before any agent acts; updates the rate from the TWAP read at the start when due; pushes the spot price once; keeps the LP outside the apes |

## Left out

- Configuration parsing, agent-type sampling, plotting, result files and the progress print are I/O. They cover simulation.py:1-157 and 243-268, and the TWAP and redemption-price plots at simulation.py:170,175,177. Only the rate plot is kept, because the shorter reads its last 96 entries.
- The `updateErrorsList` call at simulation.py:181 is not modelled: `rai_system.py` does not define it, so the shown code would stop there on the first hour.
- The controller built at simulation.py:126,137 passes a list of gains rather than `["P", [Kp]]`, which the constructor's check at rai_system.py:60 refuses. The model takes a `Controller` value that passes the check.
- utils/pricegeneration.py is not part of this model. The hourly ETH price series is an input sequence.
- Randomness is not modelled: `uniform` draws are constructor arguments and `random.shuffle` is a permutation argument.
- Floating-point rounding is not modelled; all amounts are exact reals.
- `math.sqrt` is an argument that satisfies the exact square-root law on non-negative reals. `** 8760` is an exact power.
- `UPDATE_PERIOD` is a whole number of hours. Zero ends the hour (`ok == false`), as Python's modulo by zero would.
- Parameters the source accepts but never reads are dropped: `Pool` in `mint`, and `eth_usd_price` in `buyAndRepay`.
- The agent `type` string is replaced by the `Agent` datatype's constructors.
- The constructors model only the "uniform" distribution branch. Under any other name, Python leaves the attribute unset and a later read fails.
- `max_rai_per_eth` is computed but never read.
- RaiSystem.RAISystem.GetSafe returns the safe by value. The Python dictionary it returns aliases the ledger entry, but no caller writes through it.
- Uniswap.UniswapPool.RemoveLiquidity: requires lp below the supply, where the source asserts only lp > 0. Burning the whole supply would empty the pool and make the next spot price divide by zero. The hour proves the bound from the invariant that the supply exceeds the sum of all apes' LP tokens.
- Simulation.LongerManage: states only what stays fixed, not which of stop loss, near liquidation or downtrend closed the safe.
- Simulation.LongerStep: like LongerManage, which it calls for an open safe, it does not state which of stop loss, near liquidation or downtrend closes the safe.
- Simulation.Act: does not state the acting agent's new state; ApeStep, ShorterStep and LongerStep, to which it dispatches, do.
- Simulation.ShorterStep: states when a position opens, not the stop-loss and target conditions under which it closes.
- Simulation.Turn: does not describe the acting agent's new state beyond validity and LP conservation; Act's callees do.
- Simulation.AllTurns: states what the turns preserve, not each agent's individual outcome.
- Simulation.Tick: leaves the agents' individual outcomes to their step methods.
