/** The RAI shorter: when RAI trades far enough above the redemption price it
    locks all its ETH in a safe, mints RAI and sells it; it buys the debt back
    and closes the safe on a stop loss, or once the price has fallen under the
    redemption price it opened at while the rate has stayed positive. At most
    one safe is active at a time. */
module ShortRai {
  import opened Numeric
  import opened Uniswap
  import opened RaiSystem
  import opened DebtPositions

  /** With a positive ETH price, the market premium in percent is above the
      threshold exactly when the spot price in USD, scaled by (100 - threshold)
      percent, is above the redemption price. */
  lemma PremiumScaled(redemptionPrice: real, ethUsdPrice: real, spot: real,
                      threshold: real, difference: real)
    requires ethUsdPrice > 0.0 && spot > 0.0
    requires difference == 100.0 * (1.0 - (redemptionPrice / ethUsdPrice) / spot)
    ensures difference > threshold
            <==> (100.0 - threshold) * (spot * ethUsdPrice) > 100.0 * redemptionPrice
  {
    var inEth := redemptionPrice / ethUsdPrice;
    QuotientTimesDivisor(redemptionPrice, ethUsdPrice);
    QuotientTimesDivisor(inEth, spot);
    var q := inEth / spot;
    assert q * (spot * ethUsdPrice) == redemptionPrice by {
      assert q * (spot * ethUsdPrice) == (q * spot) * ethUsdPrice;
    }
    // difference > threshold  <==>  100 - threshold > 100 q
    MulMonotone(100.0 - threshold, 100.0 * q, spot * ethUsdPrice);
    assert (100.0 * q) * (spot * ethUsdPrice) == 100.0 * redemptionPrice;
  }

  /** With a positive ETH price, the spot price in ETH is below a USD target
      converted to ETH exactly when the spot price in USD is below the target. */
  lemma BelowTargetScaled(spot: real, target: real, ethUsdPrice: real)
    requires ethUsdPrice > 0.0
    ensures spot < target / ethUsdPrice <==> spot * ethUsdPrice < target
  {
    QuotientTimesDivisor(target, ethUsdPrice);
    MulMonotone(target / ethUsdPrice, spot, ethUsdPrice);
  }

  class ShortRAI {
    var walletRai: real
    var walletEth: real
    const differenceThreshold: real
    const stopLoss: real
    const desiredCollateralization: real
    var safesOwned: seq<string>
    var activeSafesCounter: int
    const netWorthBeforeShorting: real
    var currentShortPriceTarget: real

    /** At most one active safe, and every active safe was recorded. */
    ghost predicate Valid()
      reads this
    {
      activeSafesCounter <= 1 && activeSafesCounter <= |safesOwned|
    }

    /** The four uniform draws are the arguments. */
    constructor (ethHoldings: real, differenceThreshold: real, stopLoss: real,
                 desiredCollateralization: real)
      ensures Valid()
      ensures walletEth == ethHoldings && walletRai == 0.0
      ensures this.differenceThreshold == differenceThreshold && this.stopLoss == stopLoss
      ensures this.desiredCollateralization == desiredCollateralization
      ensures safesOwned == [] && activeSafesCounter == 0
      ensures netWorthBeforeShorting == ethHoldings && currentShortPriceTarget == 0.0
    {
      walletEth, walletRai := ethHoldings, 0.0;
      this.differenceThreshold := differenceThreshold;
      this.stopLoss := stopLoss;
      this.desiredCollateralization := desiredCollateralization;
      safesOwned := [];
      activeSafesCounter := 0;
      netWorthBeforeShorting := ethHoldings;
      currentShortPriceTarget := 0.0;
    }

    method UpdateWallet(netRaiIn: real, netEthIn: real)
      modifies this`walletRai, this`walletEth
      ensures walletRai == old(walletRai) + netRaiIn
      ensures walletEth == old(walletEth) + netEthIn
    {
      walletRai := walletRai + netRaiIn;
      walletEth := walletEth + netEthIn;
    }

    /** Whether RAI trades far enough above the redemption price to short it:
        the premium of the spot price over the redemption price, in percent of
        the spot price, is above the agent's threshold. */
    function IsDifferenceAboveThreshold(system: RAISystem, pool: UniswapPool,
                                        ethUsdPrice: real): (above: bool)
      reads this, system, pool
      requires pool.Valid() && ethUsdPrice != 0.0
      ensures ethUsdPrice > 0.0 ==>
                (above <==> (100.0 - differenceThreshold) * (pool.GetSpotPrice() * ethUsdPrice)
                            > 100.0 * system.redemptionPrice)
    {
      var spotPriceInEth := pool.GetSpotPrice();
      var redemptionPriceInEth := system.redemptionPrice / ethUsdPrice;
      var differenceInPercent := 100.0 * (1.0 - redemptionPriceInEth / spotPriceInEth);
      if ethUsdPrice > 0.0 then
        PremiumScaled(system.redemptionPrice, ethUsdPrice, spotPriceInEth,
                      differenceThreshold, differenceInPercent);
        differenceInPercent > differenceThreshold
      else
        differenceInPercent > differenceThreshold
    }

    /** Opens a safe with `amountCollateral` ETH at the agent's collateralization
        unless a safe is already active; the minted RAI goes to the wallet and
        the redemption price becomes the target. The pool is not touched. */
    method Mint(system: RAISystem, amountCollateral: real, ethUsdPrice: real)
      requires Valid() && system.Valid()
      requires activeSafesCounter < 1 ==>
                 desiredCollateralization > MinCollateralization && system.redemptionPrice != 0.0
      modifies this`walletRai, this`walletEth, this`safesOwned, this`activeSafesCounter,
               this`currentShortPriceTarget, system
      ensures Valid() && system.Valid()
      ensures system.redemptionPrice == old(system.redemptionPrice)
      ensures system.redemptionRateHourly == old(system.redemptionRateHourly)
      ensures system.totalCollateral - system.Total(Collateral)
              == old(system.totalCollateral - system.Total(Collateral))
      ensures system.totalDebt - system.Total(Debt) == old(system.totalDebt - system.Total(Debt))
      ensures old(activeSafesCounter) < 1 ==>
                var id := DecimalString(old(system.safeIdCounter));
                var minted := DebtToMint(amountCollateral, desiredCollateralization, ethUsdPrice,
                                         old(system.redemptionPrice));
                && safesOwned == old(safesOwned) + [id]
                && system.safes == old(system.safes)[id := Safe(amountCollateral, minted)]
                && id !in old(system.safes)
                && walletRai == old(walletRai) + minted
                && walletEth == old(walletEth) - amountCollateral
                && activeSafesCounter == old(activeSafesCounter) + 1
                && currentShortPriceTarget == system.redemptionPrice
      ensures old(activeSafesCounter) >= 1 ==> unchanged(this) && unchanged(system)
    {
      if activeSafesCounter < 1 {
        var safeId, raiToMint := system.OpenSafe(amountCollateral, desiredCollateralization, ethUsdPrice);
        safesOwned := safesOwned + [safeId];
        UpdateWallet(raiToMint, -amountCollateral);
        activeSafesCounter := activeSafesCounter + 1;
        currentShortPriceTarget := system.redemptionPrice;
      }
    }

    /** Net worth in ETH if the active safe were closed now: the wallet plus the
        safe's collateral less the ETH that buys its debt back. */
    function CurrentNetWorth(system: RAISystem, pool: UniswapPool): real
      reads this, system, pool
      requires pool.Valid() && |safesOwned| > 0 && safesOwned[|safesOwned| - 1] in system.safes
      requires system.safes[safesOwned[|safesOwned| - 1]].debt != pool.raiReserve
    {
      var activeSafe := system.GetSafe(safesOwned[|safesOwned| - 1]);
      walletEth + activeSafe.collateral - pool.EthInGivenRaiOut(activeSafe.debt)
    }

    /** Closes the last safe: the ETH that would buy its debt in the pool is
        taken from the wallet (topped up first when short), the collateral
        comes back, and the RAI balance is cleared. No swap is made in the
        pool. */
    method BuyAndRepay(system: RAISystem, pool: UniswapPool)
      requires Valid() && system.Valid() && pool.Valid()
      requires |safesOwned| > 0 && safesOwned[|safesOwned| - 1] in system.safes
      requires system.safes[safesOwned[|safesOwned| - 1]].debt != pool.raiReserve
      modifies this`walletEth, this`walletRai, this`activeSafesCounter, system
      ensures Valid() && system.Valid()
      ensures var id := old(safesOwned[|safesOwned| - 1]);
              && walletEth == WalletAfterRepay(old(walletEth),
                                               pool.EthInGivenRaiOut(old(system.safes[id].debt)),
                                               old(system.safes[id].collateral))
              && system.safes == old(system.safes) - {id}
      ensures walletRai == 0.0 && activeSafesCounter == old(activeSafesCounter) - 1
      ensures system.redemptionPrice == old(system.redemptionPrice)
      ensures system.redemptionRateHourly == old(system.redemptionRateHourly)
      ensures system.totalCollateral - system.Total(Collateral)
              == old(system.totalCollateral - system.Total(Collateral))
      ensures system.totalDebt - system.Total(Debt) == old(system.totalDebt - system.Total(Debt))
    {
      var activeSafeId := safesOwned[|safesOwned| - 1];
      var activeSafe := system.GetSafe(activeSafeId);
      var debt := activeSafe.debt;
      var ethNeeded := pool.EthInGivenRaiOut(debt);
      if ethNeeded > walletEth {
        walletEth := walletEth + (ethNeeded - walletEth);
      }
      walletEth := walletEth - ethNeeded;
      var collateralWithdrawn := system.CloseSafe(activeSafeId);
      walletEth := walletEth + collateralWithdrawn;
      walletRai := 0.0;
      activeSafesCounter := activeSafesCounter - 1;
    }

    /** Sells the whole RAI balance into the pool. */
    method SellRai(pool: UniswapPool)
      requires pool.Valid() && walletRai > 0.0
      modifies this`walletEth, this`walletRai, pool
      ensures pool.Valid()
      ensures walletEth == old(walletEth) + SwapOutput(old(pool.raiReserve), old(pool.ethReserve),
                                                       old(walletRai))
      ensures walletRai == 0.0
      ensures pool.raiReserve == old(pool.raiReserve) + old(walletRai)
      ensures pool.ethReserve == old(pool.ethReserve) - (walletEth - old(walletEth))
      ensures pool.liquidityTokensSupply == old(pool.liquidityTokensSupply)
      ensures pool.hourlyPrices == old(pool.hourlyPrices)
    {
      var ethObtained := pool.SellRai(walletRai);
      walletEth := walletEth + ethObtained;
      walletRai := 0.0;
    }

    /** Whether the unrealized loss since shorting, in percent of the net worth
        before shorting, is above the stop loss. */
    function IsLossAboveStopLoss(system: RAISystem, pool: UniswapPool): (hit: bool)
      reads this, system, pool
      requires pool.Valid() && |safesOwned| > 0 && safesOwned[|safesOwned| - 1] in system.safes
      requires system.safes[safesOwned[|safesOwned| - 1]].debt != pool.raiReserve
      requires netWorthBeforeShorting != 0.0
      ensures netWorthBeforeShorting > 0.0 ==>
                (hit <==> 100.0 * (netWorthBeforeShorting - CurrentNetWorth(system, pool))
                          > stopLoss * netWorthBeforeShorting)
      ensures netWorthBeforeShorting < 0.0 ==>
                (hit <==> 100.0 * (netWorthBeforeShorting - CurrentNetWorth(system, pool))
                          < stopLoss * netWorthBeforeShorting)
    {
      LossAboveStopLoss(netWorthBeforeShorting, CurrentNetWorth(system, pool), stopLoss)
    }

    /** Whether the spot price has fallen under the target the short was
        opened at, both taken in ETH. */
    function IsSpotPriceBelowTarget(pool: UniswapPool, ethUsdPrice: real): (below: bool)
      reads this, pool
      requires pool.Valid() && ethUsdPrice != 0.0
      ensures ethUsdPrice > 0.0 ==>
                (below <==> pool.GetSpotPrice() * ethUsdPrice < currentShortPriceTarget)
    {
      var spotPriceInEth := pool.GetSpotPrice();
      var targetPriceInEth := currentShortPriceTarget / ethUsdPrice;
      if ethUsdPrice > 0.0 then
        BelowTargetScaled(spotPriceInEth, currentShortPriceTarget, ethUsdPrice);
        spotPriceInEth < targetPriceInEth
      else
        spotPriceInEth < targetPriceInEth
    }
  }
}
