/** The leveraged ETH long: after enough weeks of rising ETH prices it locks
    all its ETH in a safe at 145.01 percent, sells the minted RAI and adds the
    ETH it gets as further collateral; it closes the safe on a stop loss, when
    the safe nears liquidation, or after enough weeks of falling prices. */
module LongEth {
  import opened Numeric
  import opened Uniswap
  import opened RaiSystem
  import opened DebtPositions

  /** The collateralization, in percent, every long opens its safe at. */
  const LongCollateralization: real := 145.01
  /** Below this collateralization, in percent, a safe is close to liquidation. */
  const NearLiquidation: real := 150.0
  /** Hours in a week: the trend tests step through the series a week at a time. */
  const HoursPerWeek: nat := 168

  /** The ETH price `weeks` weeks before the end of the hourly series
      (Python's negative index). */
  function PriceWeeksAgo(prices: seq<real>, weeks: int): real
    requires 1 <= weeks && HoursPerWeek * weeks <= |prices|
  {
    prices[|prices| - HoursPerWeek * weeks]
  }

  /** The trend tests read weeks 1 .. weeks + 1 from the end of the series. */
  predicate TrendReadable(prices: seq<real>, weeks: int)
  {
    weeks >= 1 ==> HoursPerWeek * (weeks + 1) <= |prices|
  }

  /** Each of the last `weeks` weeks closed above the week before. */
  predicate WeeklyRises(prices: seq<real>, weeks: int)
    requires TrendReadable(prices, weeks)
  {
    forall i :: 1 <= i <= weeks ==> PriceWeeksAgo(prices, i + 1) < PriceWeeksAgo(prices, i)
  }

  /** Each of the last `weeks` weeks closed below the week before. */
  predicate WeeklyFalls(prices: seq<real>, weeks: int)
    requires TrendReadable(prices, weeks)
  {
    forall i :: 1 <= i <= weeks ==> PriceWeeksAgo(prices, i + 1) > PriceWeeksAgo(prices, i)
  }

  /** An uptrend of n weeks means the price is now above where it was n weeks
      before the last one. */
  lemma {:induction false} RisesCompound(prices: seq<real>, weeks: int)
    requires weeks >= 1 && TrendReadable(prices, weeks) && WeeklyRises(prices, weeks)
    ensures PriceWeeksAgo(prices, weeks + 1) < PriceWeeksAgo(prices, 1)
  {
    if weeks > 1 {
      assert WeeklyRises(prices, weeks - 1);
      RisesCompound(prices, weeks - 1);
      assert PriceWeeksAgo(prices, weeks + 1) < PriceWeeksAgo(prices, weeks);
    }
  }

  /** A downtrend of n weeks means the price is now below where it was n weeks
      before the last one. */
  lemma {:induction false} FallsCompound(prices: seq<real>, weeks: int)
    requires weeks >= 1 && TrendReadable(prices, weeks) && WeeklyFalls(prices, weeks)
    ensures PriceWeeksAgo(prices, weeks + 1) > PriceWeeksAgo(prices, 1)
  {
    if weeks > 1 {
      assert WeeklyFalls(prices, weeks - 1);
      FallsCompound(prices, weeks - 1);
      assert PriceWeeksAgo(prices, weeks + 1) > PriceWeeksAgo(prices, weeks);
    }
  }

  /** The same series cannot be both an uptrend and a downtrend, whatever
      the two lengths, as long as both look at one week at least. */
  lemma NotBothTrends(prices: seq<real>, up: int, down: int)
    requires up >= 1 && down >= 1
    requires TrendReadable(prices, up) && TrendReadable(prices, down)
    ensures !(WeeklyRises(prices, up) && WeeklyFalls(prices, down))
  {
    if WeeklyRises(prices, up) {
      assert PriceWeeksAgo(prices, 2) < PriceWeeksAgo(prices, 1);
    }
  }

  /** A collateralization below 150 percent, stated without division: the
      collateral's USD value is under 1.5 times the debt's. */
  lemma NearLiquidationScaled(collateral: real, debt: real, redemptionPrice: real,
                              ethUsdPrice: real, percent: real)
    requires ethUsdPrice > 0.0 && debt * redemptionPrice > 0.0
    requires percent == 100.0 * (collateral / (debt * (redemptionPrice / ethUsdPrice)))
    ensures percent < NearLiquidation
            <==> 100.0 * collateral * ethUsdPrice < NearLiquidation * (debt * redemptionPrice)
  {
    var debtInEth := debt * (redemptionPrice / ethUsdPrice);
    QuotientTimesDivisor(redemptionPrice, ethUsdPrice);
    assert debtInEth * ethUsdPrice == debt * redemptionPrice;
    assert debtInEth > 0.0;
    QuotientTimesDivisor(collateral, debtInEth);
    MulMonotone(NearLiquidation, percent, debtInEth);
    assert percent * debtInEth == 100.0 * collateral;
    MulMonotone(NearLiquidation * debtInEth, 100.0 * collateral, ethUsdPrice);
  }

  /** A safe the long has just opened is already close to liquidation:
      145.01 percent is under 150. */
  lemma OpenedSafeIsNearLiquidation(collateral: real, ethUsdPrice: real, redemptionPrice: real)
    requires collateral > 0.0 && ethUsdPrice > 0.0 && redemptionPrice > 0.0
    ensures var debt := DebtToMint(collateral, LongCollateralization, ethUsdPrice, redemptionPrice);
            100.0 * collateral * ethUsdPrice < NearLiquidation * (debt * redemptionPrice)
  {
    var debt := DebtToMint(collateral, LongCollateralization, ethUsdPrice, redemptionPrice);
    var value := debt * redemptionPrice;
    assert value > 0.0;
    assert value * LongCollateralization == 100.0 * collateral * ethUsdPrice;
    MulMonotone(LongCollateralization, NearLiquidation, value);
  }

  /** Adding `added` ETH to a safe just opened at 145.01 percent passes
      modifySafe's check exactly when the collateral grows to more than
      14500 / 145.01 (about 99.99) times what the safe opened with. */
  lemma TopUpAfterMintCheck(collateral: real, added: real, ethUsdPrice: real,
                            redemptionPrice: real)
    requires collateral > 0.0 && ethUsdPrice > 0.0 && redemptionPrice > 0.0
    ensures var debt := DebtToMint(collateral, LongCollateralization, ethUsdPrice, redemptionPrice);
            ModifyCheckPasses(collateral + added, debt, ethUsdPrice, redemptionPrice)
            <==> (collateral + added) * LongCollateralization > 100.0 * MinCollateralization * collateral
  {
    var debt := DebtToMint(collateral, LongCollateralization, ethUsdPrice, redemptionPrice);
    var value := debt * redemptionPrice;
    assert value > 0.0;
    assert value * LongCollateralization == 100.0 * collateral * ethUsdPrice;
    var grown := collateral + added;
    var ratio := grown * ethUsdPrice / value;
    QuotientTimesDivisor(grown * ethUsdPrice, value);
    // ratio > 145  <==>  grown * u > 145 * value
    MulMonotone(ratio, MinCollateralization, value);
    // grown * u > 145 * value  <==>  grown * u * 145.01 > 145 * 100 * collateral * u
    MulMonotone(grown * ethUsdPrice, MinCollateralization * value, LongCollateralization);
    assert MinCollateralization * value * LongCollateralization
           == (100.0 * MinCollateralization * collateral) * ethUsdPrice;
    assert grown * ethUsdPrice * LongCollateralization
           == (grown * LongCollateralization) * ethUsdPrice;
    MulMonotone(grown * LongCollateralization, 100.0 * MinCollateralization * collateral, ethUsdPrice);
  }

  class LongETH {
    var walletRai: real
    var walletEth: real
    const uptrendToOpenLong: int
    const downtrendToCloseLong: int
    const stopLoss: real
    var safesOwned: seq<string>
    var activeSafesCounter: int
    const netWorthBeforeLonging: real
    var currentShortPriceTarget: real

    /** At most one active safe, and every active safe was recorded. */
    ghost predicate Valid()
      reads this
    {
      activeSafesCounter <= 1 && activeSafesCounter <= |safesOwned|
    }

    /** The four uniform draws are the arguments; the two trend lengths are
        truncated to whole weeks. */
    constructor (ethHoldings: real, uptrendDraw: real, downtrendDraw: real, stopLoss: real)
      ensures Valid()
      ensures walletEth == ethHoldings && walletRai == 0.0
      ensures uptrendToOpenLong == TruncToInt(uptrendDraw)
      ensures downtrendToCloseLong == TruncToInt(downtrendDraw)
      ensures this.stopLoss == stopLoss
      ensures safesOwned == [] && activeSafesCounter == 0
      ensures netWorthBeforeLonging == ethHoldings && currentShortPriceTarget == 0.0
    {
      walletEth, walletRai := ethHoldings, 0.0;
      uptrendToOpenLong := TruncToInt(uptrendDraw);
      downtrendToCloseLong := TruncToInt(downtrendDraw);
      this.stopLoss := stopLoss;
      safesOwned := [];
      activeSafesCounter := 0;
      netWorthBeforeLonging := ethHoldings;
      currentShortPriceTarget := 0.0;
    }

    method UpdateWallet(netRaiIn: real, netEthIn: real)
      modifies this`walletRai, this`walletEth
      ensures walletRai == old(walletRai) + netRaiIn
      ensures walletEth == old(walletEth) + netEthIn
    {
      walletRai := walletRai + netRaiIn;
      walletEth := walletEth + netEthIn;
    }

    /** Moves `amount` ETH from the wallet into the last safe, which must then
        pass modifySafe's check (ok == false aborts the run, before the wallet
        is debited). */
    method NetAddCollateral(system: RAISystem, amount: real, ethUsdPrice: real) returns (ok: bool)
      requires system.Valid() && |safesOwned| > 0 && safesOwned[|safesOwned| - 1] in system.safes
      modifies this`walletEth, system`safes
      ensures system.Valid()
      ensures var id := safesOwned[|safesOwned| - 1];
              && system.safes == old(system.safes)[id := Safe(old(system.safes[id].collateral) + amount,
                                                             old(system.safes[id].debt))]
              && (ok <==> ModifyCheckPasses(system.safes[id].collateral, system.safes[id].debt,
                                            ethUsdPrice, system.redemptionPrice))
      ensures system.Total(Collateral) == old(system.Total(Collateral)) + amount
      ensures system.Total(Debt) == old(system.Total(Debt))
      ensures ok ==> walletEth == old(walletEth) - amount
    {
      ok := system.ModifySafe(safesOwned[|safesOwned| - 1], amount, 0.0, ethUsdPrice);
      if ok {
        walletEth := walletEth - amount;
      }
    }

    /** Opens a safe with `amountCollateral` ETH at 145.01 percent unless a
        safe is already active; the minted RAI goes to the wallet. The pool is
        not touched. */
    method Mint(system: RAISystem, amountCollateral: real, ethUsdPrice: real)
      requires Valid() && system.Valid()
      requires activeSafesCounter < 1 ==> system.redemptionPrice != 0.0
      modifies this`walletRai, this`walletEth, this`safesOwned, this`activeSafesCounter,
               this`currentShortPriceTarget, system
      ensures Valid() && system.Valid()
      ensures system.redemptionPrice == old(system.redemptionPrice)
      ensures system.redemptionRateHourly == old(system.redemptionRateHourly)
      ensures system.totalCollateral - system.Total(Collateral)
              == old(system.totalCollateral - system.Total(Collateral))
      ensures system.totalDebt - system.Total(Debt) == old(system.totalDebt - system.Total(Debt))
      ensures old(activeSafesCounter) < 1 ==>
                var id := DecimalString(old(system.safeIdCounter));
                var minted := DebtToMint(amountCollateral, LongCollateralization, ethUsdPrice,
                                         old(system.redemptionPrice));
                && safesOwned == old(safesOwned) + [id]
                && system.safes == old(system.safes)[id := Safe(amountCollateral, minted)]
                && id !in old(system.safes)
                && walletRai == old(walletRai) + minted
                && walletEth == old(walletEth) - amountCollateral
                && activeSafesCounter == old(activeSafesCounter) + 1
                && currentShortPriceTarget == system.redemptionPrice
      ensures old(activeSafesCounter) >= 1 ==> unchanged(this) && unchanged(system)
    {
      if activeSafesCounter < 1 {
        var safeId, raiToMint := system.OpenSafe(amountCollateral, LongCollateralization, ethUsdPrice);
        safesOwned := safesOwned + [safeId];
        UpdateWallet(raiToMint, -amountCollateral);
        activeSafesCounter := activeSafesCounter + 1;
        currentShortPriceTarget := system.redemptionPrice;
      }
    }

    /** Sells the whole RAI balance into the pool. */
    method SellRai(pool: UniswapPool)
      requires pool.Valid() && walletRai > 0.0
      modifies this`walletEth, this`walletRai, pool
      ensures pool.Valid()
      ensures walletEth == old(walletEth) + SwapOutput(old(pool.raiReserve), old(pool.ethReserve),
                                                       old(walletRai))
      ensures walletRai == 0.0
      ensures pool.raiReserve == old(pool.raiReserve) + old(walletRai)
      ensures pool.ethReserve == old(pool.ethReserve) - (walletEth - old(walletEth))
      ensures pool.liquidityTokensSupply == old(pool.liquidityTokensSupply)
      ensures pool.hourlyPrices == old(pool.hourlyPrices)
    {
      var ethObtained := pool.SellRai(walletRai);
      walletEth := walletEth + ethObtained;
      walletRai := 0.0;
    }

    /** Net worth in ETH if the active safe were closed now: the wallet plus the
        safe's collateral less the ETH that buys its debt back. */
    function CurrentNetWorth(system: RAISystem, pool: UniswapPool): real
      reads this, system, pool
      requires pool.Valid() && |safesOwned| > 0 && safesOwned[|safesOwned| - 1] in system.safes
      requires system.safes[safesOwned[|safesOwned| - 1]].debt != pool.raiReserve
    {
      var activeSafe := system.GetSafe(safesOwned[|safesOwned| - 1]);
      walletEth + activeSafe.collateral - pool.EthInGivenRaiOut(activeSafe.debt)
    }

    /** Whether the unrealized loss since longing, in percent of the net worth
        before longing, is above the stop loss; None without an active safe. */
    function IsLossAboveStopLoss(system: RAISystem, pool: UniswapPool): (hit: Option<bool>)
      reads this, system, pool
      requires activeSafesCounter > 0 ==>
                 && pool.Valid() && |safesOwned| > 0 && safesOwned[|safesOwned| - 1] in system.safes
                 && system.safes[safesOwned[|safesOwned| - 1]].debt != pool.raiReserve
                 && netWorthBeforeLonging != 0.0
      ensures hit == None <==> activeSafesCounter <= 0
      ensures activeSafesCounter > 0 && netWorthBeforeLonging > 0.0 ==>
                (hit == Some(true) <==> 100.0 * (netWorthBeforeLonging - CurrentNetWorth(system, pool))
                                        > stopLoss * netWorthBeforeLonging)
      ensures activeSafesCounter > 0 && netWorthBeforeLonging < 0.0 ==>
                (hit == Some(true) <==> 100.0 * (netWorthBeforeLonging - CurrentNetWorth(system, pool))
                                        < stopLoss * netWorthBeforeLonging)
    {
      if activeSafesCounter > 0 then
        Some(LossAboveStopLoss(netWorthBeforeLonging, CurrentNetWorth(system, pool), stopLoss))
      else
        None
    }

    /** Takes the safe's debt back as in ShortRAI: pays the ETH that would buy
        it (topping the wallet up when short), gets the collateral back and
        clears the RAI balance. No swap is made in the pool. */
    method BuyAndRepay(system: RAISystem, pool: UniswapPool)
      requires Valid() && system.Valid() && pool.Valid()
      requires |safesOwned| > 0 && safesOwned[|safesOwned| - 1] in system.safes
      requires system.safes[safesOwned[|safesOwned| - 1]].debt != pool.raiReserve
      modifies this`walletEth, this`walletRai, this`activeSafesCounter, system
      ensures Valid() && system.Valid()
      ensures var id := old(safesOwned[|safesOwned| - 1]);
              && walletEth == WalletAfterRepay(old(walletEth),
                                               pool.EthInGivenRaiOut(old(system.safes[id].debt)),
                                               old(system.safes[id].collateral))
              && system.safes == old(system.safes) - {id}
      ensures walletRai == 0.0 && activeSafesCounter == old(activeSafesCounter) - 1
      ensures system.redemptionPrice == old(system.redemptionPrice)
      ensures system.redemptionRateHourly == old(system.redemptionRateHourly)
      ensures system.totalCollateral - system.Total(Collateral)
              == old(system.totalCollateral - system.Total(Collateral))
      ensures system.totalDebt - system.Total(Debt) == old(system.totalDebt - system.Total(Debt))
    {
      var activeSafeId := safesOwned[|safesOwned| - 1];
      var activeSafe := system.GetSafe(activeSafeId);
      var debt := activeSafe.debt;
      var ethNeeded := pool.EthInGivenRaiOut(debt);
      if ethNeeded > walletEth {
        walletEth := walletEth + (ethNeeded - walletEth);
      }
      walletEth := walletEth - ethNeeded;
      var collateralWithdrawn := system.CloseSafe(activeSafeId);
      walletEth := walletEth + collateralWithdrawn;
      walletRai := 0.0;
      activeSafesCounter := activeSafesCounter - 1;
    }

    /** Scans the weeks from the oldest to the newest and stops at the first
        one that did not close above the week before. */
    method IsUptrendGoodToLong(prices: seq<real>) returns (good: bool)
      requires TrendReadable(prices, uptrendToOpenLong)
      ensures good <==> WeeklyRises(prices, uptrendToOpenLong)
    {
      var i := uptrendToOpenLong;
      while i > 0
        invariant i == uptrendToOpenLong || 0 <= i < uptrendToOpenLong
        invariant forall j :: i < j <= uptrendToOpenLong ==>
                    PriceWeeksAgo(prices, j + 1) < PriceWeeksAgo(prices, j)
      {
        if !(PriceWeeksAgo(prices, i + 1) < PriceWeeksAgo(prices, i)) {
          return false;
        }
        i := i - 1;
      }
      return true;
    }

    /** Scans the weeks from the oldest to the newest and stops at the first
        one that did not close below the week before. */
    method IsDowntrendBad(prices: seq<real>) returns (bad: bool)
      requires TrendReadable(prices, downtrendToCloseLong)
      ensures bad <==> WeeklyFalls(prices, downtrendToCloseLong)
    {
      var i := downtrendToCloseLong;
      while i > 0
        invariant i == downtrendToCloseLong || 0 <= i < downtrendToCloseLong
        invariant forall j :: i < j <= downtrendToCloseLong ==>
                    PriceWeeksAgo(prices, j + 1) > PriceWeeksAgo(prices, j)
      {
        if !(PriceWeeksAgo(prices, i + 1) > PriceWeeksAgo(prices, i)) {
          return false;
        }
        i := i - 1;
      }
      return true;
    }

    /** Whether the last safe's collateralization is below 150 percent, taking
        the debt at the redemption price; None without an active safe. */
    function IsCloseToLiquidation(system: RAISystem, ethUsdPrice: real): (close: Option<bool>)
      reads this, system
      requires activeSafesCounter > 0 ==>
                 && |safesOwned| > 0 && safesOwned[|safesOwned| - 1] in system.safes
                 && ethUsdPrice != 0.0
                 && system.safes[safesOwned[|safesOwned| - 1]].debt
                    * (system.redemptionPrice / ethUsdPrice) != 0.0
      ensures close == None <==> activeSafesCounter <= 0
      ensures activeSafesCounter > 0 && ethUsdPrice > 0.0 ==>
                var safe := system.safes[safesOwned[|safesOwned| - 1]];
                safe.debt * system.redemptionPrice > 0.0 ==>
                  (close == Some(true)
                   <==> 100.0 * safe.collateral * ethUsdPrice
                        < NearLiquidation * (safe.debt * system.redemptionPrice))
    {
      if activeSafesCounter > 0 then
        var safe := system.GetSafe(safesOwned[|safesOwned| - 1]);
        var debtInEth := safe.debt * (system.redemptionPrice / ethUsdPrice);
        var collateralizationPercent := 100.0 * (safe.collateral / debtInEth);
        if ethUsdPrice > 0.0 && safe.debt * system.redemptionPrice > 0.0 then
          NearLiquidationScaled(safe.collateral, safe.debt, system.redemptionPrice, ethUsdPrice,
                                collateralizationPercent);
          Some(collateralizationPercent < NearLiquidation)
        else
          Some(collateralizationPercent < NearLiquidation)
      else
        None
    }
  }
}
