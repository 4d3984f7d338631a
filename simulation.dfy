/** One hour of the simulation: the system's redemption price moves by its
    rate, the agents act one after the other in a shuffled order, the
    controller may set a new rate from the TWAP read at the start of the hour,
    and the pool records its end-of-hour spot price.

    Where the Python run would stop with an exception (a failed assert,
    sys.exit, a division by zero, a missing safe or list entry), the steps
    below return ok == false and the hour ends there. */
module Simulation {
  import opened Numeric
  import opened Uniswap
  import opened RaiSystem
  import opened BuyAndSellApes
  import opened ShortRai
  import opened LongEth

  /** The shorter waits for this many hours of positive rates before closing
      on target. */
  const RecentRateHours: nat := 96

  datatype Agent = Ape(ape: BuyAndSellApe) | Shorter(shorter: ShortRAI) | Longer(longer: LongETH)

  function ObjectOf(a: Agent): object
  {
    match a
    case Ape(x) => x
    case Shorter(x) => x
    case Longer(x) => x
  }

  ghost function Objects(agents: seq<Agent>): set<object>
  {
    set k | 0 <= k < |agents| :: ObjectOf(agents[k])
  }

  /** No agent object appears twice in the list. */
  ghost predicate Distinct(agents: seq<Agent>)
  {
    forall a, b :: 0 <= a < b < |agents| ==> ObjectOf(agents[a]) != ObjectOf(agents[b])
  }

  ghost predicate AgentValid(a: Agent)
    reads ObjectOf(a)
  {
    match a
    case Ape(x) => x.Valid()
    case Shorter(x) => x.Valid()
    case Longer(x) => x.Valid()
  }

  ghost predicate AllValid(agents: seq<Agent>)
    reads Objects(agents)
  {
    forall k :: 0 <= k < |agents| ==> AgentValid(agents[k])
  }

  /** LP tokens held by an agent: only apes hold any. */
  ghost function LpOf(a: Agent): real
    reads ObjectOf(a)
  {
    if a.Ape? then a.ape.walletLp else 0.0
  }

  ghost function LpValues(agents: seq<Agent>): (lps: seq<real>)
    reads Objects(agents)
    ensures |lps| == |agents|
    ensures forall k :: 0 <= k < |agents| ==> lps[k] == LpOf(agents[k])
  {
    if agents == [] then [] else [LpOf(agents[0])] + LpValues(agents[1..])
  }

  /** `order` lists every position of a list of length n exactly once. */
  predicate IsPermutation(order: seq<nat>, n: nat)
  {
    |order| == n && (forall k :: 0 <= k < n ==> order[k] < n) &&
    (forall a, b :: 0 <= a < b < n ==> order[a] != order[b])
  }

  /** random.shuffle, with the permutation it draws as an argument: position
      k of the result holds the agent at position order[k]. */
  function Shuffle(agents: seq<Agent>, order: seq<nat>): (shuffled: seq<Agent>)
    requires forall k :: 0 <= k < |order| ==> order[k] < |agents|
    ensures |shuffled| == |order|
    ensures forall k :: 0 <= k < |order| ==> shuffled[k] == agents[order[k]]
  {
    if order == [] then [] else [agents[order[0]]] + Shuffle(agents, order[1..])
  }

  /** Every rate in the last 96 entries of the plotted rates (all of them when
      fewer) is positive. */
  predicate RecentRatesPositive(ratePlot: seq<real>)
  {
    forall k :: |ratePlot| - RecentRateHours as int <= k < |ratePlot| && 0 <= k ==> ratePlot[k] > 0.0
  }

  // ---------------------------------------------------------------------
  // Sums of LP holdings

  /** Changing one entry changes the sum by the difference. */
  lemma {:induction false} SumPointUpdate(s: seq<real>, j: int, v: real)
    requires 0 <= j < |s|
    ensures Sum(s[j := v]) == Sum(s) - s[j] + v
  {
    if j > 0 {
      SumPointUpdate(s[1..], j - 1, v);
      assert s[j := v][1..] == s[1..][j - 1 := v];
    }
  }

  /** In a sum of non-negative entries every entry is at most the sum. */
  lemma {:induction false} SumAtLeastEntry(s: seq<real>, j: int)
    requires 0 <= j < |s| && forall k :: 0 <= k < |s| ==> s[k] >= 0.0
    ensures s[j] <= Sum(s)
  {
    if j > 0 {
      SumAtLeastEntry(s[1..], j - 1);
    } else {
      SumNonNegative(s[1..]);
    }
  }

  lemma {:induction false} SumNonNegative(s: seq<real>)
    requires forall k :: 0 <= k < |s| ==> s[k] >= 0.0
    ensures Sum(s) >= 0.0
  {
    if s != [] {
      SumNonNegative(s[1..]);
    }
  }

  /** An ape's LP tokens stay below the supply while the supply exceeds the
      LP tokens all apes hold. */
  lemma ApeBelowSupply(agents: seq<Agent>, j: int, supply: real)
    requires 0 <= j < |agents| && AllValid(agents)
    requires Sum(LpValues(agents)) < supply
    ensures LpOf(agents[j]) < supply
    ensures forall k :: 0 <= k < |agents| ==> LpOf(agents[k]) >= 0.0
  {
    var lps := LpValues(agents);
    forall k | 0 <= k < |agents|
      ensures LpOf(agents[k]) >= 0.0
    {
      assert AgentValid(agents[k]);
    }
    SumAtLeastEntry(lps, j);
  }

  // ---------------------------------------------------------------------
  // One agent's turn

  /** What an ape does once it knows whether its APY is good: buys and
      provides when it is good and the ape holds no LP tokens, removes and
      sells when it is not and the ape holds some, and otherwise nothing. */
  method ApeTrade(ape: BuyAndSellApe, pool: UniswapPool, good: bool, sqrt: real -> real)
    requires ape.Valid() && pool.Valid() && IsSqrt(sqrt)
    requires ape.walletLp < pool.liquidityTokensSupply
    requires ape.walletLp == 0.0 ==> ape.walletEth > 0.0
    modifies ape`walletEth, ape`walletLp, pool
    ensures ape.Valid() && pool.Valid()
    ensures pool.liquidityTokensSupply - ape.walletLp == old(pool.liquidityTokensSupply - ape.walletLp)
    ensures pool.hourlyPrices == old(pool.hourlyPrices)
    ensures pool.raiReserve == old(pool.raiReserve)
    ensures ape.walletLp > 0.0 <==> good
    ensures (old(ape.walletLp) == 0.0 <==> ape.walletLp == 0.0) ==>
              ape.walletEth == old(ape.walletEth) && ape.walletLp == old(ape.walletLp) &&
              pool.ethReserve == old(pool.ethReserve)
    ensures old(ape.walletLp) == 0.0 && ape.walletLp != 0.0 ==>
              ape.walletEth == 0.0 && pool.ethReserve == old(pool.ethReserve) + old(ape.walletEth) &&
              ape.walletLp == ProvidedLp(old(pool.liquidityTokensSupply), old(pool.ethReserve), old(ape.walletEth), sqrt)
    ensures old(ape.walletLp) != 0.0 && ape.walletLp == 0.0 ==>
              var w := Withdrawal(old(ape.walletLp), old(pool.raiReserve), old(pool.ethReserve),
                                  old(pool.liquidityTokensSupply));
              var sold := SwapOutput(old(pool.raiReserve) - w.0, old(pool.ethReserve) - w.1, w.0);
              pool.ethReserve == old(pool.ethReserve) - w.1 - sold &&
              ape.walletEth == old(ape.walletEth) + w.1 + sold
  {
    if good {
      if ape.walletLp == 0.0 {
        ape.BuyAndProvide(pool, sqrt);
      }
    } else {
      if ape.walletLp != 0.0 {
        ape.RemoveAndSell(pool);
      }
    }
  }

  /** An ape's turn: computes its APY, then trades on it as `ApeTrade` says.
      Afterwards it holds LP tokens exactly when the APY was good. */
  method ApeStep(ape: BuyAndSellApe, pool: UniswapPool, system: RAISystem, flxPerDay: real,
                 ethUsdPrice: real, sqrt: real -> real) returns (ok: bool)
    requires ape.Valid() && pool.Valid() && IsSqrt(sqrt)
    requires ape.walletLp < pool.liquidityTokensSupply
    modifies ape`walletEth, ape`walletLp, ape`currentApy, ape`currentPoolShare, pool
    ensures ape.Valid() && pool.Valid()
    ensures pool.liquidityTokensSupply - ape.walletLp == old(pool.liquidityTokensSupply - ape.walletLp)
    ensures pool.hourlyPrices == old(pool.hourlyPrices)
    ensures ok <==> old(ape.ApyComputable(system.redemptionPrice, ethUsdPrice))
    ensures ok ==> (ape.walletLp > 0.0 <==> ape.currentApy >= ape.apyThreshold)
    ensures ok ==> ape.currentApy
                   == PoolApy(ape.expectedFlxValuation, flxPerDay,
                              old(pool.GetTotalValueLockedInEth()), ethUsdPrice,
                              SystemApy(system.redemptionPrice, system.redemptionRateHourly,
                                        old(pool.GetSpotPrice()) * ethUsdPrice))
    // Neither buying nor selling: the wallet and the reserves are as they were.
    ensures ok && (old(ape.walletLp) == 0.0 <==> ape.walletLp == 0.0) ==>
              ape.walletEth == old(ape.walletEth) && ape.walletLp == old(ape.walletLp) &&
              pool.raiReserve == old(pool.raiReserve) && pool.ethReserve == old(pool.ethReserve)
    // Buying and providing: all the ETH goes into the pool for the LP tokens the spend mints.
    ensures ok && old(ape.walletLp) == 0.0 && ape.walletLp != 0.0 ==>
              ape.walletEth == 0.0 && pool.raiReserve == old(pool.raiReserve) &&
              pool.ethReserve == old(pool.ethReserve) + old(ape.walletEth) &&
              ape.walletLp == ProvidedLp(old(pool.liquidityTokensSupply), old(pool.ethReserve), old(ape.walletEth), sqrt)
    // Removing and selling: the withdrawn ETH plus what the withdrawn RAI sells for.
    ensures old(ape.walletLp) != 0.0 && ape.walletLp == 0.0 ==>
              var w := Withdrawal(old(ape.walletLp), old(pool.raiReserve), old(pool.ethReserve),
                                  old(pool.liquidityTokensSupply));
              var sold := SwapOutput(old(pool.raiReserve) - w.0, old(pool.ethReserve) - w.1, w.0);
              pool.raiReserve == old(pool.raiReserve) &&
              pool.ethReserve == old(pool.ethReserve) - w.1 - sold &&
              ape.walletEth == old(ape.walletEth) + w.1 + sold
  {
    if !ape.ApyComputable(system.redemptionPrice, ethUsdPrice) {
      return false;
    }
    ghost var rai, eth, supply, lp, wallet :=
      pool.raiReserve, pool.ethReserve, pool.liquidityTokensSupply, ape.walletLp, ape.walletEth;
    var good := ape.IsApyGood(pool, system, flxPerDay, ethUsdPrice, sqrt);
    assert pool.raiReserve == rai && pool.ethReserve == eth && pool.liquidityTokensSupply == supply;
    assert ape.walletLp == lp && ape.walletEth == wallet;
    ApeTrade(ape, pool, good, sqrt);
    ok := true;
  }

  /** A shorter's turn. Without an active safe it shorts with its whole ETH
      stack when the premium is above its threshold; with one it closes on a
      stop loss, or once the spot price is under its target and the last 96
      plotted rates are all positive. */
  method ShorterStep(shorter: ShortRAI, pool: UniswapPool, system: RAISystem, ethUsdPrice: real,
                     ratePlot: seq<real>) returns (ok: bool)
    requires shorter.Valid() && pool.Valid() && system.Valid()
    modifies shorter, pool, system
    ensures shorter.Valid() && pool.Valid() && system.Valid()
    ensures pool.liquidityTokensSupply == old(pool.liquidityTokensSupply)
    ensures pool.hourlyPrices == old(pool.hourlyPrices)
    ensures system.redemptionPrice == old(system.redemptionPrice)
    ensures system.redemptionRateHourly == old(system.redemptionRateHourly)
    ensures system.totalCollateral - system.Total(Collateral)
            == old(system.totalCollateral - system.Total(Collateral))
    ensures system.totalDebt - system.Total(Debt) == old(system.totalDebt - system.Total(Debt))
    // Without a safe: it opens one exactly when the premium is above its threshold.
    ensures ok && old(shorter.activeSafesCounter) == 0 ==>
              ethUsdPrice != 0.0 &&
              (shorter.activeSafesCounter != 0
               <==> old(shorter.IsDifferenceAboveThreshold(system, pool, ethUsdPrice)))
    // Not opening leaves the wallet, the ledger and the pool as they were.
    ensures ok && old(shorter.activeSafesCounter) == 0 && shorter.activeSafesCounter == 0 ==>
              shorter.walletEth == old(shorter.walletEth) && shorter.walletRai == old(shorter.walletRai) &&
              shorter.safesOwned == old(shorter.safesOwned) && system.safes == old(system.safes) &&
              pool.raiReserve == old(pool.raiReserve) && pool.ethReserve == old(pool.ethReserve)
    // Opening puts the whole ETH stack in a fresh safe and sells all the RAI.
    ensures ok && old(shorter.activeSafesCounter) == 0 && shorter.activeSafesCounter != 0 ==>
              shorter.desiredCollateralization > MinCollateralization && old(system.redemptionPrice) != 0.0 &&
              var minted := DebtToMint(old(shorter.walletEth), shorter.desiredCollateralization,
                                       ethUsdPrice, old(system.redemptionPrice));
              var id := DecimalString(old(system.safeIdCounter));
              old(shorter.walletRai) + minted > 0.0 &&
              system.safes == old(system.safes)[id := Safe(old(shorter.walletEth), minted)] &&
              shorter.safesOwned == old(shorter.safesOwned) + [id] &&
              shorter.walletEth == SwapOutput(old(pool.raiReserve), old(pool.ethReserve),
                                              old(shorter.walletRai) + minted) &&
              shorter.walletRai == 0.0 && shorter.currentShortPriceTarget == system.redemptionPrice
  {
    if shorter.activeSafesCounter == 0 {
      if ethUsdPrice == 0.0 {
        return false;
      }
      if shorter.IsDifferenceAboveThreshold(system, pool, ethUsdPrice) {
        if !(shorter.desiredCollateralization > MinCollateralization && system.redemptionPrice != 0.0) {
          return false;
        }
        shorter.Mint(system, shorter.walletEth, ethUsdPrice);
        if shorter.walletRai <= 0.0 {
          return false;
        }
        shorter.SellRai(pool);
      }
    } else {
      if !(|shorter.safesOwned| > 0 && shorter.safesOwned[|shorter.safesOwned| - 1] in system.safes) {
        return false;
      }
      var active := system.GetSafe(shorter.safesOwned[|shorter.safesOwned| - 1]);
      if active.debt == pool.raiReserve || shorter.netWorthBeforeShorting == 0.0 {
        return false;
      }
      if shorter.IsLossAboveStopLoss(system, pool) {
        shorter.BuyAndRepay(system, pool);
      } else {
        if ethUsdPrice == 0.0 {
          return false;
        }
        if shorter.IsSpotPriceBelowTarget(pool, ethUsdPrice) && RecentRatesPositive(ratePlot) {
          shorter.BuyAndRepay(system, pool);
        }
      }
    }
    ok := true;
  }

  /** Writing a key twice keeps the second value only. */
  lemma UpdateTwice<K, V>(m: map<K, V>, k: K, first: V, second: V)
    ensures m[k := first][k := second] == m[k := second]
  {
  }

  /** The first two steps of a long's open: it mints on its whole ETH stack at
      145.01 percent and, when it holds RAI afterwards, sells all of it. */
  method MintAndSellLong(longer: LongETH, pool: UniswapPool, system: RAISystem, ethUsdPrice: real)
    returns (sold: bool)
    requires longer.Valid() && pool.Valid() && system.Valid()
    requires longer.activeSafesCounter == 0 && system.redemptionPrice != 0.0
    modifies longer`walletEth, longer`walletRai, longer`safesOwned, longer`activeSafesCounter,
             longer`currentShortPriceTarget, pool, system
    ensures longer.Valid() && pool.Valid() && system.Valid()
    ensures longer.activeSafesCounter == 1
    ensures pool.liquidityTokensSupply == old(pool.liquidityTokensSupply)
    ensures pool.hourlyPrices == old(pool.hourlyPrices)
    ensures system.redemptionPrice == old(system.redemptionPrice)
    ensures system.redemptionRateHourly == old(system.redemptionRateHourly)
    ensures var minted := DebtToMint(old(longer.walletEth), LongCollateralization,
                                     ethUsdPrice, old(system.redemptionPrice));
            var id := DecimalString(old(system.safeIdCounter));
            && system.safes == old(system.safes)[id := Safe(old(longer.walletEth), minted)]
            && longer.safesOwned == old(longer.safesOwned) + [id]
            && (sold <==> old(longer.walletRai) + minted > 0.0)
            && (sold ==> longer.walletRai == 0.0
                         && longer.walletEth == SwapOutput(old(pool.raiReserve), old(pool.ethReserve),
                                                           old(longer.walletRai) + minted))
  {
    longer.Mint(system, longer.walletEth, ethUsdPrice);
    sold := longer.walletRai > 0.0;
    if sold {
      longer.SellRai(pool);
    }
  }

  /** A long opens its position: it mints on its whole ETH stack at 145.01
      percent, sells all the RAI and adds the proceeds to the same safe, which
      must then pass modifySafe's check. */
  method OpenLong(longer: LongETH, pool: UniswapPool, system: RAISystem, ethUsdPrice: real)
    returns (ok: bool)
    requires longer.Valid() && pool.Valid() && system.Valid()
    requires longer.activeSafesCounter == 0 && system.redemptionPrice != 0.0
    modifies longer`walletEth, longer`walletRai, longer`safesOwned, longer`activeSafesCounter,
             longer`currentShortPriceTarget, pool, system
    ensures longer.Valid() && pool.Valid() && system.Valid()
    ensures longer.activeSafesCounter == 1
    ensures pool.liquidityTokensSupply == old(pool.liquidityTokensSupply)
    ensures pool.hourlyPrices == old(pool.hourlyPrices)
    ensures system.redemptionPrice == old(system.redemptionPrice)
    ensures system.redemptionRateHourly == old(system.redemptionRateHourly)
    ensures ok ==>
              var minted := DebtToMint(old(longer.walletEth), LongCollateralization,
                                       ethUsdPrice, old(system.redemptionPrice));
              var id := DecimalString(old(system.safeIdCounter));
              old(longer.walletRai) + minted > 0.0 &&
              var proceeds := SwapOutput(old(pool.raiReserve), old(pool.ethReserve),
                                         old(longer.walletRai) + minted);
              system.safes == old(system.safes)[id := Safe(old(longer.walletEth) + proceeds, minted)] &&
              longer.safesOwned == old(longer.safesOwned) + [id] &&
              longer.walletEth == 0.0 && longer.walletRai == 0.0
  {
    ghost var id, ledger := DecimalString(system.safeIdCounter), system.safes;
    ok := MintAndSellLong(longer, pool, system, ethUsdPrice);
    if !ok {
      return false;
    }
    ghost var minted := system.safes[id];
    assert longer.safesOwned[|longer.safesOwned| - 1] == id;
    ok := longer.NetAddCollateral(system, longer.walletEth, ethUsdPrice);
    UpdateTwice(ledger, id, minted, system.safes[id]);
  }

  /** A long's turn without an active safe: once the hour is past both trend
      lengths and the uptrend holds, it mints with its whole ETH stack, sells
      the RAI and adds the ETH as collateral. */
  method LongerOpen(longer: LongETH, pool: UniswapPool, system: RAISystem, hour: nat,
                    ethUsdPrice: real, prices: seq<real>) returns (ok: bool)
    requires longer.Valid() && pool.Valid() && system.Valid()
    requires longer.activeSafesCounter == 0
    modifies longer, pool, system
    ensures longer.Valid() && pool.Valid() && system.Valid()
    ensures pool.liquidityTokensSupply == old(pool.liquidityTokensSupply)
    ensures pool.hourlyPrices == old(pool.hourlyPrices)
    ensures system.redemptionPrice == old(system.redemptionPrice)
    ensures system.redemptionRateHourly == old(system.redemptionRateHourly)
    // It opens exactly when the hour is past both trend lengths and the uptrend holds.
    ensures ok ==>
              (longer.activeSafesCounter != 0
               <==> hour > longer.uptrendToOpenLong && hour > longer.downtrendToCloseLong &&
                    TrendReadable(prices, longer.uptrendToOpenLong) &&
                    WeeklyRises(prices, longer.uptrendToOpenLong))
    // Not opening leaves the wallet, the ledger and the pool as they were.
    ensures ok && longer.activeSafesCounter == 0 ==>
              longer.walletEth == old(longer.walletEth) && longer.walletRai == old(longer.walletRai) &&
              longer.safesOwned == old(longer.safesOwned) && system.safes == old(system.safes) &&
              pool.raiReserve == old(pool.raiReserve) && pool.ethReserve == old(pool.ethReserve)
    // Opening mints on the whole ETH stack, sells the RAI and adds the proceeds
    // to the same safe, leaving the wallet empty.
    ensures ok && longer.activeSafesCounter != 0 ==>
              old(system.redemptionPrice) != 0.0 &&
              var minted := DebtToMint(old(longer.walletEth), LongCollateralization,
                                       ethUsdPrice, old(system.redemptionPrice));
              var id := DecimalString(old(system.safeIdCounter));
              old(longer.walletRai) + minted > 0.0 &&
              var proceeds := SwapOutput(old(pool.raiReserve), old(pool.ethReserve),
                                         old(longer.walletRai) + minted);
              system.safes == old(system.safes)[id := Safe(old(longer.walletEth) + proceeds, minted)] &&
              longer.safesOwned == old(longer.safesOwned) + [id] &&
              longer.walletEth == 0.0 && longer.walletRai == 0.0
  {
    if hour > longer.uptrendToOpenLong && hour > longer.downtrendToCloseLong {
      if !TrendReadable(prices, longer.uptrendToOpenLong) {
        return false;
      }
      var good := longer.IsUptrendGoodToLong(prices);
      if good {
        if system.redemptionPrice == 0.0 {
          return false;
        }
        ok := OpenLong(longer, pool, system, ethUsdPrice);
        if !ok {
          return false;
        }
      }
    }
    ok := true;
  }

  /** A long's turn with an active safe: it closes on a stop loss, near
      liquidation, or on a downtrend, tested in that order. */
  method LongerManage(longer: LongETH, pool: UniswapPool, system: RAISystem,
                      ethUsdPrice: real, prices: seq<real>) returns (ok: bool)
    requires longer.Valid() && pool.Valid() && system.Valid()
    requires longer.activeSafesCounter != 0
    modifies longer, pool, system
    ensures longer.Valid() && pool.Valid() && system.Valid()
    ensures pool.liquidityTokensSupply == old(pool.liquidityTokensSupply)
    ensures pool.hourlyPrices == old(pool.hourlyPrices)
    ensures system.redemptionPrice == old(system.redemptionPrice)
    ensures system.redemptionRateHourly == old(system.redemptionRateHourly)
  {
    if longer.activeSafesCounter > 0 {
      if !(|longer.safesOwned| > 0 && longer.safesOwned[|longer.safesOwned| - 1] in system.safes) {
        return false;
      }
      var active := system.GetSafe(longer.safesOwned[|longer.safesOwned| - 1]);
      if active.debt == pool.raiReserve || longer.netWorthBeforeLonging == 0.0 {
        return false;
      }
    }
    var close: bool;
    var loss := longer.IsLossAboveStopLoss(system, pool);
    if loss == Some(true) {
      close := true;
    } else {
      if longer.activeSafesCounter > 0 {
        var active := system.GetSafe(longer.safesOwned[|longer.safesOwned| - 1]);
        if ethUsdPrice == 0.0 || active.debt * (system.redemptionPrice / ethUsdPrice) == 0.0 {
          return false;
        }
      }
      var near := longer.IsCloseToLiquidation(system, ethUsdPrice);
      if near == Some(true) {
        close := true;
      } else {
        if !TrendReadable(prices, longer.downtrendToCloseLong) {
          return false;
        }
        close := longer.IsDowntrendBad(prices);
      }
    }
    if close {
      if !(|longer.safesOwned| > 0 && longer.safesOwned[|longer.safesOwned| - 1] in system.safes) {
        return false;
      }
      var active := system.GetSafe(longer.safesOwned[|longer.safesOwned| - 1]);
      if active.debt == pool.raiReserve {
        return false;
      }
      longer.BuyAndRepay(system, pool);
    }
    ok := true;
  }

  /** A long's turn: it opens a position when it has no active safe and
      manages the one it has otherwise. */
  method LongerStep(longer: LongETH, pool: UniswapPool, system: RAISystem, hour: nat,
                    ethUsdPrice: real, prices: seq<real>) returns (ok: bool)
    requires longer.Valid() && pool.Valid() && system.Valid()
    modifies longer, pool, system
    ensures longer.Valid() && pool.Valid() && system.Valid()
    ensures pool.liquidityTokensSupply == old(pool.liquidityTokensSupply)
    ensures pool.hourlyPrices == old(pool.hourlyPrices)
    ensures system.redemptionPrice == old(system.redemptionPrice)
    ensures system.redemptionRateHourly == old(system.redemptionRateHourly)
    // Without a safe, the outcomes of LongerOpen.
    ensures ok && old(longer.activeSafesCounter) == 0 ==>
              (longer.activeSafesCounter != 0
               <==> hour > longer.uptrendToOpenLong && hour > longer.downtrendToCloseLong &&
                    TrendReadable(prices, longer.uptrendToOpenLong) &&
                    WeeklyRises(prices, longer.uptrendToOpenLong))
    ensures ok && old(longer.activeSafesCounter) == 0 && longer.activeSafesCounter == 0 ==>
              longer.walletEth == old(longer.walletEth) && longer.walletRai == old(longer.walletRai) &&
              longer.safesOwned == old(longer.safesOwned) && system.safes == old(system.safes) &&
              pool.raiReserve == old(pool.raiReserve) && pool.ethReserve == old(pool.ethReserve)
    ensures ok && old(longer.activeSafesCounter) == 0 && longer.activeSafesCounter != 0 ==>
              old(system.redemptionPrice) != 0.0 &&
              var minted := DebtToMint(old(longer.walletEth), LongCollateralization,
                                       ethUsdPrice, old(system.redemptionPrice));
              var id := DecimalString(old(system.safeIdCounter));
              old(longer.walletRai) + minted > 0.0 &&
              var proceeds := SwapOutput(old(pool.raiReserve), old(pool.ethReserve),
                                         old(longer.walletRai) + minted);
              system.safes == old(system.safes)[id := Safe(old(longer.walletEth) + proceeds, minted)] &&
              longer.safesOwned == old(longer.safesOwned) + [id] &&
              longer.walletEth == 0.0 && longer.walletRai == 0.0
  {
    if longer.activeSafesCounter == 0 {
      ok := LongerOpen(longer, pool, system, hour, ethUsdPrice, prices);
    } else {
      ok := LongerManage(longer, pool, system, ethUsdPrice, prices);
    }
  }

  /** The pool and the system are not agents. */
  lemma OutsideAgents(agents: seq<Agent>, pool: UniswapPool, system: RAISystem)
    ensures pool !in Objects(agents) && system !in Objects(agents)
  {
    forall k | 0 <= k < |agents|
      ensures ObjectOf(agents[k]) != pool && ObjectOf(agents[k]) != system
    {
      match agents[k]
      case Ape(x) =>
      case Shorter(x) =>
      case Longer(x) =>
    }
  }

  /** One agent acts: an ape, a shorter or a longer takes its step. Only that
      agent, the pool and the system change; the LP tokens it does not hold
      stay the same, and so do the redemption price, the rate and the pool's
      price window. */
  method Act(agent: Agent, pool: UniswapPool, system: RAISystem, hour: nat, prices: seq<real>,
             ethUsdPrice: real, flxPerDay: real, ratePlot: seq<real>, sqrt: real -> real)
    returns (ok: bool)
    requires AgentValid(agent) && pool.Valid() && system.Valid() && IsSqrt(sqrt)
    requires ObjectOf(agent) != pool && ObjectOf(agent) != system
    requires LpOf(agent) < pool.liquidityTokensSupply
    modifies pool, system, ObjectOf(agent)
    ensures pool.Valid() && system.Valid() && AgentValid(agent)
    ensures pool.liquidityTokensSupply - LpOf(agent)
            == old(pool.liquidityTokensSupply - LpOf(agent))
    ensures system.redemptionPrice == old(system.redemptionPrice)
    ensures system.redemptionRateHourly == old(system.redemptionRateHourly)
    ensures pool.hourlyPrices == old(pool.hourlyPrices)
  {
    match agent
    case Ape(ape) =>
      ok := ApeStep(ape, pool, system, flxPerDay, ethUsdPrice, sqrt);
    case Shorter(shorter) =>
      ok := ShorterStep(shorter, pool, system, ethUsdPrice, ratePlot);
    case Longer(longer) =>
      ok := LongerStep(longer, pool, system, hour, ethUsdPrice, prices);
  }

  /** The turn of agent j. Only that agent, the pool and the system change;
      the LP tokens held outside the apes stay the same, and so do the
      redemption price, the rate and the pool's price window. */
  method Turn(agents: seq<Agent>, j: int, pool: UniswapPool, system: RAISystem, hour: nat,
              prices: seq<real>, ethUsdPrice: real, flxPerDay: real, ratePlot: seq<real>,
              sqrt: real -> real) returns (ok: bool)
    requires 0 <= j < |agents| && Distinct(agents) && AllValid(agents)
    requires pool.Valid() && system.Valid() && IsSqrt(sqrt)
    requires Sum(LpValues(agents)) < pool.liquidityTokensSupply
    modifies pool, system, ObjectOf(agents[j])
    ensures pool.Valid() && system.Valid() && AllValid(agents)
    ensures pool.liquidityTokensSupply - Sum(LpValues(agents))
            == old(pool.liquidityTokensSupply - Sum(LpValues(agents)))
    ensures system.redemptionPrice == old(system.redemptionPrice)
    ensures system.redemptionRateHourly == old(system.redemptionRateHourly)
    ensures pool.hourlyPrices == old(pool.hourlyPrices)
  {
    ghost var before := LpValues(agents);
    OutsideAgents(agents, pool, system);
    assert ObjectOf(agents[j]) in Objects(agents);
    ApeBelowSupply(agents, j, pool.liquidityTokensSupply);
    ok := Act(agents[j], pool, system, hour, prices, ethUsdPrice, flxPerDay, ratePlot, sqrt);
    forall k | 0 <= k < |agents| && k != j
      ensures LpOf(agents[k]) == old(LpOf(agents[k])) && AgentValid(agents[k])
    {
      assert ObjectOf(agents[k]) in Objects(agents);
      if k < j {
        assert ObjectOf(agents[k]) != ObjectOf(agents[j]);
      } else {
        assert ObjectOf(agents[j]) != ObjectOf(agents[k]);
      }
      assert unchanged(ObjectOf(agents[k]));
      assert old(AgentValid(agents[k]));
    }
    assert LpValues(agents) == before[j := LpOf(agents[j])];
    SumPointUpdate(before, j, LpOf(agents[j]));
  }

  // ---------------------------------------------------------------------
  // One hour

  /** The rate is re-derived from the TWAP after the second hour, every
      `updatePeriod` hours. */
  predicate RateUpdateDue(hour: nat, updatePeriod: nat)
  {
    hour > 2 && updatePeriod > 0 && hour % updatePeriod == 0
  }

  /** Every agent takes its turn, in the order of the shuffle; the hour is
      cut short at the first turn that fails. */
  method AllTurns(agents: seq<Agent>, order: seq<nat>, pool: UniswapPool, system: RAISystem,
                  hour: nat, prices: seq<real>, ethUsdPrice: real, flxPerDay: real,
                  ratePlot: seq<real>, sqrt: real -> real) returns (ok: bool)
    requires pool.Valid() && system.Valid() && IsSqrt(sqrt)
    requires IsPermutation(order, |agents|)
    requires Distinct(agents) && AllValid(agents)
    requires Sum(LpValues(agents)) < pool.liquidityTokensSupply
    modifies pool, system, Objects(agents)
    ensures pool.Valid() && system.Valid() && AllValid(agents)
    ensures pool.liquidityTokensSupply - Sum(LpValues(agents))
            == old(pool.liquidityTokensSupply - Sum(LpValues(agents)))
    ensures system.redemptionPrice == old(system.redemptionPrice)
    ensures system.redemptionRateHourly == old(system.redemptionRateHourly)
    ensures pool.hourlyPrices == old(pool.hourlyPrices)
  {
    ghost var lpOutsideApes := pool.liquidityTokensSupply - Sum(LpValues(agents));
    ok := true;
    var k := 0;
    while k < |agents|
      invariant 0 <= k <= |agents|
      invariant pool.Valid() && system.Valid() && AllValid(agents)
      invariant pool.liquidityTokensSupply - Sum(LpValues(agents)) == lpOutsideApes
      invariant system.redemptionPrice == old(system.redemptionPrice)
      invariant system.redemptionRateHourly == old(system.redemptionRateHourly)
      invariant pool.hourlyPrices == old(pool.hourlyPrices)
    {
      ok := Turn(agents, order[k], pool, system, hour, prices, ethUsdPrice, flxPerDay,
                 ratePlot, sqrt);
      if !ok {
        return;
      }
      k := k + 1;
    }
  }

  /** The start of the hour: the redemption rate, as a percentage of the
      redemption price, joins the plotted rates, then the redemption price
      moves by the rate. A zero redemption price (the percentage divides by
      it) or a negative new price ends the run. No agent changes. */
  method StartHour(agents: seq<Agent>, system: RAISystem, ratePlot: seq<real>)
    returns (ok: bool, newRatePlot: seq<real>)
    requires system.Valid() && system !in Objects(agents)
    modifies system`redemptionPrice
    ensures system.Valid()
    ensures system.redemptionRateHourly == old(system.redemptionRateHourly)
    ensures AllValid(agents) == old(AllValid(agents))
    ensures LpValues(agents) == old(LpValues(agents))
    ensures ok <==> old(system.redemptionPrice) != 0.0 && system.redemptionPrice >= 0.0
    ensures ok ==> newRatePlot == ratePlot + [old(system.redemptionRateHourly)
                                              / old(system.redemptionPrice) * 100.0]
    ensures ok ==> system.redemptionPrice == old(system.redemptionPrice + system.redemptionRateHourly)
  {
    newRatePlot := ratePlot;
    var redemptionPrice := system.redemptionPrice;
    var redemptionRateHourly := system.redemptionRateHourly;
    if redemptionPrice == 0.0 {
      return false, newRatePlot;
    }
    newRatePlot := ratePlot + [redemptionRateHourly / redemptionPrice * 100.0];
    ok := system.UpdateRedemptionPriceHourly();
    forall k | 0 <= k < |agents|
      ensures ObjectOf(agents[k]) != system
    {
      assert ObjectOf(agents[k]) in Objects(agents);
    }
    assert unchanged(Objects(agents));
  }

  /** After the second hour the controller sets a new rate once every update
      period; an update period of zero or a controller that is not
      proportional ends the run. No agent changes. */
  method ControllerStep(agents: seq<Agent>, system: RAISystem, hour: nat, updatePeriod: nat,
                        twapInEth: real, ethUsdPrice: real) returns (ok: bool)
    requires system.Valid() && system !in Objects(agents)
    modifies system`redemptionRateHourly
    ensures system.Valid()
    ensures ok <==> hour <= 2 || (updatePeriod > 0 && (hour % updatePeriod != 0 || system.controller.kind == "P"))
    ensures ok ==> if RateUpdateDue(hour, updatePeriod)
                   then system.controller.kind == "P" &&
                        system.redemptionRateHourly
                        == ProportionalRate(system.controller.gains[0], system.redemptionPrice,
                                            twapInEth, ethUsdPrice)
                   else system.redemptionRateHourly == old(system.redemptionRateHourly)
    ensures AllValid(agents) == old(AllValid(agents))
    ensures LpValues(agents) == old(LpValues(agents))
  {
    ok := true;
    if hour > 2 {
      if updatePeriod == 0 {
        ok := false;
      } else if hour % updatePeriod == 0 {
        ok := system.UpdateRedemptionRateHourly(twapInEth, ethUsdPrice);
      }
    }
    forall k | 0 <= k < |agents|
      ensures ObjectOf(agents[k]) != system
    {
      assert ObjectOf(agents[k]) in Objects(agents);
    }
    assert unchanged(Objects(agents));
  }

  /** The end-of-hour spot price joins the price window. No agent changes. */
  method RecordSpotPrice(agents: seq<Agent>, pool: UniswapPool)
    requires pool.Valid() && pool !in Objects(agents)
    modifies pool`hourlyPrices
    ensures pool.Valid()
    ensures pool.hourlyPrices == PushPrice(old(pool.hourlyPrices), pool.GetSpotPrice())
    ensures AllValid(agents) == old(AllValid(agents))
    ensures LpValues(agents) == old(LpValues(agents))
  {
    pool.AddHourlyPrice(pool.GetSpotPrice());
    forall k | 0 <= k < |agents|
      ensures ObjectOf(agents[k]) != pool
    {
      assert ObjectOf(agents[k]) in Objects(agents);
    }
    assert unchanged(Objects(agents));
  }

  /** The end of the hour: the controller step, then the spot price joins
      the price window. No agent changes. */
  method EndHour(agents: seq<Agent>, pool: UniswapPool, system: RAISystem, hour: nat,
                 updatePeriod: nat, twapInEth: real, ethUsdPrice: real) returns (ok: bool)
    requires pool.Valid() && system.Valid()
    requires pool !in Objects(agents) && system !in Objects(agents)
    modifies system`redemptionRateHourly, pool`hourlyPrices
    ensures pool.Valid() && system.Valid()
    ensures AllValid(agents) == old(AllValid(agents))
    ensures LpValues(agents) == old(LpValues(agents))
    ensures system.redemptionPrice == old(system.redemptionPrice)
    ensures ok ==> if RateUpdateDue(hour, updatePeriod)
                   then system.controller.kind == "P" &&
                        system.redemptionRateHourly
                        == ProportionalRate(system.controller.gains[0], system.redemptionPrice,
                                            twapInEth, ethUsdPrice)
                   else system.redemptionRateHourly == old(system.redemptionRateHourly)
    ensures ok ==> pool.hourlyPrices == PushPrice(old(pool.hourlyPrices), pool.GetSpotPrice())
  {
    ok := ControllerStep(agents, system, hour, updatePeriod, twapInEth, ethUsdPrice);
    if ok {
      RecordSpotPrice(agents, pool);
    }
  }

  /** The agents' turns followed by the end of the hour. */
  method TurnsThenEndHour(agents: seq<Agent>, order: seq<nat>, pool: UniswapPool,
                          system: RAISystem, hour: nat, prices: seq<real>, ethUsdPrice: real,
                          flxPerDay: real, updatePeriod: nat, twapInEth: real,
                          ratePlot: seq<real>, sqrt: real -> real) returns (ok: bool)
    requires pool.Valid() && system.Valid() && IsSqrt(sqrt)
    requires IsPermutation(order, |agents|)
    requires Distinct(agents) && AllValid(agents)
    requires Sum(LpValues(agents)) < pool.liquidityTokensSupply
    requires pool !in Objects(agents) && system !in Objects(agents)
    modifies pool, system, Objects(agents)
    ensures pool.Valid() && system.Valid() && AllValid(agents)
    ensures pool.liquidityTokensSupply - Sum(LpValues(agents))
            == old(pool.liquidityTokensSupply - Sum(LpValues(agents)))
    ensures system.redemptionPrice == old(system.redemptionPrice)
    ensures ok ==> if RateUpdateDue(hour, updatePeriod)
                   then system.controller.kind == "P" &&
                        system.redemptionRateHourly
                        == ProportionalRate(system.controller.gains[0], system.redemptionPrice,
                                            twapInEth, ethUsdPrice)
                   else system.redemptionRateHourly == old(system.redemptionRateHourly)
    ensures ok ==> pool.hourlyPrices == PushPrice(old(pool.hourlyPrices), pool.GetSpotPrice())
  {
    ok := AllTurns(agents, order, pool, system, hour, prices, ethUsdPrice, flxPerDay,
                   ratePlot, sqrt);
    if ok {
      ok := EndHour(agents, pool, system, hour, updatePeriod, twapInEth, ethUsdPrice);
    }
  }

  /** One hour of the simulation: the redemption rate is plotted, the
      redemption price moves by it, every agent takes its turn in shuffled
      order, the controller sets a new rate every update period after the
      second hour, and the spot price joins the price window. Even when the
      hour is cut short, the LP tokens held outside the apes stay the same
      and every object stays valid. */
  method Tick(agents: seq<Agent>, order: seq<nat>, pool: UniswapPool, system: RAISystem,
              hour: nat, prices: seq<real>, flxPerDay: real, updatePeriod: nat,
              ratePlot: seq<real>, sqrt: real -> real)
    returns (ok: bool, shuffled: seq<Agent>, newRatePlot: seq<real>)
    requires pool.Valid() && system.Valid() && IsSqrt(sqrt)
    requires hour < |prices|
    requires IsPermutation(order, |agents|)
    requires Distinct(agents) && AllValid(agents)
    requires Sum(LpValues(agents)) < pool.liquidityTokensSupply
    modifies pool, system, Objects(agents)
    ensures pool.Valid() && system.Valid() && AllValid(agents)
    ensures pool.liquidityTokensSupply - Sum(LpValues(agents))
            == old(pool.liquidityTokensSupply - Sum(LpValues(agents)))
    ensures shuffled == Shuffle(agents, order)
    ensures ok ==> old(system.redemptionPrice) != 0.0 &&
                   newRatePlot == ratePlot + [old(system.redemptionRateHourly)
                                              / old(system.redemptionPrice) * 100.0]
    ensures ok ==> system.redemptionPrice == old(system.redemptionPrice + system.redemptionRateHourly)
                   && system.redemptionPrice >= 0.0
    ensures ok ==> if RateUpdateDue(hour, updatePeriod)
                   then system.controller.kind == "P" &&
                        system.redemptionRateHourly
                        == ProportionalRate(system.controller.gains[0], system.redemptionPrice,
                                            old(pool.GetTwap()), prices[hour])
                   else system.redemptionRateHourly == old(system.redemptionRateHourly)
    ensures ok ==> pool.hourlyPrices == PushPrice(old(pool.hourlyPrices), pool.GetSpotPrice())
  {
    OutsideAgents(agents, pool, system);
    // The shuffle draws nothing from the state, so it is taken up front.
    shuffled := Shuffle(agents, order);
    var twapInEth := pool.GetTwap();
    var ethUsdPrice := prices[hour];
    ok, newRatePlot := StartHour(agents, system, ratePlot);
    if ok {
      // Turn k acts on agents[order[k]], which is shuffled[k].
      ok := TurnsThenEndHour(agents, order, pool, system, hour, prices, ethUsdPrice, flxPerDay,
                             updatePeriod, twapInEth, newRatePlot, sqrt);
    }
  }
}
