/** The buy-and-sell ape: an agent that puts all its ETH into the RAI/ETH pool
    (buying just enough RAI to deposit the rest) while the APY it expects is
    at least its threshold, and pulls out and sells everything when it drops
    below. */
module BuyAndSellApes {
  import opened Numeric
  import opened Uniswap
  import opened RaiSystem

  /** FLX tokens in existence; the rewards' value is the ape's valuation of
      all of them times the share handed out per day. */
  const TotalFlxSupply: real := 1000000.0

  /** The redemption rate is compounded over a year of hours. */
  const HoursPerYear: nat := 8760

  // ---------------------------------------------------------------------
  // Providing all of one's ETH

  /** ETH to spend buying RAI so that the ETH left and the RAI bought can be
      deposited together: E * (sqrt(1 + w / E) - 1). The ape spends a positive
      part of its ETH, and E + spend is the geometric mean of E and E + w. */
  function SpendToBalance(ethReserve: real, walletEth: real, sqrt: real -> real): (spend: real)
    requires ethReserve > 0.0 && walletEth > 0.0 && IsSqrt(sqrt)
    ensures 0.0 < spend < walletEth
    ensures (ethReserve + spend) * (ethReserve + spend) == ethReserve * (ethReserve + walletEth)
  {
    var root := sqrt(1.0 + walletEth / ethReserve);
    SpendBounds(ethReserve, walletEth, root);
    ethReserve * (root - 1.0)
  }

  lemma SpendBounds(e: real, w: real, root: real)
    requires e > 0.0 && w > 0.0 && root >= 0.0 && root * root == 1.0 + w / e
    ensures 0.0 < e * (root - 1.0) < w
    ensures (e + e * (root - 1.0)) * (e + e * (root - 1.0)) == e * (e + w)
  {
    var x := 1.0 + w / e;
    QuotientTimesDivisor(w, e);
    assert w / e > 0.0;
    RootAboveOne(root, x);
    assert root < x by {
      assert root * root > root * 1.0;
    }
    assert e * (x - 1.0) == w;
    assert e * (root - 1.0) < e * (x - 1.0);
    assert e + e * (root - 1.0) == e * root;
    assert (e * root) * (e * root) == e * e * x;
  }

  /** After spending `spend` ETH as above, the ETH left and the RAI bought
      stand in the ratio of the new spot price, so both can be deposited whole:
      (w - spend) / bought == E' / R'. */
  lemma BalancedRemainder(rai: real, eth: real, walletEth: real, spend: real)
    requires rai > 0.0 && eth > 0.0 && spend > 0.0
    requires (eth + spend) * (eth + spend) == eth * (eth + walletEth)
    ensures var bought := SwapOutput(eth, rai, spend);
            (walletEth - spend) * (rai - bought) == (eth + spend) * bought
  {
    var bought := SwapOutput(eth, rai, spend);
    var k := eth + spend;
    assert k * (rai - bought) == rai * eth;
    assert k * bought == rai * spend;
    assert (walletEth - spend) * eth == k * spend;
    var lhs := (walletEth - spend) * (rai - bought);
    var rhs := k * bought;
    assert lhs * k == (walletEth - spend) * (rai * eth);
    assert rhs * k == (rai * spend) * k;
    assert (lhs - rhs) * k == 0.0;
  }

  /** The share of the pool that a deposit minting `minted` LP tokens, in
      proportion to `spend` ETH out of the ETH reserve, would hold. */
  lemma ShareAfterProviding(supply: real, ethReserve: real, spend: real, minted: real)
    requires supply > 0.0 && ethReserve > 0.0 && spend > 0.0
    requires minted == supply * spend / ethReserve
    ensures minted > 0.0
    ensures minted / (supply + minted) == spend / (ethReserve + spend)
    ensures 0.0 < spend / (ethReserve + spend) < 1.0
  {
    QuotientTimesDivisor(supply * spend, ethReserve);
    assert supply + minted == supply * (ethReserve + spend) / ethReserve;
    CancelFactor(spend, ethReserve + spend, supply / ethReserve);
    QuotientTimesDivisor(spend, ethReserve + spend);
    MulMonotone(spend / (ethReserve + spend), 1.0, ethReserve + spend);
  }

  /** The LP tokens an ape that provides all of `walletEth` receives from a
      pool with ETH reserve `ethReserve` and LP supply `supply`. */
  function ProvidedLp(supply: real, ethReserve: real, walletEth: real, sqrt: real -> real): real
    requires ethReserve > 0.0 && walletEth > 0.0 && IsSqrt(sqrt)
  {
    supply * SpendToBalance(ethReserve, walletEth, sqrt) / ethReserve
  }

  /** Buying RAI with `spend` ETH and depositing the RAI bought with the
      matching ETH mints LP tokens in proportion to `spend` out of the ETH
      reserve, and the depositor ends with spend / (ethReserve + spend) of the
      supply. */
  lemma ProvideOutcome(rai: real, ethReserve: real, supply: real, spend: real, bought: real,
                       minted: real)
    requires rai > 0.0 && ethReserve > 0.0 && supply > 0.0 && spend > 0.0
    requires bought == SwapOutput(ethReserve, rai, spend)
    requires minted == LiquidityMinted(bought, rai - bought, supply)
    ensures minted == supply * spend / ethReserve && minted > 0.0
    ensures minted / (supply + minted) == spend / (ethReserve + spend)
  {
    BuyThenMint(rai, ethReserve, supply, spend, bought, minted);
    ShareAfterProviding(supply, ethReserve, spend, minted);
  }

  // ---------------------------------------------------------------------
  // The expected APY

  /** The redemption price extrapolated a year ahead at the current hourly
      rate: p * (1 + rate / p) ** 8760. With no rate it stays where it is; a
      positive rate on a positive price raises it, and a negative rate that
      is smaller in size than the price lowers it but keeps it positive. */
  function ExtrapolatedRedemptionPrice(redemptionPrice: real, redemptionRate: real): (future: real)
    requires redemptionPrice != 0.0
    ensures redemptionRate == 0.0 ==> future == redemptionPrice
    ensures redemptionPrice > 0.0 && redemptionRate > 0.0 ==> future > redemptionPrice
    ensures redemptionPrice > 0.0 && -redemptionPrice < redemptionRate < 0.0 ==>
              0.0 < future < redemptionPrice
  {
    var future := redemptionPrice * Pow(1.0 + redemptionRate / redemptionPrice, HoursPerYear);
    ExtrapolationBounds(redemptionPrice, redemptionRate, future);
    future
  }

  lemma ExtrapolationBounds(redemptionPrice: real, redemptionRate: real, future: real)
    requires redemptionPrice != 0.0
    requires future == redemptionPrice * Pow(1.0 + redemptionRate / redemptionPrice, HoursPerYear)
    ensures (redemptionRate == 0.0 ==> future == redemptionPrice) &&
            (redemptionPrice > 0.0 && redemptionRate > 0.0 ==> future > redemptionPrice) &&
            (redemptionPrice > 0.0 && -redemptionPrice < redemptionRate < 0.0 ==>
               0.0 < future < redemptionPrice)
  {
    var growth := Pow(1.0 + redemptionRate / redemptionPrice, HoursPerYear);
    ProportionSign(redemptionPrice, redemptionRate);
    if redemptionRate == 0.0 {
      PowOfOne(HoursPerYear);
    } else if redemptionPrice > 0.0 && redemptionRate > 0.0 {
      PowAboveOne(1.0 + redemptionRate / redemptionPrice, HoursPerYear);
      MulMonotone(growth, 1.0, redemptionPrice);
    } else if redemptionPrice > 0.0 && -redemptionPrice < redemptionRate < 0.0 {
      PowBelowOne(1.0 + redemptionRate / redemptionPrice, HoursPerYear);
      assert future == growth * redemptionPrice;
      MulMonotone(1.0, growth, redemptionPrice);
      assert growth * redemptionPrice < 1.0 * redemptionPrice;
      MulMonotone(growth, 0.0, redemptionPrice);
      assert growth * redemptionPrice > 0.0 * redemptionPrice;
    }
  }

  /** The hourly rate as a proportion of a positive redemption price. */
  lemma ProportionSign(redemptionPrice: real, redemptionRate: real)
    requires redemptionPrice != 0.0
    ensures redemptionRate == 0.0 ==> redemptionRate / redemptionPrice == 0.0
    ensures redemptionPrice > 0.0 && redemptionRate > 0.0 ==> redemptionRate / redemptionPrice > 0.0
    ensures redemptionPrice > 0.0 && -redemptionPrice < redemptionRate < 0.0 ==>
              -1.0 < redemptionRate / redemptionPrice < 0.0
  {
    var proportion := redemptionRate / redemptionPrice;
    QuotientTimesDivisor(redemptionRate, redemptionPrice);
    if redemptionPrice > 0.0 && redemptionRate > 0.0 {
      MulMonotone(proportion, 0.0, redemptionPrice);
    } else if redemptionPrice > 0.0 && -redemptionPrice < redemptionRate < 0.0 {
      MulMonotone(proportion, -1.0, redemptionPrice);
      MulMonotone(0.0, proportion, redemptionPrice);
    }
  }

  /** The APY the ape expects from the redemption rate alone: the distance, in
      percent, between the market price in USD and the redemption price a year
      ahead, counted positive when the hourly rate is a positive proportion of
      the redemption price and negative otherwise. */
  function SystemApy(redemptionPrice: real, redemptionRate: real, marketPriceUsd: real): (apy: real)
    requires redemptionPrice != 0.0 && marketPriceUsd != 0.0
    ensures Abs(apy)
            == 100.0 * Abs(1.0 - ExtrapolatedRedemptionPrice(redemptionPrice, redemptionRate) / marketPriceUsd)
    ensures redemptionRate / redemptionPrice > 0.0 ==> apy >= 0.0
    ensures redemptionRate / redemptionPrice <= 0.0 ==> apy <= 0.0
  {
    var proportion := redemptionRate / redemptionPrice;
    var future := ExtrapolatedRedemptionPrice(redemptionPrice, redemptionRate);
    if proportion > 0.0 then 100.0 * Abs(1.0 - future / marketPriceUsd)
    else -100.0 * Abs(1.0 - future / marketPriceUsd)
  }

  /** With no redemption rate the system APY is minus the distance between the
      redemption price and the market price. */
  lemma SystemApyWithoutRate(redemptionPrice: real, marketPriceUsd: real)
    requires redemptionPrice != 0.0 && marketPriceUsd != 0.0
    ensures SystemApy(redemptionPrice, 0.0, marketPriceUsd)
            == -100.0 * Abs(1.0 - redemptionPrice / marketPriceUsd)
  {
    assert 0.0 / redemptionPrice == 0.0;
  }

  /** The APY of the pool as a whole: a year of all the FLX rewards, in
      percent of the USD value locked in the pool, less 100, plus the system
      APY. */
  function PoolApy(flxValuation: real, flxPerDay: real, tvlEth: real, ethUsdPrice: real,
                   systemApy: real): real
    requires tvlEth * ethUsdPrice != 0.0
  {
    (flxValuation * (flxPerDay / TotalFlxSupply) * 365.0 / (tvlEth * ethUsdPrice) - 1.0) * 100.0
    + systemApy
  }

  /** The APY on a pool share: a year of FLX rewards on that share, in percent
      of the share's USD value, less 100, plus the system APY. The share
      cancels out: every ape sees the APY of the whole pool, whatever it
      holds. */
  function ApyForShare(flxValuation: real, flxPerDay: real, tvlEth: real, ethUsdPrice: real,
                       share: real, systemApy: real): (apy: real)
    requires tvlEth * ethUsdPrice * share != 0.0
    ensures apy == PoolApy(flxValuation, flxPerDay, tvlEth, ethUsdPrice, systemApy)
  {
    var rewardPerDayUsd := flxValuation * (flxPerDay / TotalFlxSupply);
    var rewardToApePerDayUsd := share * rewardPerDayUsd;
    var rewardPerYearUsd := rewardToApePerDayUsd * 365.0;
    var valueOfShareUsd := tvlEth * ethUsdPrice * share;
    CancelFactor(rewardPerDayUsd * 365.0, tvlEth * ethUsdPrice, share);
    assert rewardPerYearUsd == share * (rewardPerDayUsd * 365.0);
    assert valueOfShareUsd == (tvlEth * ethUsdPrice) * share;
    assert rewardPerYearUsd / valueOfShareUsd == rewardPerDayUsd * 365.0 / (tvlEth * ethUsdPrice);
    (rewardPerYearUsd / valueOfShareUsd - 1.0) * 100.0 + systemApy
  }

  // ---------------------------------------------------------------------
  // The agent

  class BuyAndSellApe {
    var walletRai: real
    var walletEth: real
    var walletLp: real
    const apyThreshold: real
    const expectedFlxValuation: real
    var currentApy: real
    var currentPoolShare: real

    /** The ape never holds a negative number of LP tokens. */
    ghost predicate Valid()
      reads this
    {
      walletLp >= 0.0
    }

    /** The three uniform draws are the arguments. */
    constructor (ethHoldings: real, apyThreshold: real, expectedFlxValuation: real)
      ensures Valid()
      ensures walletRai == 0.0 && walletEth == ethHoldings && walletLp == 0.0
      ensures this.apyThreshold == apyThreshold
      ensures this.expectedFlxValuation == expectedFlxValuation
      ensures currentApy == 0.0
    {
      walletRai, walletEth, walletLp := 0.0, ethHoldings, 0.0;
      this.apyThreshold := apyThreshold;
      this.expectedFlxValuation := expectedFlxValuation;
      currentApy := 0.0;
      currentPoolShare := 0.0;
    }

    /** isAPYGood raises unless the redemption price and the ETH price are
        nonzero and, when the ape holds no LP tokens, it has ETH to provide. */
    predicate ApyComputable(redemptionPrice: real, ethUsdPrice: real)
      reads this
    {
      redemptionPrice != 0.0 && ethUsdPrice != 0.0 && (walletLp == 0.0 ==> walletEth > 0.0)
    }

    /** The pool share the ape would own if it bought RAI and provided all
        of its ETH: the LP tokens the hypothetical deposit would mint over the
        supply after minting. It is the ETH spent buying over the ETH reserve
        after buying; the pool is put back as it was. */
    method PotentialPoolShare(pool: UniswapPool, sqrt: real -> real) returns (share: real)
      requires pool.Valid() && IsSqrt(sqrt) && walletEth > 0.0
      modifies pool
      ensures pool.Valid()
      ensures pool.raiReserve == old(pool.raiReserve) && pool.ethReserve == old(pool.ethReserve)
      ensures pool.liquidityTokensSupply == old(pool.liquidityTokensSupply)
      ensures pool.hourlyPrices == old(pool.hourlyPrices)
      ensures var spend := SpendToBalance(pool.ethReserve, walletEth, sqrt);
              share == spend / (pool.ethReserve + spend) && 0.0 < share < 1.0
    {
      var supply := pool.liquidityTokensSupply;
      var ethReserve := pool.ethReserve;
      var spend := SpendToBalance(ethReserve, walletEth, sqrt);
      var minted := pool.VirtualAddLiquidityAfterBuyingRai(spend);
      var newSupply := supply + minted;
      share := minted / newSupply;
      ShareAfterProviding(supply, ethReserve, spend, minted);
    }

    /** Computes the APY the ape expects (on its pool share, or on the share it
        would get by providing all its ETH) and compares it with its threshold.
        Whatever the share, the APY is that of the whole pool. */
    method IsApyGood(pool: UniswapPool, system: RAISystem, flxGivenPerDay: real,
                     ethUsdPrice: real, sqrt: real -> real) returns (isGood: bool)
      requires Valid() && pool.Valid() && IsSqrt(sqrt)
      requires ApyComputable(system.redemptionPrice, ethUsdPrice)
      modifies this`currentApy, this`currentPoolShare, pool
      ensures Valid() && pool.Valid()
      ensures pool.raiReserve == old(pool.raiReserve) && pool.ethReserve == old(pool.ethReserve)
      ensures pool.liquidityTokensSupply == old(pool.liquidityTokensSupply)
      ensures pool.hourlyPrices == old(pool.hourlyPrices)
      ensures currentApy
              == PoolApy(expectedFlxValuation, flxGivenPerDay, old(pool.GetTotalValueLockedInEth()), ethUsdPrice,
                         SystemApy(system.redemptionPrice, system.redemptionRateHourly,
                                   old(pool.GetSpotPrice()) * ethUsdPrice))
      ensures walletLp == 0.0 ==>
                var spend := SpendToBalance(pool.ethReserve, walletEth, sqrt);
                currentPoolShare == spend / (pool.ethReserve + spend)
      ensures walletLp != 0.0 ==> currentPoolShare == walletLp / pool.liquidityTokensSupply
      ensures 0.0 < currentPoolShare
      ensures isGood <==> currentApy >= apyThreshold
    {
      // The pool is put back as it was, so reading it first is reading it after.
      var tvl := pool.GetTotalValueLockedInEth();
      var redemptionPrice := system.redemptionPrice;
      var redemptionRate := system.redemptionRateHourly;
      var marketPriceUsd := pool.GetSpotPrice() * ethUsdPrice;
      var systemApy := SystemApy(redemptionPrice, redemptionRate, marketPriceUsd);
      var share: real;
      if walletLp == 0.0 {
        share := PotentialPoolShare(pool, sqrt);
      } else {
        share := walletLp / pool.liquidityTokensSupply;
        assert share > 0.0 by {
          QuotientTimesDivisor(walletLp, pool.liquidityTokensSupply);
        }
      }
      assert tvl * ethUsdPrice * share != 0.0 by {
        assert tvl * ethUsdPrice != 0.0;
      }
      var apy := ApyForShare(expectedFlxValuation, flxGivenPerDay, tvl, ethUsdPrice, share, systemApy);
      currentApy, currentPoolShare := apy, share;
      isGood := currentApy >= apyThreshold;
    }

    /** Spends just enough ETH on RAI to deposit everything else, deposits
        it all and keeps the LP tokens. The pool's RAI comes back to where it
        was, all the ape's ETH ends up in the pool, and the ape's share of the
        supply is the one IsApyGood computed. */
    method BuyAndProvide(pool: UniswapPool, sqrt: real -> real)
      requires Valid() && pool.Valid() && IsSqrt(sqrt) && walletEth > 0.0
      modifies this`walletEth, this`walletLp, pool
      ensures Valid() && pool.Valid()
      ensures walletEth == 0.0
      ensures pool.raiReserve == old(pool.raiReserve)
      ensures pool.ethReserve == old(pool.ethReserve) + old(walletEth)
      ensures pool.liquidityTokensSupply - walletLp == old(pool.liquidityTokensSupply - walletLp)
      ensures walletLp > old(walletLp)
      ensures walletLp - old(walletLp)
              == ProvidedLp(old(pool.liquidityTokensSupply), old(pool.ethReserve), old(walletEth), sqrt)
      ensures var spend := SpendToBalance(old(pool.ethReserve), old(walletEth), sqrt);
              (old(walletLp) == 0.0 ==>
                 walletLp / pool.liquidityTokensSupply == spend / (old(pool.ethReserve) + spend))
      ensures pool.hourlyPrices == old(pool.hourlyPrices)
    {
      var ethReserve := pool.ethReserve;
      var spend := SpendToBalance(ethReserve, walletEth, sqrt);
      ghost var rai, supply := pool.raiReserve, pool.liquidityTokensSupply;
      ghost var promised := ProvidedLp(old(pool.liquidityTokensSupply), old(pool.ethReserve), old(walletEth), sqrt);
      assert promised == supply * spend / ethReserve;
      var amountRaiObtained := pool.BuyRai(spend);
      assert amountRaiObtained == SwapOutput(ethReserve, rai, spend);
      assert pool.raiReserve == rai - amountRaiObtained && pool.liquidityTokensSupply == supply;
      walletEth := walletEth - spend;
      var minted := pool.AddLiquidity(amountRaiObtained, walletEth);
      assert minted == LiquidityMinted(amountRaiObtained, rai - amountRaiObtained, supply);
      ProvideOutcome(rai, ethReserve, supply, spend, amountRaiObtained, minted);
      walletLp := walletLp + minted;
      walletEth := 0.0;
      assert pool.liquidityTokensSupply == supply + minted;
      assert old(walletLp) == 0.0 ==> walletLp / pool.liquidityTokensSupply == spend / (ethReserve + spend) by {
        if old(walletLp) == 0.0 { assert walletLp == minted; }
      }
      assert walletLp - old(walletLp) == promised;
      assert SpendToBalance(old(pool.ethReserve), old(walletEth), sqrt) == spend;
    }

    /** Burns all the ape's LP tokens and sells the RAI they return. The
        pool's RAI reserve ends where it started, and ETH only moves between
        the pool and the ape. */
    method RemoveAndSell(pool: UniswapPool)
      requires Valid() && pool.Valid() && 0.0 < walletLp < pool.liquidityTokensSupply
      modifies this`walletEth, this`walletLp, pool
      ensures Valid() && pool.Valid()
      ensures walletLp == 0.0
      ensures pool.liquidityTokensSupply == old(pool.liquidityTokensSupply - walletLp)
      ensures pool.raiReserve == old(pool.raiReserve)
      ensures pool.ethReserve + walletEth == old(pool.ethReserve + walletEth)
      ensures walletEth > old(walletEth)
      ensures var w := Withdrawal(old(walletLp), old(pool.raiReserve), old(pool.ethReserve),
                                  old(pool.liquidityTokensSupply));
              walletEth == old(walletEth) + w.1 + SwapOutput(old(pool.raiReserve) - w.0, old(pool.ethReserve) - w.1, w.0)
      ensures pool.hourlyPrices == old(pool.hourlyPrices)
    {
      var amountRai, amountEth := pool.RemoveLiquidity(walletLp);
      var sold := pool.SellRai(amountRai);
      amountEth := amountEth + sold;
      walletEth := walletEth + amountEth;
      walletLp := 0.0;
    }
  }
}
