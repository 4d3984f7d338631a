/** The fee-less constant-product RAI/ETH pool: reserves (R, E), a supply S of
    liquidity tokens and a window of at most 16 end-of-hour spot prices.
    The pure functions state the pool's arithmetic on values; the class
    `UniswapPool` updates its fields in place as the source does, and each of
    its methods is proved against those functions. */
module Uniswap {
  import opened Numeric

  /** Number of hourly prices the TWAP averages over. */
  const WindowSize: nat := 16

  // ---------------------------------------------------------------------
  // Swap arithmetic

  /** Output of a swap of `amountIn` into a pool whose input side holds
      `reserveIn` and output side `reserveOut`: the output reserve becomes
      k / (reserveIn + amountIn), k the product of the reserves. Buying RAI
      (input ETH) and selling RAI (input RAI) are the two uses. */
  function SwapOutput(reserveIn: real, reserveOut: real, amountIn: real): (out: real)
    requires reserveIn > 0.0 && reserveOut > 0.0 && amountIn > 0.0
    ensures 0.0 < out < reserveOut
    ensures (reserveIn + amountIn) * (reserveOut - out) == reserveIn * reserveOut
  {
    var k := reserveIn * reserveOut;
    var newOut := k / (reserveIn + amountIn);
    QuotientTimesDivisor(k, reserveIn + amountIn);
    assert newOut * (reserveIn + amountIn) == k;
    assert newOut * reserveIn < k by {
      assert newOut * amountIn > 0.0;
    }
    assert newOut < reserveOut by {
      MulMonotone(reserveOut, newOut, reserveIn);
    }
    reserveOut - newOut
  }

  /** ETH to pay for exactly `raiOut` RAI: E * (R / (R - raiOut) - 1). */
  function EthForRaiOut(rai: real, eth: real, raiOut: real): (ethIn: real)
    requires rai != raiOut
    ensures rai > 0.0 && eth > 0.0 && 0.0 < raiOut < rai ==>
              ethIn > 0.0 && SwapOutput(eth, rai, ethIn) == raiOut
  {
    var ethIn := eth * ((rai / (rai - raiOut)) - 1.0);
    if rai > 0.0 && eth > 0.0 && 0.0 < raiOut < rai then
      EthForRaiOutInverts(rai, eth, raiOut, ethIn);
      ethIn
    else
      ethIn
  }

  lemma EthForRaiOutInverts(rai: real, eth: real, raiOut: real, ethIn: real)
    requires rai > 0.0 && eth > 0.0 && 0.0 < raiOut < rai
    requires ethIn == eth * ((rai / (rai - raiOut)) - 1.0)
    ensures ethIn > 0.0 && SwapOutput(eth, rai, ethIn) == raiOut
  {
    var left := rai - raiOut;
    var ratio := rai / left;
    QuotientTimesDivisor(rai, left);
    assert ratio * left == rai;
    QuotientAboveOne(rai, left);
    assert ethIn == eth * ratio - eth;
    assert ethIn > 0.0 by {
      assert eth * (ratio - 1.0) > 0.0;
    }
    var out := SwapOutput(eth, rai, ethIn);
    assert eth + ethIn == eth * ratio;
    assert (eth * ratio) * (rai - out) == eth * rai;
    assert ratio * (rai - out) == rai by {
      assert eth * (ratio * (rai - out)) == eth * rai;
    }
    assert ratio * (rai - out) == ratio * left;
  }

  /** The other direction of the round trip: the ETH needed to take out what
      a purchase with `ethIn` returns is `ethIn` itself. */
  lemma {:induction false} EthForSwapOutput(rai: real, eth: real, ethIn: real)
    requires rai > 0.0 && eth > 0.0 && ethIn > 0.0
    ensures SwapOutput(eth, rai, ethIn) < rai
    ensures EthForRaiOut(rai, eth, SwapOutput(eth, rai, ethIn)) == ethIn
  {
    var out := SwapOutput(eth, rai, ethIn);
    var back := EthForRaiOut(rai, eth, out);
    assert SwapOutput(eth, rai, back) == out;
    SwapOutputInjective(eth, rai, back, ethIn);
  }

  /** Different inputs give different outputs. */
  lemma SwapOutputInjective(reserveIn: real, reserveOut: real, a: real, b: real)
    requires reserveIn > 0.0 && reserveOut > 0.0 && a > 0.0 && b > 0.0
    requires SwapOutput(reserveIn, reserveOut, a) == SwapOutput(reserveIn, reserveOut, b)
    ensures a == b
  {
    var out := SwapOutput(reserveIn, reserveOut, a);
    var left := reserveOut - out;
    assert (reserveIn + a) * left == (reserveIn + b) * left;
    assert left > 0.0;
    assert (a - b) * left == 0.0;
  }

  // ---------------------------------------------------------------------
  // Liquidity arithmetic

  /** LP tokens minted for a deposit of `amountRai`: (amountRai / R) * S. */
  function LiquidityMinted(amountRai: real, raiReserve: real, supply: real): (lp: real)
    requires raiReserve > 0.0
    ensures amountRai > 0.0 && supply > 0.0 ==>
              lp > 0.0 && lp / (supply + lp) == amountRai / (raiReserve + amountRai)
  {
    var lp := (amountRai / raiReserve) * supply;
    if amountRai > 0.0 && supply > 0.0 then
      MintedShare(amountRai, raiReserve, supply, lp);
      lp
    else
      lp
  }

  lemma MintedShare(amountRai: real, raiReserve: real, supply: real, lp: real)
    requires amountRai > 0.0 && raiReserve > 0.0 && supply > 0.0
    requires lp == (amountRai / raiReserve) * supply
    ensures lp > 0.0 && lp / (supply + lp) == amountRai / (raiReserve + amountRai)
  {
    var f := amountRai / raiReserve;
    QuotientTimesDivisor(amountRai, raiReserve);
    assert f > 0.0;
    assert supply + lp == supply * (1.0 + f);
    assert raiReserve + amountRai == raiReserve * (1.0 + f);
    var left := lp / (supply + lp);
    var right := amountRai / (raiReserve + amountRai);
    QuotientTimesDivisor(lp, supply + lp);
    QuotientTimesDivisor(amountRai, raiReserve + amountRai);
    assert left * (supply * (1.0 + f)) == f * supply;
    assert right * (raiReserve * (1.0 + f)) == f * raiReserve;
    assert left * (1.0 + f) == f by {
      assert supply * (left * (1.0 + f)) == supply * f;
    }
    assert right * (1.0 + f) == f by {
      assert raiReserve * (right * (1.0 + f)) == raiReserve * f;
    }
    assert (left - right) * (1.0 + f) == 0.0;
  }

  /** What burning `lp` of `supply` tokens pays out of reserves (R, E). */
  function Withdrawal(lp: real, rai: real, eth: real, supply: real): (amounts: (real, real))
    requires supply != 0.0
    ensures amounts.0 * eth == amounts.1 * rai
    ensures 0.0 < lp < supply && rai > 0.0 && eth > 0.0 ==>
              0.0 < amounts.0 < rai && 0.0 < amounts.1 < eth
  {
    var f := lp / supply;
    if 0.0 < lp < supply && rai > 0.0 && eth > 0.0 then
      ShareOfReserve(lp, supply, rai);
      ShareOfReserve(lp, supply, eth);
      (f * rai, f * eth)
    else
      (f * rai, f * eth)
  }

  /** Burning 0 < lp < supply LP tokens pays a positive part of a positive
      reserve below the whole reserve. */
  lemma ShareOfReserve(lp: real, supply: real, reserve: real)
    requires supply != 0.0
    ensures 0.0 < lp < supply && reserve > 0.0 ==> 0.0 < lp / supply * reserve < reserve
  {
    if 0.0 < lp < supply && reserve > 0.0 {
      FractionBetween(lp, supply);
      FractionOf(lp / supply, reserve);
    }
  }

  /** Depositing RAI with some ETH and burning the LP tokens minted for the
      deposit right away gives back all the RAI, and gives back the ETH exactly
      when the deposit was at the pool's price. */
  lemma AddThenRemove(amountRai: real, amountEth: real, rai: real, eth: real, supply: real)
    requires amountRai > 0.0 && rai > 0.0 && eth > 0.0 && supply > 0.0
    ensures var lp := LiquidityMinted(amountRai, rai, supply);
            var back := Withdrawal(lp, rai + amountRai, eth + amountEth, supply + lp);
            && back.0 == amountRai
            && (back.1 == amountEth <==> amountEth * rai == amountRai * eth)
  {
    var lp := LiquidityMinted(amountRai, rai, supply);
    var f := lp / (supply + lp);
    assert f == amountRai / (rai + amountRai);
    QuotientTimesDivisor(amountRai, rai + amountRai);
    assert f * (rai + amountRai) == amountRai;
    var back := Withdrawal(lp, rai + amountRai, eth + amountEth, supply + lp);
    assert back.0 == f * (rai + amountRai);
    assert back.1 == f * (eth + amountEth);
    assert back.1 * (rai + amountRai) == amountRai * (eth + amountEth);
    if back.1 == amountEth {
      assert amountEth * (rai + amountRai) == amountRai * (eth + amountEth);
    } else {
      assert (back.1 - amountEth) * (rai + amountRai) != 0.0;
      assert amountRai * (eth + amountEth) != amountEth * (rai + amountRai);
    }
  }

  /** The LP tokens that buying RAI with `ethIn` and then depositing all of it
      with the matching ETH at the new spot price would mint. */
  function LiquidityAfterBuying(rai: real, eth: real, supply: real, ethIn: real): (lp: real)
    requires rai > 0.0 && eth > 0.0 && ethIn > 0.0
    ensures lp == supply * ethIn / eth
  {
    var bought := SwapOutput(eth, rai, ethIn);
    var lp := LiquidityMinted(bought, rai - bought, supply);
    BuyThenMint(rai, eth, supply, ethIn, bought, lp);
    lp
  }

  lemma BuyThenMint(rai: real, eth: real, supply: real, ethIn: real, bought: real, lp: real)
    requires rai > 0.0 && eth > 0.0 && ethIn > 0.0
    requires bought == SwapOutput(eth, rai, ethIn)
    requires lp == (bought / (rai - bought)) * supply
    ensures lp == supply * ethIn / eth
  {
    var left := rai - bought;
    assert (eth + ethIn) * left == eth * rai;
    var q := bought / left;
    QuotientTimesDivisor(bought, left);
    assert q * left == bought;
    // bought / left == ethIn / eth because eth * bought == ethIn * left
    assert eth * bought == ethIn * left by {
      assert eth * bought == eth * rai - eth * left;
      assert eth * rai == eth * left + ethIn * left;
    }
    var p := ethIn / eth;
    QuotientTimesDivisor(ethIn, eth);
    assert (q - p) * (eth * left) == 0.0 by {
      assert q * (eth * left) == eth * bought;
      assert p * (eth * left) == ethIn * left;
    }
    assert q == p;
    assert supply * ethIn / eth == supply * p by {
      QuotientTimesDivisor(supply * ethIn, eth);
      assert (supply * ethIn / eth - supply * p) * eth == 0.0;
    }
  }

  // ---------------------------------------------------------------------
  // Hourly price window and TWAP

  /** Push one end-of-hour price, dropping the oldest when the window is full. */
  function PushPrice(window: seq<real>, price: real): (w: seq<real>)
    requires |window| <= WindowSize
    ensures |w| == if |window| < WindowSize then |window| + 1 else WindowSize
    ensures w == (window + [price])[|window| + 1 - |w|..]
  {
    if |window| < WindowSize then window + [price]
    else window[1..] + [price]
  }

  /** The window after pushing `prices` one by one. */
  function PushPrices(window: seq<real>, prices: seq<real>): seq<real>
    requires |window| <= WindowSize
    decreases |prices|
  {
    if prices == [] then window
    else PushPrices(PushPrice(window, prices[0]), prices[1..])
  }

  /** Dropping a prefix keeps the last n entries, as long as at least n remain. */
  lemma LatestAfterDrop(all: seq<real>, drop: nat, n: nat)
    requires drop <= |all| && n <= |all| - drop
    ensures all[drop..][|all| - drop - n..] == all[|all| - n..]
  {
  }

  /** Pushing the first price and then the rest sees the same prices as
      pushing all of them, less what the first push dropped. */
  lemma PushedThenRest(window: seq<real>, prices: seq<real>)
    requires |window| <= WindowSize && prices != []
    ensures var w1 := PushPrice(window, prices[0]);
            w1 + prices[1..] == (window + prices)[|window| + 1 - |w1|..]
  {
    var w1 := PushPrice(window, prices[0]);
    var drop := |window| + 1 - |w1|;
    assert window + prices == (window + [prices[0]]) + prices[1..];
    assert w1 == (window + [prices[0]])[drop..];
  }

  /** However many prices are pushed, the window holds exactly the most recent
      ones, at most 16 of them. */
  lemma {:induction false} PushPricesKeepsLatest(window: seq<real>, prices: seq<real>)
    requires |window| <= WindowSize
    ensures var all := window + prices;
            var n := if |all| < WindowSize then |all| else WindowSize;
            PushPrices(window, prices) == all[|all| - n..]
    decreases |prices|
  {
    var all := window + prices;
    if prices != [] {
      var w1 := PushPrice(window, prices[0]);
      PushPricesKeepsLatest(w1, prices[1..]);
      PushedThenRest(window, prices);
      var drop := |window| + 1 - |w1|;
      var n := if |all| < WindowSize then |all| else WindowSize;
      LatestAfterDrop(all, drop, n);
    } else {
      assert all == window;
    }
  }

  function Sum(s: seq<real>): real
  {
    if s == [] then 0.0 else s[0] + Sum(s[1..])
  }

  /** A sum of prices within [lo, hi] lies within [|s| * lo, |s| * hi]. */
  lemma {:induction false} SumBounds(s: seq<real>, lo: real, hi: real)
    requires forall k :: 0 <= k < |s| ==> lo <= s[k] <= hi
    ensures |s| as real * lo <= Sum(s) <= |s| as real * hi
  {
    if s != [] {
      SumBounds(s[1..], lo, hi);
      assert |s| as real == 1.0 + |s[1..]| as real;
    }
  }

  function Lowest(s: seq<real>): real
    requires s != []
  {
    if |s| == 1 then s[0] else Min(s[0], Lowest(s[1..]))
  }

  function Highest(s: seq<real>): real
    requires s != []
  {
    if |s| == 1 then s[0] else Max(s[0], Highest(s[1..]))
  }

  lemma {:induction false} LowestHighestBound(s: seq<real>)
    requires s != []
    ensures forall k :: 0 <= k < |s| ==> Lowest(s) <= s[k] <= Highest(s)
  {
    if |s| > 1 {
      LowestHighestBound(s[1..]);
      forall k | 1 <= k < |s|
        ensures Lowest(s) <= s[k] <= Highest(s)
      {
        assert s[k] == s[1..][k - 1];
      }
    }
  }

  /** The 16-hour TWAP, or the pool's initial spot price while the window is
      not yet full. */
  function Twap(window: seq<real>, initialSpotPrice: real): real
  {
    if |window| < WindowSize then initialSpotPrice
    else Sum(window) / WindowSize as real
  }

  /** A warm TWAP is a mean: it lies between any bounds of the window. */
  lemma TwapWithinBounds(window: seq<real>, initialSpotPrice: real, lo: real, hi: real)
    requires |window| == WindowSize
    requires forall k :: 0 <= k < |window| ==> lo <= window[k] <= hi
    ensures lo <= Twap(window, initialSpotPrice) <= hi
  {
    SumBounds(window, lo, hi);
  }

  /** After at least 16 pushes the TWAP is the mean of the last 16 prices
      pushed, whatever the window held before. */
  lemma TwapAfterWarmUp(window: seq<real>, prices: seq<real>, initialSpotPrice: real)
    requires |window| <= WindowSize && |prices| >= WindowSize
    ensures Twap(PushPrices(window, prices), initialSpotPrice)
            == Sum(prices[|prices| - WindowSize..]) / WindowSize as real
  {
    PushPricesKeepsLatest(window, prices);
    var all := window + prices;
    var latest := prices[|prices| - WindowSize..];
    assert all[|window|..] == prices;
    LatestAfterDrop(all, |window|, WindowSize);
    assert PushPrices(window, prices) == latest;
    assert |latest| == WindowSize;
  }

  /** Before 16 prices have been pushed into an empty window the TWAP is the
      initial spot price. */
  lemma TwapColdStart(prices: seq<real>, initialSpotPrice: real)
    requires |prices| < WindowSize
    ensures Twap(PushPrices([], prices), initialSpotPrice) == initialSpotPrice
  {
    PushPricesKeepsLatest([], prices);
    assert [] + prices == prices;
  }

  // ---------------------------------------------------------------------
  // The pool object

  class UniswapPool {
    var raiReserve: real
    var ethReserve: real
    var liquidityTokensSupply: real
    var hourlyPrices: seq<real>
    const initialSpotPrice: real

    /** Both reserves and the LP supply stay positive; the window never holds
        more than 16 prices. */
    ghost predicate Valid()
      reads this
    {
      raiReserve > 0.0 && ethReserve > 0.0 && liquidityTokensSupply > 0.0 &&
      |hourlyPrices| <= WindowSize && initialSpotPrice > 0.0
    }

    /** The LP supply starts at sqrt(R * E), as in Uniswap v2. */
    constructor (initialRai: real, initialEth: real, sqrt: real -> real)
      requires initialRai > 0.0 && initialEth > 0.0 && IsSqrt(sqrt)
      ensures Valid()
      ensures raiReserve == initialRai && ethReserve == initialEth
      ensures liquidityTokensSupply * liquidityTokensSupply == initialRai * initialEth
      ensures hourlyPrices == [] && initialSpotPrice * initialRai == initialEth
    {
      raiReserve := initialRai;
      ethReserve := initialEth;
      hourlyPrices := [];
      var root := sqrt(initialRai * initialEth);
      assert root != 0.0;
      liquidityTokensSupply := root;
      initialSpotPrice := initialEth / initialRai;
      QuotientTimesDivisor(initialEth, initialRai);
    }

    /** ETH per RAI. */
    function GetSpotPrice(): (price: real)
      reads this
      requires Valid()
      ensures price > 0.0 && price * raiReserve == ethReserve
    {
      QuotientTimesDivisor(ethReserve, raiReserve);
      ethReserve / raiReserve
    }

    method AddLiquidity(amountRai: real, amountEth: real) returns (minted: real)
      requires Valid() && amountRai > 0.0 && amountEth > 0.0
      modifies this
      ensures Valid()
      ensures minted == old(VirtualAddLiquidity(amountRai, amountEth))
      ensures raiReserve == old(raiReserve) + amountRai
      ensures ethReserve == old(ethReserve) + amountEth
      ensures liquidityTokensSupply == old(liquidityTokensSupply) + minted
      ensures hourlyPrices == old(hourlyPrices)
    {
      minted := LiquidityMinted(amountRai, raiReserve, liquidityTokensSupply);
      raiReserve := raiReserve + amountRai;
      ethReserve := ethReserve + amountEth;
      liquidityTokensSupply := liquidityTokensSupply + minted;
    }

    /** LP tokens a deposit would mint; its share of the grown supply equals
        the deposit's share of the grown RAI reserve. */
    function VirtualAddLiquidity(amountRai: real, amountEth: real): (minted: real)
      reads this
      requires Valid() && amountRai > 0.0 && amountEth > 0.0
      ensures minted > 0.0
      ensures minted / (liquidityTokensSupply + minted) == amountRai / (raiReserve + amountRai)
    {
      LiquidityMinted(amountRai, raiReserve, liquidityTokensSupply)
    }

    /** Buys RAI with `ethIn`, deposits it with ETH at the new spot price, notes
        the LP minted and puts reserves and supply back as they were. */
    method VirtualAddLiquidityAfterBuyingRai(ethIn: real) returns (minted: real)
      requires Valid() && ethIn > 0.0
      modifies this
      ensures Valid()
      ensures raiReserve == old(raiReserve) && ethReserve == old(ethReserve)
      ensures liquidityTokensSupply == old(liquidityTokensSupply)
      ensures hourlyPrices == old(hourlyPrices)
      ensures minted == LiquidityAfterBuying(raiReserve, ethReserve, liquidityTokensSupply, ethIn)
    {
      var savedRai, savedEth := raiReserve, ethReserve;
      var savedSupply := liquidityTokensSupply;
      var bought := BuyRai(ethIn);
      var newSpotPrice := GetSpotPrice();
      var ethToAdd := newSpotPrice * bought;
      minted := AddLiquidity(bought, ethToAdd);
      raiReserve, ethReserve := savedRai, savedEth;
      liquidityTokensSupply := savedSupply;
    }

    method RemoveLiquidity(lp: real) returns (amountRai: real, amountEth: real)
      requires Valid() && 0.0 < lp < liquidityTokensSupply
      modifies this
      ensures Valid()
      ensures (amountRai, amountEth)
              == Withdrawal(lp, old(raiReserve), old(ethReserve), old(liquidityTokensSupply))
      ensures raiReserve == old(raiReserve) - amountRai
      ensures ethReserve == old(ethReserve) - amountEth
      ensures liquidityTokensSupply == old(liquidityTokensSupply) - lp
      ensures hourlyPrices == old(hourlyPrices)
    {
      var amounts := Withdrawal(lp, raiReserve, ethReserve, liquidityTokensSupply);
      amountRai, amountEth := amounts.0, amounts.1;
      raiReserve := raiReserve - amountRai;
      ethReserve := ethReserve - amountEth;
      liquidityTokensSupply := liquidityTokensSupply - lp;
    }

    method BuyRai(amountEth: real) returns (amountRai: real)
      requires Valid() && amountEth > 0.0
      modifies this
      ensures Valid()
      ensures amountRai == old(VirtualBuyRai(amountEth))
      ensures ethReserve == old(ethReserve) + amountEth
      ensures raiReserve == old(raiReserve) - amountRai
      ensures raiReserve * ethReserve == old(raiReserve * ethReserve)
      ensures liquidityTokensSupply == old(liquidityTokensSupply)
      ensures hourlyPrices == old(hourlyPrices)
    {
      var k := raiReserve * ethReserve;
      ethReserve := ethReserve + amountEth;
      var prevRaiReserve := raiReserve;
      var newRaiReserve := k / ethReserve;
      raiReserve := newRaiReserve;
      amountRai := prevRaiReserve - newRaiReserve;
      QuotientTimesDivisor(k, ethReserve);
    }

    /** The RAI a purchase with `amountEth` would return: positive, below the
        RAI reserve, and leaving R * E unchanged. */
    function VirtualBuyRai(amountEth: real): (amountRai: real)
      reads this
      requires Valid() && amountEth > 0.0
      ensures 0.0 < amountRai < raiReserve
      ensures (ethReserve + amountEth) * (raiReserve - amountRai) == raiReserve * ethReserve
    {
      SwapOutput(ethReserve, raiReserve, amountEth)
    }

    method SellRai(amountRai: real) returns (amountEth: real)
      requires Valid() && amountRai > 0.0
      modifies this
      ensures Valid()
      ensures 0.0 < amountEth < old(ethReserve)
      ensures amountEth == SwapOutput(old(raiReserve), old(ethReserve), amountRai)
      ensures raiReserve == old(raiReserve) + amountRai
      ensures ethReserve == old(ethReserve) - amountEth
      ensures raiReserve * ethReserve == old(raiReserve * ethReserve)
      ensures liquidityTokensSupply == old(liquidityTokensSupply)
      ensures hourlyPrices == old(hourlyPrices)
    {
      var k := raiReserve * ethReserve;
      raiReserve := raiReserve + amountRai;
      var prevEthReserve := ethReserve;
      var newEthReserve := k / raiReserve;
      ethReserve := newEthReserve;
      amountEth := prevEthReserve - newEthReserve;
      QuotientTimesDivisor(k, raiReserve);
    }

    /** Total value locked in ETH: R * spot + E, which is twice the ETH reserve. */
    function GetTotalValueLockedInEth(): (tvl: real)
      reads this
      requires Valid()
      ensures tvl == 2.0 * ethReserve
    {
      raiReserve * GetSpotPrice() + ethReserve
    }

    method AddHourlyPrice(endPrice: real)
      requires Valid()
      modifies this`hourlyPrices
      ensures Valid()
      ensures hourlyPrices == PushPrice(old(hourlyPrices), endPrice)
    {
      if |hourlyPrices| < WindowSize {
        hourlyPrices := hourlyPrices + [endPrice];
      } else {
        var removedFirst := hourlyPrices[1..];
        hourlyPrices := removedFirst + [endPrice];
      }
    }

    /** The initial spot price until 16 prices are recorded, then their mean,
        which lies between the lowest and the highest of them. */
    function GetTwap(): (twap: real)
      reads this
      requires Valid()
      ensures |hourlyPrices| < WindowSize ==> twap == initialSpotPrice
      ensures |hourlyPrices| == WindowSize ==>
                twap * WindowSize as real == Sum(hourlyPrices) &&
                Lowest(hourlyPrices) <= twap <= Highest(hourlyPrices)
    {
      if |hourlyPrices| == WindowSize then
        LowestHighestBound(hourlyPrices);
        TwapWithinBounds(hourlyPrices, initialSpotPrice, Lowest(hourlyPrices), Highest(hourlyPrices));
        Twap(hourlyPrices, initialSpotPrice)
      else
        Twap(hourlyPrices, initialSpotPrice)
    }

    /** ETH needed to buy exactly `amountRaiOut`; a purchase with that much
        ETH returns exactly `amountRaiOut`. */
    function EthInGivenRaiOut(amountRaiOut: real): (ethNeeded: real)
      reads this
      requires Valid() && amountRaiOut != raiReserve
      ensures 0.0 < amountRaiOut < raiReserve ==>
                ethNeeded > 0.0 && VirtualBuyRai(ethNeeded) == amountRaiOut
    {
      EthForRaiOut(raiReserve, ethReserve, amountRaiOut)
    }
  }
}
