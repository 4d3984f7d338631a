/** The RAI debt system: a ledger of safes keyed by decimal string ids, running
    collateral/debt totals, and a redemption price moved every hour by a
    redemption rate that a proportional controller sets. */
module RaiSystem {
  import opened Numeric

  /** Minimum collateralization, in percent. */
  const MinCollateralization: real := 145.0

  /** A controller kind with its gains: ["P", [Kp]], ["PI", [Kp, Ki]], ... */
  datatype Controller = Controller(kind: string, gains: seq<real>)

  /** The constructor's check: a known kind with as many gains as it uses. */
  predicate ControllerAccepted(c: Controller)
  {
    (c.kind == "P" && |c.gains| == 1) ||
    (c.kind == "PI" && |c.gains| == 2) ||
    (c.kind == "PID" && |c.gains| == 3)
  }

  /** The proportional controller's hourly rate from the redemption price and
      the market price (the TWAP in ETH times the ETH/USD price). With a
      positive gain the rate is positive exactly when the market price is
      below the redemption price, zero exactly when they agree, and it pulls
      the market price toward the redemption price. */
  function ProportionalRate(kp: real, redemptionPrice: real, twap: real, ethUsdPrice: real)
    : (rate: real)
    ensures kp > 0.0 ==> (rate > 0.0 <==> twap * ethUsdPrice < redemptionPrice)
    ensures kp > 0.0 ==> (rate == 0.0 <==> twap * ethUsdPrice == redemptionPrice)
    ensures kp > 0.0 ==> (rate < 0.0 <==> twap * ethUsdPrice > redemptionPrice)
  {
    var gap := redemptionPrice - twap * ethUsdPrice;
    assert kp > 0.0 ==> (gap * kp <= 0.0 <==> gap <= 0.0) && (0.0 <= gap * kp <==> 0.0 <= gap) by {
      if kp > 0.0 {
        MulMonotone(gap, 0.0, kp);
        MulMonotone(0.0, gap, kp);
      }
    }
    kp * gap
  }

  datatype Safe = Safe(collateral: real, debt: real)

  // ---------------------------------------------------------------------
  // Safe ids: Python's str() of the id counter

  function Digit(d: nat): char
    requires d < 10
  {
    "0123456789"[d]
  }

  /** The decimal rendering of n, as Python's `str(n)`. */
  function DecimalString(n: nat): (s: string)
    ensures |s| >= 1 && (n >= 10 <==> |s| >= 2)
  {
    if n < 10 then [Digit(n)] else DecimalString(n / 10) + [Digit(n % 10)]
  }

  /** Different counters give different ids. */
  lemma {:induction false} DecimalStringInjective(a: nat, b: nat)
    requires DecimalString(a) == DecimalString(b)
    ensures a == b
  {
    var s := DecimalString(a);
    if a >= 10 && b >= 10 {
      assert s[|s| - 1] == Digit(a % 10) == Digit(b % 10);
      assert a % 10 == b % 10;
      assert DecimalString(a / 10) == s[..|s| - 1] == DecimalString(b / 10);
      DecimalStringInjective(a / 10, b / 10);
    } else {
      assert a < 10 && b < 10;
      assert s[0] == Digit(a) == Digit(b);
    }
  }

  /** The ids of the first n safes ever opened. */
  function IdsBelow(n: nat): set<string>
  {
    set k | 0 <= k < n :: DecimalString(k)
  }

  // ---------------------------------------------------------------------
  // Totals as sums over the live safes

  datatype Amount = Collateral | Debt

  function AmountOf(s: Safe, which: Amount): real
  {
    match which
    case Collateral => s.collateral
    case Debt => s.debt
  }

  /** What the safe with counter k holds, 0 once it is closed. */
  function Entry(safes: map<string, Safe>, k: nat, which: Amount): real
  {
    if DecimalString(k) in safes then AmountOf(safes[DecimalString(k)], which) else 0.0
  }

  /** The sum of `which` over the live safes among the first n ids. */
  function TotalOver(safes: map<string, Safe>, n: nat, which: Amount): real
  {
    if n == 0 then 0.0 else TotalOver(safes, n - 1, which) + Entry(safes, n - 1, which)
  }

  /** Two ledgers that differ at most at the safe with counter j differ in
      their sums by the difference of that safe's entries. */
  lemma {:induction false} TotalOverPointChange(m1: map<string, Safe>, m2: map<string, Safe>,
                                                n: nat, j: nat, which: Amount)
    requires forall k :: 0 <= k < n && k != j ==> Entry(m1, k, which) == Entry(m2, k, which)
    ensures TotalOver(m2, n, which) - TotalOver(m1, n, which)
            == if j < n then Entry(m2, j, which) - Entry(m1, j, which) else 0.0
  {
    if n > 0 {
      TotalOverPointChange(m1, m2, n - 1, j, which);
    }
  }

  /** Entries of other counters are untouched when one id is set or removed. */
  lemma EntryOtherId(m: map<string, Safe>, j: nat, k: nat, s: Safe, which: Amount)
    requires k != j
    ensures Entry(m[DecimalString(j) := s], k, which) == Entry(m, k, which)
    ensures Entry(m - {DecimalString(j)}, k, which) == Entry(m, k, which)
  {
    if DecimalString(k) == DecimalString(j) {
      DecimalStringInjective(k, j);
    }
  }

  /** Setting the safe with counter j < n shifts the sum by its change. */
  lemma TotalAfterSet(m: map<string, Safe>, n: nat, j: nat, s: Safe, which: Amount)
    requires j < n
    ensures TotalOver(m[DecimalString(j) := s], n, which)
            == TotalOver(m, n, which) - Entry(m, j, which) + AmountOf(s, which)
  {
    forall k | 0 <= k < n && k != j
      ensures Entry(m, k, which) == Entry(m[DecimalString(j) := s], k, which)
    {
      EntryOtherId(m, j, k, s, which);
    }
    TotalOverPointChange(m, m[DecimalString(j) := s], n, j, which);
  }

  /** Removing the safe with counter j < n takes its amount off the sum. */
  lemma TotalAfterRemove(m: map<string, Safe>, n: nat, j: nat, which: Amount)
    requires j < n && DecimalString(j) in m
    ensures TotalOver(m - {DecimalString(j)}, n, which)
            == TotalOver(m, n, which) - AmountOf(m[DecimalString(j)], which)
  {
    forall k | 0 <= k < n && k != j
      ensures Entry(m, k, which) == Entry(m - {DecimalString(j)}, k, which)
    {
      EntryOtherId(m, j, k, Safe(0.0, 0.0), which);
    }
    TotalOverPointChange(m, m - {DecimalString(j)}, n, j, which);
  }

  /** Opening a safe under a fresh counter n adds its amount to the sum. */
  lemma TotalAfterOpen(m: map<string, Safe>, n: nat, s: Safe, which: Amount)
    requires m.Keys <= IdsBelow(n)
    ensures DecimalString(n) !in m
    ensures TotalOver(m[DecimalString(n) := s], n + 1, which)
            == TotalOver(m, n, which) + AmountOf(s, which)
  {
    if DecimalString(n) in m {
      var k :| 0 <= k < n && DecimalString(k) == DecimalString(n);
      DecimalStringInjective(k, n);
    }
    TotalAfterSet(m, n + 1, n, s, which);
    assert TotalOver(m, n + 1, which) == TotalOver(m, n, which);
  }

  /** The counter an id in IdsBelow(n) was rendered from. */
  lemma CounterOf(n: nat, id: string) returns (j: nat)
    requires id in IdsBelow(n)
    ensures j < n && DecimalString(j) == id
  {
    j :| 0 <= j < n && DecimalString(j) == id;
  }

  /** Replacing a live safe keeps the ledger's ids and shifts both sums by
      the change of that safe. */
  lemma ReplaceSafe(m: map<string, Safe>, n: nat, id: string, s: Safe)
    requires m.Keys <= IdsBelow(n) && id in m
    ensures m[id := s].Keys <= IdsBelow(n)
    ensures TotalOver(m[id := s], n, Collateral)
            == TotalOver(m, n, Collateral) - m[id].collateral + s.collateral
    ensures TotalOver(m[id := s], n, Debt) == TotalOver(m, n, Debt) - m[id].debt + s.debt
  {
    var j := CounterOf(n, id);
    TotalAfterSet(m, n, j, s, Collateral);
    TotalAfterSet(m, n, j, s, Debt);
  }

  // ---------------------------------------------------------------------
  // Safe arithmetic

  /** RAI minted against `collateral` ETH at `collateralization` percent:
      the safe opens with collateral value / debt value = collateralization / 100. */
  function DebtToMint(collateral: real, collateralization: real, ethUsdPrice: real,
                      redemptionPrice: real): (debt: real)
    requires collateralization != 0.0 && redemptionPrice != 0.0
    ensures debt * redemptionPrice * collateralization == 100.0 * collateral * ethUsdPrice
    ensures (collateral > 0.0 && collateralization > 0.0 && ethUsdPrice > 0.0 &&
             redemptionPrice > 0.0) ==> debt > 0.0
  {
    var percent := collateralization / 100.0;
    var debt := (collateral * ethUsdPrice / percent) / redemptionPrice;
    assert debt * redemptionPrice == collateral * ethUsdPrice / percent;
    assert (collateral * ethUsdPrice / percent) * percent == collateral * ethUsdPrice;
    debt
  }

  /** modifySafe's check: collateral value over debt value, a plain ratio,
      compared with the percent constant 145. */
  predicate ModifyCheckPasses(collateral: real, debt: real, ethUsdPrice: real,
                              redemptionPrice: real)
  {
    debt * redemptionPrice != 0.0 &&
    collateral * ethUsdPrice / (debt * redemptionPrice) > MinCollateralization
  }

  /** A safe opened at any collateralization below 14500 percent fails
      modifySafe's check even when nothing is changed: the check wants a
      ratio above 145, which is a collateralization above 14500 percent. */
  lemma {:induction false} ModifyCheckRejectsOpenedSafe(collateral: real, collateralization: real,
                                                        ethUsdPrice: real, redemptionPrice: real)
    requires collateral > 0.0 && ethUsdPrice > 0.0 && redemptionPrice > 0.0
    requires MinCollateralization < collateralization <= 100.0 * MinCollateralization
    ensures !ModifyCheckPasses(collateral,
                               DebtToMint(collateral, collateralization, ethUsdPrice, redemptionPrice),
                               ethUsdPrice, redemptionPrice)
  {
    var debt := DebtToMint(collateral, collateralization, ethUsdPrice, redemptionPrice);
    var value := debt * redemptionPrice;
    assert value > 0.0;
    assert value * collateralization == 100.0 * collateral * ethUsdPrice;
    var ratio := collateral * ethUsdPrice / value;
    assert ratio * value == collateral * ethUsdPrice;
    assert 100.0 * ratio * value == value * collateralization;
    assert 100.0 * ratio == collateralization by {
      assert (100.0 * ratio - collateralization) * value == 0.0;
    }
  }

  // ---------------------------------------------------------------------
  // The system object

  class RAISystem {
    const controller: Controller
    var redemptionPrice: real
    var redemptionRateHourly: real
    var totalCollateral: real
    var totalDebt: real
    var safes: map<string, Safe>
    var safeIdCounter: nat
    const maxRaiPerEth: real

    /** Every live safe carries an id already handed out. */
    ghost predicate Valid()
      reads this
    {
      ControllerAccepted(controller) && safes.Keys <= IdsBelow(safeIdCounter)
    }

    /** Sum of collateral (or debt) over the live safes. */
    ghost function Total(which: Amount): real
      reads this
    {
      TotalOver(safes, safeIdCounter, which)
    }

    /** The running totals equal the sums over the live safes. */
    ghost predicate TotalsConsistent()
      reads this
    {
      totalCollateral == Total(Collateral) && totalDebt == Total(Debt)
    }

    constructor (controller: Controller, initialRedemptionPrice: real, ethUsdPrice: real)
      requires ControllerAccepted(controller) && initialRedemptionPrice != 0.0
      ensures Valid() && TotalsConsistent()
      ensures this.controller == controller && redemptionPrice == initialRedemptionPrice
      ensures redemptionRateHourly == 0.0 && totalCollateral == 0.0 && totalDebt == 0.0
      ensures safes == map[] && safeIdCounter == 0
      ensures maxRaiPerEth * initialRedemptionPrice * MinCollateralization == 100.0 * ethUsdPrice
    {
      this.controller := controller;
      redemptionPrice := initialRedemptionPrice;
      redemptionRateHourly := 0.0;
      totalCollateral := 0.0;
      totalDebt := 0.0;
      safes := map[];
      safeIdCounter := 0;
      maxRaiPerEth := DebtToMint(1.0, MinCollateralization, ethUsdPrice, initialRedemptionPrice);
    }

    /** The proportional controller: rate = Kp * (redemption price - TWAP in
        USD). Any other controller kind aborts the run (ok == false). */
    method UpdateRedemptionRateHourly(twap: real, ethUsdPrice: real) returns (ok: bool)
      requires Valid()
      modifies this`redemptionRateHourly
      ensures ok <==> controller.kind == "P"
      ensures ok ==> redemptionRateHourly
                     == ProportionalRate(controller.gains[0], redemptionPrice, twap, ethUsdPrice)
    {
      if controller.kind == "P" {
        var kp := controller.gains[0];
        redemptionRateHourly := ProportionalRate(kp, redemptionPrice, twap, ethUsdPrice);
        ok := true;
      } else {
        ok := false;
      }
    }

    /** Adds the hourly rate to the redemption price once; a negative result
        ends the run (ok == false). */
    method UpdateRedemptionPriceHourly() returns (ok: bool)
      modifies this`redemptionPrice
      ensures redemptionPrice == old(redemptionPrice) + redemptionRateHourly
      ensures ok <==> redemptionPrice >= 0.0
    {
      redemptionPrice := redemptionPrice + redemptionRateHourly;
      ok := redemptionPrice >= 0.0;
    }

    method OpenSafe(collateral: real, collateralization: real, ethUsdPrice: real)
      returns (safeId: string, raiToMint: real)
      requires Valid()
      requires collateralization > MinCollateralization && redemptionPrice != 0.0
      modifies this
      ensures Valid()
      ensures safeId == DecimalString(old(safeIdCounter)) && safeId !in old(safes)
      ensures raiToMint == DebtToMint(collateral, collateralization, ethUsdPrice, old(redemptionPrice))
      ensures safes == old(safes)[safeId := Safe(collateral, raiToMint)]
      ensures safeIdCounter == old(safeIdCounter) + 1
      ensures totalCollateral == old(totalCollateral) + collateral
      ensures totalDebt == old(totalDebt) + raiToMint
      ensures totalCollateral - Total(Collateral) == old(totalCollateral - Total(Collateral))
      ensures totalDebt - Total(Debt) == old(totalDebt - Total(Debt))
      ensures redemptionPrice == old(redemptionPrice)
      ensures redemptionRateHourly == old(redemptionRateHourly)
    {
      safeId := DecimalString(safeIdCounter);
      raiToMint := DebtToMint(collateral, collateralization, ethUsdPrice, redemptionPrice);
      TotalAfterOpen(safes, safeIdCounter, Safe(collateral, raiToMint), Collateral);
      TotalAfterOpen(safes, safeIdCounter, Safe(collateral, raiToMint), Debt);
      safes := safes[safeId := Safe(collateral, raiToMint)];
      safeIdCounter := safeIdCounter + 1;
      totalCollateral := totalCollateral + collateral;
      totalDebt := totalDebt + raiToMint;
    }

    /** Deletes the safe and hands back its collateral; its debt is not
        checked. */
    method CloseSafe(safeId: string) returns (collateral: real)
      requires Valid() && safeId in safes
      modifies this
      ensures Valid()
      ensures collateral == old(safes[safeId].collateral)
      ensures safes == old(safes) - {safeId}
      ensures totalCollateral == old(totalCollateral) - collateral
      ensures totalDebt == old(totalDebt) - old(safes[safeId].debt)
      ensures totalCollateral - Total(Collateral) == old(totalCollateral - Total(Collateral))
      ensures totalDebt - Total(Debt) == old(totalDebt - Total(Debt))
      ensures safeIdCounter == old(safeIdCounter)
      ensures redemptionPrice == old(redemptionPrice)
      ensures redemptionRateHourly == old(redemptionRateHourly)
    {
      var j := CounterOf(safeIdCounter, safeId);
      TotalAfterRemove(safes, safeIdCounter, j, Collateral);
      TotalAfterRemove(safes, safeIdCounter, j, Debt);
      collateral := safes[safeId].collateral;
      var debt := safes[safeId].debt;
      totalCollateral := totalCollateral - collateral;
      totalDebt := totalDebt - debt;
      safes := safes - {safeId};
    }

    /** Adds both deltas to one safe and then checks its collateralization
        (ok == false aborts the run). The running totals are left as they
        were, so they drift from the sums by exactly the deltas. */
    method ModifySafe(safeId: string, netCollateral: real, netDebt: real, ethUsdPrice: real)
      returns (ok: bool)
      requires Valid() && safeId in safes
      modifies this`safes
      ensures Valid()
      ensures safes == old(safes)[safeId := Safe(old(safes[safeId].collateral) + netCollateral,
                                                  old(safes[safeId].debt) + netDebt)]
      ensures Total(Collateral) == old(Total(Collateral)) + netCollateral
      ensures Total(Debt) == old(Total(Debt)) + netDebt
      ensures ok <==> ModifyCheckPasses(safes[safeId].collateral, safes[safeId].debt,
                                        ethUsdPrice, redemptionPrice)
    {
      var updated := Safe(safes[safeId].collateral + netCollateral, safes[safeId].debt + netDebt);
      ReplaceSafe(safes, safeIdCounter, safeId, updated);
      safes := safes[safeId := updated];
      // A zero debt value is the division by zero that stops the run.
      ok := ModifyCheckPasses(updated.collateral, updated.debt, ethUsdPrice, redemptionPrice);
    }

    /** The ledger entry of a live id; a missing id is a KeyError. */
    function GetSafe(safeId: string): (safe: Safe)
      reads this
      requires safeId in safes
      ensures (safeId, safe) in safes.Items
    {
      safes[safeId]
    }
  }
}
