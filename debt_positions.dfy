/** Arithmetic shared by the two debt-taking agents (the RAI shorter and the
    leveraged ETH long): closing a safe by buying back its debt, and the
    stop-loss test on the unrealized net worth. */
module DebtPositions {
  import opened Numeric

  /** ETH in the wallet after buying back a safe's whole debt for `ethNeeded`
      and getting its collateral back. When the wallet holds less than the
      purchase costs, the shortfall is credited to it first, so the agent
      never goes below zero and keeps the full collateral. */
  function WalletAfterRepay(walletEth: real, ethNeeded: real, collateral: real): (w: real)
    ensures w == walletEth - ethNeeded + collateral + Max(ethNeeded - walletEth, 0.0)
    ensures w >= collateral
    ensures walletEth >= ethNeeded ==> w == walletEth + collateral - ethNeeded
  {
    var topped := if ethNeeded > walletEth then walletEth + (ethNeeded - walletEth) else walletEth;
    topped - ethNeeded + collateral
  }

  /** The unrealized loss, in percent of the net worth before the position was
      opened, is above the stop loss. Without the division: the drop in net
      worth exceeds stopLoss percent of the starting net worth (the inequality
      turns round when that starting net worth is negative). */
  function LossAboveStopLoss(netWorthBefore: real, currentNetWorth: real, stopLoss: real): (hit: bool)
    requires netWorthBefore != 0.0
    ensures netWorthBefore > 0.0 ==>
              (hit <==> 100.0 * (netWorthBefore - currentNetWorth) > stopLoss * netWorthBefore)
    ensures netWorthBefore < 0.0 ==>
              (hit <==> 100.0 * (netWorthBefore - currentNetWorth) < stopLoss * netWorthBefore)
  {
    var unrealizedLoss := 100.0 * (1.0 - currentNetWorth / netWorthBefore);
    LossScaled(netWorthBefore, currentNetWorth, unrealizedLoss, stopLoss);
    unrealizedLoss > stopLoss
  }

  lemma LossScaled(before: real, current: real, loss: real, stopLoss: real)
    requires before != 0.0 && loss == 100.0 * (1.0 - current / before)
    ensures before > 0.0 ==> (loss > stopLoss <==> 100.0 * (before - current) > stopLoss * before)
    ensures before < 0.0 ==> (loss > stopLoss <==> 100.0 * (before - current) < stopLoss * before)
  {
    QuotientTimesDivisor(current, before);
    assert loss * before == 100.0 * (before - current);
    if before > 0.0 {
      MulMonotone(loss, stopLoss, before);
    } else {
      MulMonotone(loss, stopLoss, -before);
      assert loss * -before == -(loss * before);
      assert stopLoss * -before == -(stopLoss * before);
    }
  }
}
