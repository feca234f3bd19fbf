/**
 * The optional cost-aware veto and the profit the run reports.
 *
 * The run asks the arbitrage executor for an estimate of the cost of
 * executing the batch and adds that number, as it comes back, to the dETH
 * the batch must lock. The dETH totals are ether amounts there, so in the
 * wei units of this model the estimate weighs `estimate * WeiPerEther`.
 */
module Gate {
  import opened Collateral
  import opened Matching

  /**
   * Whether the run goes on to approval. `executingCost` is `None` when the
   * run is not cost-aware: then nothing is vetoed, not even an empty batch.
   * When it is cost-aware the run stops only when cost plus estimate strictly
   * exceeds the gain, so break-even goes ahead.
   */
  predicate ShouldExecute(b: Batch, executingCost: Option<nat>): (go: bool)
    ensures executingCost.None? ==> go
    ensures executingCost.Some? ==> (go <==> Profit(b, executingCost) >= 0)
  {
    match executingCost
    case None => true
    case Some(c) => !(b.toIsolate + c * WeiPerEther > b.gained)
  }

  /** The dETH profit (wei) reported after execution. */
  function Profit(b: Batch, executingCost: Option<nat>): (p: int)
    ensures p <= b.gained - b.toIsolate
  {
    match executingCost
    case None => b.gained - b.toIsolate
    case Some(c) => b.gained - b.toIsolate - c * WeiPerEther
  }

  /**
   * For a batch the matcher produced, the gate lets the run through exactly
   * when the profit it will report is not negative.
   */
  lemma GateIsProfitSign(open: seq<Knot>, user: seq<Knot>, rewards: RewardsOracle, executingCost: Option<nat>)
    ensures var b := Select(open, user, rewards);
      ShouldExecute(b, executingCost) <==> Profit(b, executingCost) >= 0
  {
    SelectPrefixGainCoversCost(open, user, rewards, Paired(open, user));
  }

  /** Break-even executes, with zero profit. */
  lemma BreakEvenExecutes(b: Batch, c: nat)
    requires b.toIsolate + c * WeiPerEther == b.gained
    ensures ShouldExecute(b, Some(c)) && Profit(b, Some(c)) == 0
  {
  }

  /**
   * Without the cost-aware veto the reported profit of a matched batch is
   * never negative, and it is positive exactly when some pair was selected.
   */
  lemma UngatedProfit(open: seq<Knot>, user: seq<Knot>, rewards: RewardsOracle)
    ensures var b := Select(open, user, rewards);
      Profit(b, None) >= 0 && (Profit(b, None) > 0 <==> |b.openIds| > 0)
  {
    SelectPrefixGainCoversCost(open, user, rewards, Paired(open, user));
  }
}
