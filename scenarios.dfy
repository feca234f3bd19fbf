/**
 * Concrete runs on one-knot lists. Knot "A" has no minted rewards (24 dETH
 * to isolate) and knot "B" has 6 dETH of minted rewards (30 dETH to isolate).
 */
module Scenarios {
  import opened Collateral
  import opened Matching
  import opened Coordinator

  const KnotA := Knot("A", "houseA", 10, None)
  const KnotB := Knot("B", "houseB", 5, None)

  function Rewards(id: ValidatorId): nat
  {
    if id == "B" then 6 * WeiPerEther else 0
  }

  function ChainWith(gasEstimate: nat, approvalHash: TxHash): Chain
  {
    Chain(Rewards, _ => 7, gasEstimate, approvalHash, "0xexec")
  }

  /** A cheaper, higher-yield open-index knot is paired with the user's knot and executed. */
  lemma CheaperHigherYieldIsExecuted()
    ensures Select([KnotA], [KnotB], Rewards)
            == Batch(["A"], ["B"], ["houseA"], ["houseB"], 24 * WeiPerEther, 30 * WeiPerEther)
    ensures RunSpec([KnotA], [KnotB], ChainWith(0, "0xapprove"), "0xuser", false)
            == (Executed("0xapprove", "0xexec", 24 * WeiPerEther, 30 * WeiPerEther, 6 * WeiPerEther),
                [Approve("0xuser", 24 * WeiPerEther),
                 Execute(["A"], ["B"], ["houseA"], ["houseB"], 7, 24 * WeiPerEther, "0xuser", GasLimit)])
  {
    SelectPrefixStep([KnotA], [KnotB], Rewards, 0);
    assert Cost(KnotA, Rewards) == 24 * WeiPerEther;
    assert Cost(KnotB, Rewards) == 30 * WeiPerEther;
  }

  /** Cheaper but lower-yield: the joint filter rejects the position. */
  lemma LowerYieldIsNotPaired()
    ensures Select([KnotA.(reportedYield := 5)], [KnotB.(reportedYield := 10)], Rewards) == EmptyBatch
  {
    SelectPrefixStep([KnotA.(reportedYield := 5)], [KnotB.(reportedYield := 10)], Rewards, 0);
  }

  /** With an estimate of 10 the 24 + 10 > 30 batch is vetoed before any transaction. */
  lemma EstimateVetoesBatch()
    ensures RunSpec([KnotA], [KnotB], ChainWith(10, "0xapprove"), "0xuser", true)
            == (NotProfitable(24 * WeiPerEther, 30 * WeiPerEther, 10), [])
  {
    SelectPrefixStep([KnotA], [KnotB], Rewards, 0);
    assert Cost(KnotA, Rewards) == 24 * WeiPerEther;
    assert Cost(KnotB, Rewards) == 30 * WeiPerEther;
  }

  /** An approval without a hash ends the run before the executor is called. */
  lemma FailedApprovalStops()
    ensures RunSpec([KnotA], [KnotB], ChainWith(0, ""), "0xuser", false)
            == (ApprovalFailed, [Approve("0xuser", 24 * WeiPerEther)])
  {
    SelectPrefixStep([KnotA], [KnotB], Rewards, 0);
    assert Cost(KnotA, Rewards) == 24 * WeiPerEther;
    assert Cost(KnotB, Rewards) == 30 * WeiPerEther;
  }
}
