/**
 * One arbitrage run: match the two knot lists, optionally veto on cost,
 * then approve the dETH and only after a successful approval execute the
 * batch.
 *
 * Everything the run learns from the chain is given up front as a `Chain`
 * value: the minted-rewards lookup, the index a user knot is associated
 * with, the executor's cost estimate and the hashes the two transactions
 * return. The run's side effects on the chain are recorded, in order, as a
 * trace of `Event`s.
 */
module Coordinator {
  import opened Collateral
  import opened Matching
  import opened Gate

  type TxHash = string

  /** Gas allowed for the execution transaction when the run is not cost-aware. */
  const GasLimit: nat := 100000

  /** What the chain answers during one run. */
  datatype Chain = Chain(
    rewardsMinted: RewardsOracle,
    associatedIndex: ValidatorId -> nat,
    gasEstimate: nat,
    approvalHash: TxHash,
    executionHash: TxHash)

  /**
   * A transaction the run submits. The dETH approval names the user's address
   * in the spender position of the token's `approve`; the execution passes
   * the same address to the arbitrage contract.
   */
  datatype Event =
    | Approve(spender: Address, amount: nat)
    | Execute(openIds: seq<ValidatorId>, userIds: seq<ValidatorId>,
              openHouses: seq<Address>, userHouses: seq<Address>,
              userIndex: nat, amount: nat, userAddress: Address, gas: nat)

  /** How a run ends. */
  datatype Outcome =
    | NoUserValidators
    | NotProfitable(toIsolate: nat, gained: nat, executingCost: nat)
    | ApprovalFailed
    | Executed(approvalTx: TxHash, executionTx: TxHash, toIsolate: nat, gained: nat, profit: int)

  /** The cost estimate the gate and the profit use; absent when the run is not cost-aware. */
  function ExecutionCost(chain: Chain, considerExecutionCost: bool): Option<nat>
  {
    if considerExecutionCost then Some(chain.gasEstimate) else None
  }

  /** The execution transaction for batch `b`. */
  function ExecuteEvent(b: Batch, userIndex: nat, userAddress: Address, gas: nat): Event
  {
    Execute(b.openIds, b.userIds, b.openHouses, b.userHouses, userIndex, b.toIsolate, userAddress, gas)
  }

  /**
   * The outcome and the transaction trace of one run on the given knot lists.
   * The trace is empty when the run stops before the approval, holds only the
   * approval when that failed, and holds the approval followed by the
   * execution when the run executed.
   */
  function RunSpec(open: seq<Knot>, user: seq<Knot>, chain: Chain, userAddress: Address,
                   considerExecutionCost: bool): (r: (Outcome, seq<Event>))
    ensures user != [] ==>
      var b := Select(open, user, chain.rewardsMinted);
      && (r.0.NotProfitable? <==> considerExecutionCost && b.toIsolate + chain.gasEstimate * WeiPerEther > b.gained)
      && (r.0.ApprovalFailed? <==> ShouldExecute(b, ExecutionCost(chain, considerExecutionCost)) && chain.approvalHash == [])
      && (r.0.Executed? <==> ShouldExecute(b, ExecutionCost(chain, considerExecutionCost)) && chain.approvalHash != [])
    ensures r.0.NoUserValidators? <==> user == []
    ensures (r.0.NoUserValidators? || r.0.NotProfitable?) <==> r.1 == []
    ensures r.0.ApprovalFailed? <==> |r.1| == 1
    ensures r.0.Executed? <==> |r.1| == 2
    ensures r.1 != [] ==> r.1[0] == Approve(userAddress, Select(open, user, chain.rewardsMinted).toIsolate)
    ensures |r.1| == 2 ==> r.1[1].Execute? && chain.approvalHash != []
  {
    if |user| == 0 then (NoUserValidators, [])
    else
      var userIndex := chain.associatedIndex(user[0].id);
      var b := Select(open, user, chain.rewardsMinted);
      var cost := ExecutionCost(chain, considerExecutionCost);
      if !ShouldExecute(b, cost) then (NotProfitable(b.toIsolate, b.gained, chain.gasEstimate), [])
      else
        var approve := Approve(userAddress, b.toIsolate);
        if chain.approvalHash == [] then (ApprovalFailed, [approve])
        else
          var gas := if considerExecutionCost then chain.gasEstimate else GasLimit;
          (Executed(chain.approvalHash, chain.executionHash, b.toIsolate, b.gained, Profit(b, cost)),
           [approve, ExecuteEvent(b, userIndex, userAddress, gas)])
  }

  /** Without user knots the run submits nothing. */
  lemma EmptyUserSubmitsNothing(open: seq<Knot>, user: seq<Knot>, chain: Chain, userAddress: Address, considerExecutionCost: bool)
    requires user == []
    ensures RunSpec(open, user, chain, userAddress, considerExecutionCost) == (NoUserValidators, [])
  {
  }

  /**
   * Execution happens only as the second transaction, right after an
   * approval for the same amount, and only when the approval returned a
   * hash; a run submits at most these two transactions.
   */
  lemma ExecuteOnlyAfterApproval(open: seq<Knot>, user: seq<Knot>, chain: Chain, userAddress: Address,
                                 considerExecutionCost: bool, k: nat)
    requires k < |RunSpec(open, user, chain, userAddress, considerExecutionCost).1|
    requires RunSpec(open, user, chain, userAddress, considerExecutionCost).1[k].Execute?
    ensures var trace := RunSpec(open, user, chain, userAddress, considerExecutionCost).1;
      && |trace| == 2 && k == 1
      && trace[0] == Approve(userAddress, trace[1].amount)
      && chain.approvalHash != []
  {
  }

  /** A falsy approval result ends the run with the approval as its only transaction. */
  lemma FailedApprovalNeverExecutes(open: seq<Knot>, user: seq<Knot>, chain: Chain, userAddress: Address,
                                    considerExecutionCost: bool)
    requires chain.approvalHash == []
    ensures var (outcome, trace) := RunSpec(open, user, chain, userAddress, considerExecutionCost);
      && |trace| <= 1
      && (forall e :: e in trace ==> e.Approve?)
      && (|trace| == 1 <==> outcome == ApprovalFailed)
  {
  }

  /**
   * In cost-aware mode a batch whose cost plus estimate exceeds its gain is
   * vetoed before any transaction; otherwise, break-even included, the
   * approval goes out.
   */
  lemma CostAwareVeto(open: seq<Knot>, user: seq<Knot>, chain: Chain, userAddress: Address)
    requires user != []
    ensures var b := Select(open, user, chain.rewardsMinted);
      var (outcome, trace) := RunSpec(open, user, chain, userAddress, true);
      && (b.toIsolate + chain.gasEstimate * WeiPerEther > b.gained ==>
            outcome == NotProfitable(b.toIsolate, b.gained, chain.gasEstimate) && trace == [])
      && (b.toIsolate + chain.gasEstimate * WeiPerEther <= b.gained ==>
            trace != [] && trace[0] == Approve(userAddress, b.toIsolate))
  {
  }

  /**
   * A run that executes commits exactly the matcher's batch, with the gas
   * chosen by the mode, and reports gain minus cost (minus the estimate when
   * cost-aware) as its profit, which is never negative.
   */
  lemma ExecutedRunReport(open: seq<Knot>, user: seq<Knot>, chain: Chain, userAddress: Address,
                          considerExecutionCost: bool)
    requires RunSpec(open, user, chain, userAddress, considerExecutionCost).0.Executed?
    ensures var b := Select(open, user, chain.rewardsMinted);
      var (outcome, trace) := RunSpec(open, user, chain, userAddress, considerExecutionCost);
      && user != []
      && trace == [Approve(userAddress, b.toIsolate),
                   ExecuteEvent(b, chain.associatedIndex(user[0].id), userAddress,
                                if considerExecutionCost then chain.gasEstimate else GasLimit)]
      && outcome.toIsolate == b.toIsolate && outcome.gained == b.gained
      && outcome.profit == (if considerExecutionCost then b.gained - b.toIsolate - chain.gasEstimate * WeiPerEther
                            else b.gained - b.toIsolate)
      && outcome.profit >= 0
  {
    GateIsProfitSign(open, user, chain.rewardsMinted, ExecutionCost(chain, considerExecutionCost));
  }

  /**
   * With no profitable position the run is not stopped: without the cost
   * veto it approves and executes an empty batch for zero dETH.
   */
  lemma EmptySelectionStillExecutes(open: seq<Knot>, user: seq<Knot>, chain: Chain, userAddress: Address)
    requires user != [] && chain.approvalHash != []
    requires Select(open, user, chain.rewardsMinted).openIds == []
    ensures RunSpec(open, user, chain, userAddress, false).1
            == [Approve(userAddress, 0), Execute([], [], [], [], chain.associatedIndex(user[0].id), 0, userAddress, GasLimit)]
  {
    SelectPrefixGainCoversCost(open, user, chain.rewardsMinted, Paired(open, user));
  }

  /**
   * The run. It returns early when the user has no knots; otherwise it looks
   * up the user's index from the first user knot, runs the matching loop
   * (which annotates the visited knots in place), applies the veto in
   * cost-aware mode, submits the approval and, only if that returned a hash,
   * the execution.
   */
  method Run(open: array<Knot>, user: array<Knot>, chain: Chain, userAddress: Address, considerExecutionCost: bool)
    returns (outcome: Outcome, trace: seq<Event>)
    requires open != user
    modifies open, user
    ensures (outcome, trace) == RunSpec(old(open[..]), old(user[..]), chain, userAddress, considerExecutionCost)
    ensures AnnotatedUpTo(open[..], old(open[..]), Paired(old(open[..]), old(user[..])), chain.rewardsMinted)
    ensures AnnotatedUpTo(user[..], old(user[..]), Paired(old(open[..]), old(user[..])), chain.rewardsMinted)
  {
    trace := [];
    if user.Length == 0 {
      assert old(user[..]) == [];
      outcome := NoUserValidators;
      return;
    }
    var userIndex := chain.associatedIndex(user[0].id);
    assert userIndex == chain.associatedIndex(old(user[..])[0].id);
    var b := Match(open, user, chain.rewardsMinted);
    var executingCost := 0;
    if considerExecutionCost {
      executingCost := chain.gasEstimate;
      if b.toIsolate + executingCost * WeiPerEther > b.gained {
        outcome := NotProfitable(b.toIsolate, b.gained, executingCost);
        return;
      }
    }
    trace := trace + [Approve(userAddress, b.toIsolate)];
    var approval := chain.approvalHash;
    if approval == [] {
      assert trace == [Approve(userAddress, b.toIsolate)];
      outcome := ApprovalFailed;
      return;
    }
    var gas := if considerExecutionCost then executingCost else GasLimit;
    trace := trace + [Execute(b.openIds, b.userIds, b.openHouses, b.userHouses, userIndex, b.toIsolate, userAddress, gas)];
    var execution := chain.executionHash;
    var profit := if considerExecutionCost then b.gained - b.toIsolate - executingCost * WeiPerEther
                  else b.gained - b.toIsolate;
    assert profit == Profit(b, ExecutionCost(chain, considerExecutionCost));
    assert trace == [Approve(userAddress, b.toIsolate), ExecuteEvent(b, userIndex, userAddress, gas)];
    outcome := Executed(approval, execution, b.toIsolate, b.gained, profit);
  }
}
