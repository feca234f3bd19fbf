# Blockswap LSD arbitrage: the matching and execution core in Dafny

The arbitrage bot compares two lists of Stakehouse knots (validators). The
first is the open index, sorted by reported yield from highest to lowest. The
second is the list of knots the user owns. The bot walks both lists together,
position by position. At each position it computes the dETH needed to isolate
each knot: 24 dETH plus the dETH rewards the savETH manager has minted for that
knot. It keeps the position only when the open-index knot is strictly cheaper to
isolate AND reports a strictly higher yield than the user's knot at the same
position. The kept positions form a batch: four parallel lists (open ids, user
ids, open stakehouses, user stakehouses) and two totals (dETH to isolate and
dETH gained for returning). In cost-aware mode, the run then stops when cost
plus the execution estimate exceeds the gain. Otherwise it approves the dETH,
and only if the approval returns a transaction hash does it submit the
execution.

Modules:

- `Collateral` (`collateral.dfy`): the collateral formula. All dETH amounts are
  integers in wei, so the decimal `24 + fromWei(rewards)` becomes
  `24 * 10^18 + rewards` (exact in the original while amounts stay below
  10^10 dETH; see "Left out").
- `Matching` (`matching.dfy`): the knot record, the batch, and the specification
  functions `SelectPrefix`, `Select` and `Selected`. It also holds the
  imperative loop `Match`, which works over two arrays of knot records and
  writes the `dethNeeded` annotation into each visited record in place.
- `Gate` (`gate.dfy`): the cost-aware veto and the reported profit.
- `Coordinator` (`coordinator.dfy`): the run. `RunSpec` gives a run's outcome
  and its trace of submitted transactions. The method `Run` performs the same
  steps, in the same order, with early returns. What the chain answers is a
  `Chain` value: the minted-rewards lookup, the index associated with a user
  knot, the execution estimate, and the approval and execution hashes.
- `Scenarios` (`scenarios.dfy`): concrete one-knot runs.

The execution estimate is a number of gas units. The original adds it unchanged
to dETH totals held in ether. In wei that is `estimate * 10^18`, and the gate
and the profit are written that way. This reproduces the original's comparison
exactly. It is not a conversion the original intends.

## Model

| member | source | states |
|---|---|---|
| `Collateral.DethRequired` | arbitrage.py:246-250 | Read in ether, the collateral is 24 plus the rewards' whole ether, and its fractional part is exactly the rewards' fractional part: 24 dETH plus the converted rewards with no other adjustment (amounts below 10^10 dETH, see "Left out"). |
| `Matching.Paired` | arbitrage.py:386-387 | The number of visited positions fits in both lists and equals the length of one of them, i.e. it is their minimum. |
| `Matching.Profitable` | arbitrage.py:405-413 | A position passes the joint filter exactly when the open knot has strictly fewer minted rewards than the user's knot and a strictly higher reported yield: the fixed 24-dETH base never changes which knot is cheaper. |
| `Matching.SelectPrefix` | arbitrage.py:396-425 | After any number of steps the four lists have the same length, which never exceeds the number of positions visited. |
| `Matching.Select` | arbitrage.py:386-425 | The whole-list batch has four lists of equal length, at most one pair per visited position, and a gain never below the cost, strictly above it exactly when some pair was selected. `SelectedIff` and `SelectIndexed` pin down which pairs and which totals. |
| `Matching.Selected` | arbitrage.py:404-413 | Every position it lists is below the bound and passes the joint filter, and the positions are strictly increasing. |
| `Matching.SelectedComplete` | arbitrage.py:404-413 | Every visited position that passes the joint filter is selected. |
| `Matching.SelectedIff` | arbitrage.py:404-413 | Position i is selected if and only if i is below both list lengths, the open knot's collateral is strictly lower and its reported yield is strictly higher. |
| `Matching.SelectPrefixLists` | arbitrage.py:415-422 | Entry k of each of the four lists comes from the k-th selected position, and the same position on both sides. |
| `Matching.SelectPrefixToIsolate` | arbitrage.py:401-424 | The dETH to isolate starts at 0 and equals the open-side collateral summed over the selected positions. |
| `Matching.SelectPrefixGained` | arbitrage.py:402-425 | The dETH gained starts at 0 and equals the user-side collateral summed over the same positions. |
| `Matching.SelectPrefixGainCoversCost` | arbitrage.py:401-425 | The gain is never below the cost, and is strictly above it exactly when some pair was selected. An empty batch has both totals 0. |
| `Matching.SelectIndexed` | arbitrage.py:386-425 | The whole-list batch: equal list lengths, entry k from the k-th selected position, and the totals as sums over those positions. |
| `Matching.SelectEmptyInput` | arbitrage.py:386-404 | If either list is empty, nothing is selected and both totals are 0. |
| `Matching.SelectPrefixIgnoresRest` | arbitrage.py:386-413 | The selection depends only on the first visited positions and not on the `dethNeeded` annotations. |
| `Matching.Annotated` | arbitrage.py:405-411 | Annotation changes only the `dethNeeded` field, and sets it to the knot's collateral. |
| `Matching.Match` | arbitrage.py:396-430 | The loop returns exactly `Select` of the input lists. Every visited record is annotated with its collateral, and every other record is unchanged. |
| `Gate.ShouldExecute` | arbitrage.py:432-448 | Without the cost estimate nothing is vetoed, not even an empty batch. With it, the run goes on exactly when the profit it would report, estimate included, is not negative. |
| `Gate.Profit` | arbitrage.py:479-484 | The reported profit never exceeds gain minus cost. The estimate is subtracted only in cost-aware mode. |
| `Gate.GateIsProfitSign` | arbitrage.py:432-448 | For a matched batch, the run passes the gate exactly when the profit it will report is not negative, in both modes. |
| `Gate.BreakEvenExecutes` | arbitrage.py:446-448 | When cost plus estimate equals the gain, the run is not vetoed and the profit is 0. |
| `Gate.UngatedProfit` | arbitrage.py:482-484 | Without the veto, the profit of a matched batch is never negative, and it is positive exactly when some pair was selected. |
| `Coordinator.RunSpec` | arbitrage.py:389-484 | With user knots, the run is vetoed exactly when it is cost-aware and cost plus estimate exceeds the gain; the approval fails exactly when the gate passes and the approval hash is empty; and it executes exactly when the gate passes and the hash is not empty. A run ends with no user knots exactly when the user list is empty. It submits nothing exactly when it ends before the approval, only the approval exactly when that failed, and the approval then the execution exactly when it executed. The first transaction always approves the matched batch's dETH to isolate, and the execution follows only an approval that returned a hash. |
| `Coordinator.EmptyUserSubmitsNothing` | arbitrage.py:389-393 | With no user knots, the run ends with no transaction. |
| `Coordinator.ExecuteOnlyAfterApproval` | arbitrage.py:450-472 | An execution is only ever the second of exactly two transactions. The first is an approval for the same amount, and the approval returned a hash. |
| `Coordinator.FailedApprovalNeverExecutes` | arbitrage.py:451-459 | A falsy approval result means no execution. The approval is then the only transaction, and the outcome is `ApprovalFailed`. |
| `Coordinator.CostAwareVeto` | arbitrage.py:432-448 | In cost-aware mode, cost plus estimate above the gain stops the run before any transaction. Otherwise, exact break-even included, the approval of the batch's dETH is submitted. |
| `Coordinator.ExecutedRunReport` | arbitrage.py:450-484 | An executed run submits the matcher's batch with the user's index and the gas chosen by the mode. It reports gain minus cost, minus the estimate when cost-aware, and that profit is never negative. |
| `Coordinator.EmptySelectionStillExecutes` | arbitrage.py:432-472 | With no selected pair and no veto, the run still approves 0 and executes an empty batch with the default gas limit. |
| `Coordinator.Run` | arbitrage.py:386-472 | The run's outcome and transaction trace equal `RunSpec` on the input lists, and the records are annotated exactly as `Match` annotates them. |
| `Scenarios.CheaperHigherYieldIsExecuted` | arbitrage.py:404-484 | A 24-dETH knot with yield 10 against a 30-dETH knot with yield 5 is paired, approved for 24 and executed, with profit 6. |
| `Scenarios.LowerYieldIsNotPaired` | arbitrage.py:413 | A cheaper open knot with the lower yield is not paired. |
| `Scenarios.EstimateVetoesBatch` | arbitrage.py:432-448 | With an estimate of 10, the 24-against-30 batch is vetoed with no transaction. |
| `Scenarios.FailedApprovalStops` | arbitrage.py:450-459 | An empty approval hash ends the run after the approval, with no execution. |

## Left out

- Subgraph queries (`LsdValidators`, `Stakehouses`, arbitrage.py:16-218) are network I/O. Their results are the input lists, taken in the order given. The yield ordering requested at arbitrage.py:383-384 is neither assumed nor checked.
- Contract loading, transaction building, signing, sending and waiting for receipts (arbitrage.py:221-362) are foreign calls. The minted-rewards lookup, the associated-index lookup, the execution estimate and the two transaction hashes are oracle values in `Chain`.
- The gas estimate is a single value per run. In the original it is computed from the batch; here it is whatever the chain answers.
- A falsy approval result is an empty hash string.
- Stakehouse addresses are opaque strings. Checksum formatting (arbitrage.py:418, 422, 441, 452, 470) is not modelled.
- Unit conversions at the transaction boundary are not reproduced. The run passes `toWei(total)` to the approval and the executor, and those convert with `toWei` again (arbitrage.py:255, 315, 352, 440, 453, 469). The model records the approved and executed amount as the dETH total in wei.
- Reported yield is an unbounded integer. The subgraph returns it as a JSON value whose comparison semantics lie outside this code.
- Knot records are values stored in array slots, not shared dictionaries. Aliasing between records is not modelled.
- Exceptions raised by any collaborator (a failed query, a failed chain read, a failed or timed-out execution) end the original run by propagating. They are not modelled, so the model has no execution-failure outcome.
- Printing, including the final display loop (arbitrage.py:487-493), which indexes the detail list by pair number. The `asyncio`/`dotenv` entry point is also left out.
- constants.py is configuration only. Only `GAS_LIMIT` (constants.py:12) appears, as `Coordinator.GasLimit`. migrations/1_arbritrage_migration.js is a deployment script and is not part of this model.
- The code does not stop on an empty selection: it approves 0 and executes an empty batch (`Coordinator.EmptySelectionStillExecutes`). Its early exits print a message and return; the model keeps them as `Outcome` values.
- `Collateral.DethRequired`: amounts are assumed below 10^10 dETH. The original adds `24 + fromWei(rewards)` (arbitrage.py:249) and accumulates the totals (arbitrage.py:424-425) in Python's default decimal context of 28 significant digits, which is exact only while an amount with its 18 wei decimals fits in 28 digits. Above that the original rounds the wei decimals away, so two different reward amounts can compare equal at arbitrage.py:413; the unbounded wei integers of the model do not round.
- The original hard-wires its run parameters as locals of `main()`: `consider_execution_cost = False` (arbitrage.py:369), `open_index_id = 0` (arbitrage.py:371) and a fixed `user_address` (arbitrage.py:373). As written it therefore never requests the gas estimate, never runs the veto (arbitrage.py:432-448) and never reports the cost-aware profit (arbitrage.py:481). The model generalises the mode to both values through the `considerExecutionCost` parameter of `Run`/`RunSpec`, and takes the user address as a parameter. `open_index_id` only feeds the open-index query (arbitrage.py:380). The initial `user_index_id = 1` (arbitrage.py:372) is always overwritten at arbitrage.py:390 by the associated-index lookup of the first user knot, which the model keeps as `chain.associatedIndex(user[0].id)`.
