/**
 * The opportunity matcher: walks the open-index knots and the user's knots
 * position by position and keeps the positions where swapping is worth it.
 *
 * Knot records arrive from the subgraph already ordered: the open index by
 * reported yield, highest first, and the user's side by reported yield,
 * lowest first (arbitrage.py:383-384). The matcher neither assumes nor
 * checks either order. It never reorders them and never pairs two positions
 * that differ: position i of one list is only ever weighed against position i
 * of the other.
 */
module Matching {
  import opened Collateral

  type ValidatorId = string
  type Address = string

  /** Minted dETH rewards per knot, in wei, as the savETH manager reports them. */
  type RewardsOracle = ValidatorId -> nat

  datatype Option<T> = None | Some(value: T)

  /**
   * One knot record as the subgraph returns it (the fields the core reads),
   * plus the `dethNeeded` annotation the matcher writes into it.
   */
  datatype Knot = Knot(
    id: ValidatorId,
    stakeHouse: Address,
    reportedYield: int,
    dethNeeded: Option<nat>)

  /**
   * The selected swaps, kept as the four parallel lists handed to the
   * arbitrage executor, with the two running totals (in wei).
   */
  datatype Batch = Batch(
    openIds: seq<ValidatorId>,
    userIds: seq<ValidatorId>,
    openHouses: seq<Address>,
    userHouses: seq<Address>,
    toIsolate: nat,
    gained: nat)

  const EmptyBatch := Batch([], [], [], [], 0, 0)

  /** dETH (wei) needed to isolate knot `k`. */
  function Cost(k: Knot, rewards: RewardsOracle): nat
  {
    DethRequired(rewards(k.id))
  }

  /**
   * The joint filter: the open-index knot is strictly cheaper to isolate AND
   * reports a strictly higher yield than the user's knot at the same position.
   */
  predicate Profitable(o: Knot, u: Knot, rewards: RewardsOracle): (p: bool)
    ensures p <==> rewards(o.id) < rewards(u.id) && o.reportedYield > u.reportedYield
  {
    CheaperIffFewerRewards(rewards(o.id), rewards(u.id));
    Cost(o, rewards) < Cost(u, rewards) && o.reportedYield > u.reportedYield
  }

  /** Number of positions the matcher visits. */
  function Paired(open: seq<Knot>, user: seq<Knot>): (l: nat)
    ensures l <= |open| && l <= |user|
    ensures l == |open| || l == |user|
  {
    if |open| < |user| then |open| else |user|
  }

  /** The batch after the matcher has visited positions 0 .. n-1. */
  function SelectPrefix(open: seq<Knot>, user: seq<Knot>, rewards: RewardsOracle, n: nat): (b: Batch)
    requires n <= |open| && n <= |user|
    ensures |b.userIds| == |b.openIds| && |b.openHouses| == |b.openIds| && |b.userHouses| == |b.openIds|
    ensures |b.openIds| <= n
  {
    if n == 0 then EmptyBatch
    else
      var b := SelectPrefix(open, user, rewards, n - 1);
      var o, u := open[n - 1], user[n - 1];
      if Profitable(o, u, rewards) then
        Batch(b.openIds + [o.id], b.userIds + [u.id],
              b.openHouses + [o.stakeHouse], b.userHouses + [u.stakeHouse],
              b.toIsolate + Cost(o, rewards), b.gained + Cost(u, rewards))
      else b
  }

  /**
   * Every selected pair frees strictly more collateral than it locks, so the
   * gain exceeds the cost exactly when something was selected, and an empty
   * batch has both totals zero.
   */
  lemma {:induction false} SelectPrefixGainCoversCost(open: seq<Knot>, user: seq<Knot>, rewards: RewardsOracle, n: nat)
    requires n <= |open| && n <= |user|
    ensures var b := SelectPrefix(open, user, rewards, n);
      && b.toIsolate <= b.gained
      && (|b.openIds| > 0 <==> b.toIsolate < b.gained)
      && (|b.openIds| == 0 ==> b.toIsolate == 0 && b.gained == 0)
  {
    if n > 0 {
      SelectPrefixGainCoversCost(open, user, rewards, n - 1);
    }
  }

  /** One more step of the matcher: position n is weighed and possibly appended. */
  lemma SelectPrefixStep(open: seq<Knot>, user: seq<Knot>, rewards: RewardsOracle, n: nat)
    requires n < |open| && n < |user|
    ensures var b, o, u := SelectPrefix(open, user, rewards, n), open[n], user[n];
      SelectPrefix(open, user, rewards, n + 1)
      == if Cost(o, rewards) < Cost(u, rewards) && o.reportedYield > u.reportedYield then
           Batch(b.openIds + [o.id], b.userIds + [u.id],
                 b.openHouses + [o.stakeHouse], b.userHouses + [u.stakeHouse],
                 b.toIsolate + Cost(o, rewards), b.gained + Cost(u, rewards))
         else b
  {
  }

  /**
   * The batch the matcher produces from the two whole lists: at most one
   * pair per visited position, and a gain that covers the cost, strictly
   * when some pair was selected.
   */
  function Select(open: seq<Knot>, user: seq<Knot>, rewards: RewardsOracle): (b: Batch)
    ensures |b.userIds| == |b.openIds| && |b.openHouses| == |b.openIds| && |b.userHouses| == |b.openIds|
    ensures |b.openIds| <= Paired(open, user)
    ensures b.toIsolate <= b.gained && (|b.openIds| > 0 <==> b.toIsolate < b.gained)
  {
    SelectPrefixGainCoversCost(open, user, rewards, Paired(open, user));
    SelectPrefix(open, user, rewards, Paired(open, user))
  }

  /**
   * Reference characterisation of the selection: the positions below `n`
   * that pass the joint filter, in increasing order, each exactly once.
   */
  function Selected(open: seq<Knot>, user: seq<Knot>, rewards: RewardsOracle, n: nat): (ix: seq<nat>)
    requires n <= |open| && n <= |user|
    ensures forall k :: 0 <= k < |ix| ==> ix[k] < n && Profitable(open[ix[k]], user[ix[k]], rewards)
    ensures forall k, m :: 0 <= k < m < |ix| ==> ix[k] < ix[m]
  {
    if n == 0 then []
    else
      var ix := Selected(open, user, rewards, n - 1);
      if Profitable(open[n - 1], user[n - 1], rewards) then ix + [n - 1] else ix
  }

  /** Every position below `n` that passes the joint filter is selected. */
  lemma {:induction false} SelectedComplete(open: seq<Knot>, user: seq<Knot>, rewards: RewardsOracle, n: nat, i: nat)
    requires n <= |open| && n <= |user|
    requires i < n && Profitable(open[i], user[i], rewards)
    ensures i in Selected(open, user, rewards, n)
  {
    if i < n - 1 {
      SelectedComplete(open, user, rewards, n - 1, i);
      var ix := Selected(open, user, rewards, n - 1);
      var k :| 0 <= k < |ix| && ix[k] == i;
      if Profitable(open[n - 1], user[n - 1], rewards) {
        assert (ix + [n - 1])[k] == i;
      }
    } else {
      var ix := Selected(open, user, rewards, n - 1);
      assert (ix + [n - 1])[|ix|] == i;
    }
  }

  /**
   * Sum of `Cost` over the knots of `side` at positions `ix` (a position
   * past the end of `side` contributes nothing).
   */
  function CostOver(side: seq<Knot>, ix: seq<nat>, rewards: RewardsOracle): nat
  {
    if ix == [] then 0
    else
      var j := ix[|ix| - 1];
      CostOver(side, ix[..|ix| - 1], rewards) + (if j < |side| then Cost(side[j], rewards) else 0)
  }

  /**
   * Entry k of each of the four lists comes from the k-th selected position:
   * the open-side and user-side entries always come from the same position.
   */
  lemma {:induction false} SelectPrefixLists(open: seq<Knot>, user: seq<Knot>, rewards: RewardsOracle, n: nat)
    requires n <= |open| && n <= |user|
    ensures var b, ix := SelectPrefix(open, user, rewards, n), Selected(open, user, rewards, n);
      && |b.openIds| == |ix|
      && (forall k :: 0 <= k < |ix| ==>
            && b.openIds[k] == open[ix[k]].id
            && b.userIds[k] == user[ix[k]].id
            && b.openHouses[k] == open[ix[k]].stakeHouse
            && b.userHouses[k] == user[ix[k]].stakeHouse)
  {
    if n > 0 {
      SelectPrefixLists(open, user, rewards, n - 1);
    }
  }

  /** The dETH to isolate is the open-side collateral summed over the selected positions. */
  lemma {:induction false} SelectPrefixToIsolate(open: seq<Knot>, user: seq<Knot>, rewards: RewardsOracle, n: nat)
    requires n <= |open| && n <= |user|
    ensures SelectPrefix(open, user, rewards, n).toIsolate == CostOver(open, Selected(open, user, rewards, n), rewards)
  {
    if n > 0 {
      SelectPrefixToIsolate(open, user, rewards, n - 1);
      if Profitable(open[n - 1], user[n - 1], rewards) {
        CostOverSnoc(open, Selected(open, user, rewards, n - 1), n - 1, rewards);
      }
    }
  }

  /** The dETH gained is the user-side collateral summed over the same positions. */
  lemma {:induction false} SelectPrefixGained(open: seq<Knot>, user: seq<Knot>, rewards: RewardsOracle, n: nat)
    requires n <= |open| && n <= |user|
    ensures SelectPrefix(open, user, rewards, n).gained == CostOver(user, Selected(open, user, rewards, n), rewards)
  {
    if n > 0 {
      SelectPrefixGained(open, user, rewards, n - 1);
      if Profitable(open[n - 1], user[n - 1], rewards) {
        CostOverSnoc(user, Selected(open, user, rewards, n - 1), n - 1, rewards);
      }
    }
  }

  /** Extending the positions by one adds that position's collateral. */
  lemma CostOverSnoc(side: seq<Knot>, ix: seq<nat>, j: nat, rewards: RewardsOracle)
    requires j < |side|
    ensures CostOver(side, ix + [j], rewards) == CostOver(side, ix, rewards) + Cost(side[j], rewards)
  {
  }

  /**
   * The whole-list form of `SelectPrefixLists`, `SelectPrefixToIsolate` and
   * `SelectPrefixGained`: the batch is determined by the selected positions.
   */
  lemma SelectIndexed(open: seq<Knot>, user: seq<Knot>, rewards: RewardsOracle)
    ensures var b, ix := Select(open, user, rewards), Selected(open, user, rewards, Paired(open, user));
      && |b.openIds| == |ix| && |b.userIds| == |ix| && |b.openHouses| == |ix| && |b.userHouses| == |ix|
      && (forall k :: 0 <= k < |ix| ==>
            && b.openIds[k] == open[ix[k]].id
            && b.userIds[k] == user[ix[k]].id
            && b.openHouses[k] == open[ix[k]].stakeHouse
            && b.userHouses[k] == user[ix[k]].stakeHouse)
      && b.toIsolate == CostOver(open, ix, rewards)
      && b.gained == CostOver(user, ix, rewards)
  {
    SelectPrefixLists(open, user, rewards, Paired(open, user));
    SelectPrefixToIsolate(open, user, rewards, Paired(open, user));
    SelectPrefixGained(open, user, rewards, Paired(open, user));
  }

  /** Position i is selected exactly when it is visited and passes the joint filter. */
  lemma SelectedIff(open: seq<Knot>, user: seq<Knot>, rewards: RewardsOracle, i: nat)
    ensures i in Selected(open, user, rewards, Paired(open, user))
        <==> i < |open| && i < |user| && Cost(open[i], rewards) < Cost(user[i], rewards)
             && open[i].reportedYield > user[i].reportedYield
  {
    var l := Paired(open, user);
    if i < l && Profitable(open[i], user[i], rewards) {
      SelectedComplete(open, user, rewards, l, i);
    }
  }

  /** With either list empty nothing is selected and both totals are zero. */
  lemma SelectEmptyInput(open: seq<Knot>, user: seq<Knot>, rewards: RewardsOracle)
    requires open == [] || user == []
    ensures Select(open, user, rewards) == EmptyBatch
  {
  }

  /**
   * Only the first `Paired` positions matter, and only the fields the filter
   * and the batch read: knots past the shorter list's end and the
   * `dethNeeded` annotations never change the selection.
   */
  lemma {:induction false} SelectPrefixIgnoresRest(open: seq<Knot>, user: seq<Knot>, open': seq<Knot>, user': seq<Knot>,
                                                   rewards: RewardsOracle, n: nat)
    requires n <= |open| && n <= |user| && n <= |open'| && n <= |user'|
    requires forall j :: 0 <= j < n ==> open[j].(dethNeeded := None) == open'[j].(dethNeeded := None)
    requires forall j :: 0 <= j < n ==> user[j].(dethNeeded := None) == user'[j].(dethNeeded := None)
    ensures SelectPrefix(open, user, rewards, n) == SelectPrefix(open', user', rewards, n)
  {
    if n > 0 {
      SelectPrefixIgnoresRest(open, user, open', user', rewards, n - 1);
      assert open[n - 1].(dethNeeded := None) == open'[n - 1].(dethNeeded := None);
      assert user[n - 1].(dethNeeded := None) == user'[n - 1].(dethNeeded := None);
    }
  }

  /** Knot `k` with the matcher's annotation written into it. */
  function Annotated(k: Knot, rewards: RewardsOracle): (a: Knot)
    ensures a.(dethNeeded := k.dethNeeded) == k
    ensures a.dethNeeded == Some(Cost(k, rewards))
  {
    k.(dethNeeded := Some(Cost(k, rewards)))
  }

  /**
   * `after` is `before` with positions 0 .. n-1 annotated and every other
   * position untouched.
   */
  predicate AnnotatedUpTo(after: seq<Knot>, before: seq<Knot>, n: nat, rewards: RewardsOracle)
  {
    && |after| == |before|
    && forall j :: 0 <= j < |before| ==> after[j] == if j < n then Annotated(before[j], rewards) else before[j]
  }

  /** Annotating position i extends an annotated prefix of length i by one. */
  lemma AnnotateNext(after: seq<Knot>, before: seq<Knot>, i: nat, rewards: RewardsOracle)
    requires AnnotatedUpTo(after, before, i, rewards) && i < |before|
    ensures AnnotatedUpTo(after[i := Annotated(before[i], rewards)], before, i + 1, rewards)
  {
  }

  /**
   * The matching loop. It visits positions 0 .. Paired-1, writes each
   * visited knot's collateral into its record, and grows the four lists and
   * the two totals for every position that passes the joint filter.
   */
  method Match(open: array<Knot>, user: array<Knot>, rewards: RewardsOracle) returns (b: Batch)
    requires open != user
    modifies open, user
    ensures b == Select(old(open[..]), old(user[..]), rewards)
    ensures AnnotatedUpTo(open[..], old(open[..]), Paired(old(open[..]), old(user[..])), rewards)
    ensures AnnotatedUpTo(user[..], old(user[..]), Paired(old(open[..]), old(user[..])), rewards)
  {
    ghost var open0, user0 := open[..], user[..];
    var l := if open.Length < user.Length then open.Length else user.Length;
    var openIds, userIds, openHouses, userHouses := [], [], [], [];
    var toIsolate, gained := 0, 0;
    for i := 0 to l
      invariant Batch(openIds, userIds, openHouses, userHouses, toIsolate, gained)
                == SelectPrefix(open0, user0, rewards, i)
      invariant AnnotatedUpTo(open[..], open0, i, rewards)
      invariant AnnotatedUpTo(user[..], user0, i, rewards)
    {
      var o, u := open[i], user[i];
      assert o == open0[i] && u == user0[i];
      SelectPrefixStep(open0, user0, rewards, i);
      ghost var openPrev, userPrev := open[..], user[..];
      var openNeeded := DethRequired(rewards(o.id));
      open[i] := o.(dethNeeded := Some(openNeeded));
      var userNeeded := DethRequired(rewards(u.id));
      user[i] := u.(dethNeeded := Some(userNeeded));
      assert open[..] == openPrev[i := Annotated(open0[i], rewards)];
      assert user[..] == userPrev[i := Annotated(user0[i], rewards)];
      AnnotateNext(openPrev, open0, i, rewards);
      AnnotateNext(userPrev, user0, i, rewards);
      if openNeeded < userNeeded && o.reportedYield > u.reportedYield {
        openIds := openIds + [o.id];
        openHouses := openHouses + [o.stakeHouse];
        userIds := userIds + [u.id];
        userHouses := userHouses + [u.stakeHouse];
        toIsolate := toIsolate + openNeeded;
        gained := gained + userNeeded;
      }
    }
    b := Batch(openIds, userIds, openHouses, userHouses, toIsolate, gained);
  }
}
