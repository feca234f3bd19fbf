/**
 * The collateral (dETH) needed to isolate a validator from an index.
 *
 * The savETH manager reports how much dETH has been minted as rewards for a
 * knot, in wei. Isolating the knot costs a fixed base of 24 dETH plus those
 * rewards. The original converts the rewards to ether with a decimal
 * scaling; this model keeps every dETH amount in wei, so the same value is
 * 24 * 10^18 + rewards. The wei integers are unbounded, which matches the
 * original's 28-digit decimals while amounts stay below 10^10 dETH.
 */
module Collateral {

  /** Number of wei in one ether (and in one dETH). */
  const WeiPerEther: nat := 1_000_000_000_000_000_000

  /** The protocol's base collateral for isolating a knot: 24 dETH, in wei. */
  const BaseCollateral: nat := 24_000_000_000_000_000_000

  /**
   * dETH (in wei) required to isolate a knot whose minted rewards are
   * `rewardsMinted` wei. Read in ether, its whole part is 24 plus the whole
   * ether of the rewards, and its fractional part is exactly the rewards'
   * fractional part: nothing is added besides the base.
   */
  function DethRequired(rewardsMinted: nat): (d: nat)
    ensures d >= BaseCollateral
    ensures d / WeiPerEther == 24 + rewardsMinted / WeiPerEther
    ensures d % WeiPerEther == rewardsMinted % WeiPerEther
  {
    BaseCollateral + rewardsMinted
  }

  /**
   * Comparing collateral is comparing minted rewards: the fixed base never
   * changes which of two knots is cheaper to isolate.
   */
  lemma CheaperIffFewerRewards(a: nat, b: nat)
    ensures DethRequired(a) < DethRequired(b) <==> a < b
    ensures DethRequired(a) == DethRequired(b) <==> a == b
  {
  }
}
