/**
 * The milestone-crossing detector of the desktop agent's earnings
 * notifications, and the amount its milestone notification displays.
 *
 * Amounts of HBD are modelled as exact reals: the detector only compares
 * values with constants and does no arithmetic.
 */
module Notifications {
  import opened Wrappers

  /** The cumulative-earnings milestones, in HBD, in the order they are scanned. */
  const MilestoneThresholds: seq<real> := [0.01, 0.1, 1.0, 10.0, 100.0]

  predicate StrictlyIncreasing(s: seq<real>) {
    forall i, j :: 0 <= i < j < |s| ==> s[i] < s[j]
  }

  /** Cumulative earnings moving from `oldTotal` to `newTotal` cross `t`. */
  predicate Crosses(oldTotal: real, newTotal: real, t: real) {
    oldTotal < t <= newTotal
  }

  /** The thresholds are non-empty and strictly ascending. */
  lemma ThresholdsAscending()
    ensures |MilestoneThresholds| > 0
    ensures StrictlyIncreasing(MilestoneThresholds)
  {
  }

  /**
   * The first element of `ts`, in scan order, that the move from `oldTotal`
   * to `newTotal` crosses.
   */
  function FirstCrossed(ts: seq<real>, oldTotal: real, newTotal: real): (r: Option<real>)
    ensures r.Some? ==> r.value in ts && Crosses(oldTotal, newTotal, r.value)
    ensures r.None? <==> forall i :: 0 <= i < |ts| ==> !Crosses(oldTotal, newTotal, ts[i])
    ensures r.Some? ==> exists k :: 0 <= k < |ts| && ts[k] == r.value &&
                          forall j :: 0 <= j < k ==> !Crosses(oldTotal, newTotal, ts[j])
  {
    if ts == [] then None
    else if Crosses(oldTotal, newTotal, ts[0]) then Some(ts[0])
    else FirstCrossed(ts[1..], oldTotal, newTotal)
  }

  /** In an ascending sequence the first crossed element is the least crossed one. */
  lemma FirstCrossedIsLeast(ts: seq<real>, oldTotal: real, newTotal: real)
    requires StrictlyIncreasing(ts)
    ensures FirstCrossed(ts, oldTotal, newTotal).Some? ==>
              forall i :: 0 <= i < |ts| && Crosses(oldTotal, newTotal, ts[i]) ==>
                FirstCrossed(ts, oldTotal, newTotal).value <= ts[i]
  {
  }

  /**
   * The milestone reported when cumulative earnings move from `oldTotal` to
   * `newTotal`: the smallest threshold in the half-open window
   * (`oldTotal`, `newTotal`], or `None` when the window holds none.
   */
  function CheckMilestoneCrossed(oldTotal: real, newTotal: real): (r: Option<real>)
    ensures r.Some? ==> r.value in MilestoneThresholds && oldTotal < r.value <= newTotal
    ensures r.Some? ==> forall t :: t in MilestoneThresholds && oldTotal < t <= newTotal ==> r.value <= t
    ensures r.None? <==> forall t :: t in MilestoneThresholds ==> !(oldTotal < t <= newTotal)
  {
    ThresholdsAscending();
    FirstCrossedIsLeast(MilestoneThresholds, oldTotal, newTotal);
    FirstCrossed(MilestoneThresholds, oldTotal, newTotal)
  }

  /** Totals that do not increase never cross a milestone. */
  lemma NoMilestoneWithoutIncrease(oldTotal: real, newTotal: real)
    requires newTotal <= oldTotal
    ensures CheckMilestoneCrossed(oldTotal, newTotal) == None
  {
  }

  /** The lowest crossed milestone wins, even when an update skips several. */
  lemma MilestoneExamples()
    ensures CheckMilestoneCrossed(0.005, 0.02) == Some(0.01)
    ensures CheckMilestoneCrossed(0.5, 50.0) == Some(1.0)
    ensures CheckMilestoneCrossed(0.005, 1000.0) == Some(0.01)
    ensures CheckMilestoneCrossed(100.0, 100.0) == None
    ensures CheckMilestoneCrossed(99.0, 100.0) == Some(100.0)
  {
  }

  /**
   * The detector is stateless: splitting one update at `midTotal` into two
   * reports the milestone of the first half if it has one, and otherwise
   * that of the second half, which is what the single update reports.
   */
  lemma SplitUpdate(oldTotal: real, midTotal: real, newTotal: real)
    requires oldTotal <= midTotal <= newTotal
    ensures CheckMilestoneCrossed(oldTotal, newTotal) ==
              if CheckMilestoneCrossed(oldTotal, midTotal).Some?
              then CheckMilestoneCrossed(oldTotal, midTotal)
              else CheckMilestoneCrossed(midTotal, newTotal)
  {
  }

  /**
   * The amount the milestone notification displays: the larger of the
   * milestone and the total earned (Rust's `f64::max`).
   */
  function MilestoneAmountShown(totalEarned: real, milestone: real): (r: real)
    ensures r >= totalEarned && r >= milestone
    ensures r == totalEarned || r == milestone
  {
    if milestone >= totalEarned then milestone else totalEarned
  }

  /** After a crossing is reported, the displayed amount is the new total itself. */
  lemma MilestoneShownIsNewTotal(oldTotal: real, newTotal: real)
    requires CheckMilestoneCrossed(oldTotal, newTotal).Some?
    ensures MilestoneAmountShown(newTotal, CheckMilestoneCrossed(oldTotal, newTotal).value) == newTotal
  {
  }
}
