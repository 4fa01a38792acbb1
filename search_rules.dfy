/**
 * search_rules: what both search planners (cse_transfers and the
 * exhaustive search) share: the yarn-stretch rule they check on a
 * configuration of stitches spread over the front and back beds, how it
 * relates to the racking window the test driver enforces, and the penalty
 * they minimise.
 */
module SearchRules {
  import opened Knit
  import TestDriver

  /** The beds a search planner puts stitches on: the two main beds. */
  predicate MainBeds(beds: seq<Bed>)
  {
    forall i :: 0 <= i < |beds| ==> beds[i] == F || beds[i] == B
  }

  /**
   * The yarn between stitches i-1 and i at racking rack: on one bed the
   * two needles are at most the slack apart; across the beds the back
   * needle, shifted by the racking, is at most the slack from the front one.
   */
  predicate PairHolds(offsets: seq<int>, beds: seq<Bed>, currents: seq<int>, rack: int, i: int)
    requires |beds| == |offsets| && |currents| == |offsets| && 1 <= i < |offsets|
  {
    var slack := Slack(offsets, i);
    if beds[i] == beds[i - 1] then Abs(currents[i - 1] - currents[i]) <= slack
    else
      var back := if beds[i] == B then currents[i] else currents[i - 1];
      var front := if beds[i] == B then currents[i - 1] else currents[i];
      Abs(back + rack - front) <= slack
  }

  /** state_respects_slack: every neighbouring pair holds. */
  predicate SlackRespected(offsets: seq<int>, beds: seq<Bed>, currents: seq<int>, rack: int)
    requires |beds| == |offsets| && |currents| == |offsets|
  {
    forall i :: 1 <= i < |offsets| ==> PairHolds(offsets, beds, currents, rack, i)
  }

  /** The needle each stitch of a configuration sits on. */
  function Places(beds: seq<Bed>, currents: seq<int>): (at: seq<Loc>)
    requires |beds| == |currents|
    ensures |at| == |beds| && forall i :: 0 <= i < |beds| ==> at[i] == Loc(beds[i], currents[i])
  {
    seq(|beds|, i requires 0 <= i < |beds| => Loc(beds[i], currents[i]))
  }

  /** Neighbours on the same bed are at most the slack apart. */
  predicate SameBedClose(offsets: seq<int>, beds: seq<Bed>, currents: seq<int>)
    requires |beds| == |offsets| && |currents| == |offsets|
  {
    forall i :: 1 <= i < |offsets| && beds[i] == beds[i - 1] ==> Abs(currents[i - 1] - currents[i]) <= Slack(offsets, i)
  }

  /**
   * On the two main beds, a configuration respects the slack at a racking
   * exactly when the test driver's racking window admits that racking and
   * same-bed neighbours are close enough.
   */
  lemma SlackIsDriverWindow(offsets: seq<int>, beds: seq<Bed>, currents: seq<int>, rack: int)
    requires |beds| == |offsets| && |currents| == |offsets| && MainBeds(beds)
    ensures SlackRespected(offsets, beds, currents, rack) <==>
      TestDriver.RackingLegal(offsets, Places(beds, currents), rack) && SameBedClose(offsets, beds, currents)
  {
    var at := Places(beds, currents);
    forall i | 1 <= i < |offsets|
      ensures PairHolds(offsets, beds, currents, rack, i) <==>
        TestDriver.PairAllows(offsets, at, i, rack)
        && (beds[i] == beds[i - 1] ==> Abs(currents[i - 1] - currents[i]) <= Slack(offsets, i))
    {
      assert at[i] == Loc(beds[i], currents[i]) && at[i - 1] == Loc(beds[i - 1], currents[i - 1]);
    }
  }

  /** penalty: the total distance the stitches still have to travel. */
  method Penalty(offsets: seq<int>) returns (p: nat)
    ensures p == SumAbs(offsets)
  {
    p := 0;
    for i := 0 to |offsets|
      invariant p == SumAbs(offsets[..i])
    {
      SumAbsAppend(offsets[..i], [offsets[i]]);
      assert offsets[..i + 1] == offsets[..i] + [offsets[i]];
      p := p + Abs(offsets[i]);
    }
    assert offsets[..|offsets|] == offsets;
  }
}
