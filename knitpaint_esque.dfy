/**
 * The knitpaint-style schedule: the positive-offset stitches go to the back
 * and drop racking by racking from 1 up to maxRacking; then the
 * negative-offset stitches go to the back and drop from -1 down to
 * minRacking.  Zero-offset stitches stay where they are.
 */
module KnitpaintEsque {
  import opened Knit
  import opened SchoolBus

  /** Whether stitch i belongs to the positive (or the negative) side. */
  predicate OnSide(offsets: seq<int>, i: int, positive: bool)
    requires 0 <= i < |offsets|
  {
    if positive then offsets[i] > 0 else offsets[i] < 0
  }

  /** f i -> b i for the stitches i < k on one side, in ascending i. */
  function LiftsWhere(offsets: seq<int>, positive: bool, k: nat): seq<Op>
    requires k <= |offsets|
  {
    if k == 0 then []
    else LiftsWhere(offsets, positive, k - 1) + (if OnSide(offsets, k - 1, positive) then [Xfer(F, k - 1, B, k - 1)] else [])
  }

  /** A transfer lifting a stitch of the given side from f i to b i. */
  predicate IsLift(offsets: seq<int>, op: Op, positive: bool)
  {
    op.fromBed == F && op.toBed == B && op.toNeedle == op.fromNeedle && 0 <= op.fromNeedle < |offsets|
    && OnSide(offsets, op.fromNeedle, positive)
  }

  /** The lifts of one side are all lifts of that side, in ascending needle order. */
  lemma {:induction false} LiftsWhereOrder(offsets: seq<int>, positive: bool, k: nat)
    requires k <= |offsets|
    ensures forall j :: 0 <= j < |LiftsWhere(offsets, positive, k)| ==>
      IsLift(offsets, LiftsWhere(offsets, positive, k)[j], positive) && LiftsWhere(offsets, positive, k)[j].fromNeedle < k
    ensures forall j, j' :: 0 <= j < j' < |LiftsWhere(offsets, positive, k)| ==>
      LiftsWhere(offsets, positive, k)[j].fromNeedle < LiftsWhere(offsets, positive, k)[j'].fromNeedle
  {
    if k > 0 {
      LiftsWhereOrder(offsets, positive, k - 1);
      var d := LiftsWhere(offsets, positive, k - 1);
      if OnSide(offsets, k - 1, positive) {
        var c := d + [Xfer(F, k - 1, B, k - 1)];
        assert LiftsWhere(offsets, positive, k) == c;
        forall j | 0 <= j < |c| ensures IsLift(offsets, c[j], positive) && c[j].fromNeedle < k {
          if j < |d| { assert c[j] == d[j]; }
        }
        forall j, j' | 0 <= j < j' < |c| ensures c[j].fromNeedle < c[j'].fromNeedle {
          assert c[j] == d[j];
          if j' < |d| { assert c[j'] == d[j']; }
        }
      } else {
        assert LiftsWhere(offsets, positive, k) == d;
      }
    }
  }

  /** Each stitch of the side below k is lifted once, and no other stitch. */
  lemma LiftsWhereCount(offsets: seq<int>, positive: bool, k: nat)
    requires k <= |offsets|
    ensures forall i :: 0 <= i < |offsets| ==>
      LiftCount(LiftsWhere(offsets, positive, k), i) == if i < k && OnSide(offsets, i, positive) then 1 else 0
  {
    forall i | 0 <= i < |offsets|
      ensures LiftCount(LiftsWhere(offsets, positive, k), i) == if i < k && OnSide(offsets, i, positive) then 1 else 0
    {
      LiftsWhereCountAt(offsets, positive, k, i);
    }
  }

  lemma {:induction false} LiftsWhereCountAt(offsets: seq<int>, positive: bool, k: nat, i: nat)
    requires k <= |offsets| && i < |offsets|
    ensures LiftCount(LiftsWhere(offsets, positive, k), i) == if i < k && OnSide(offsets, i, positive) then 1 else 0
  {
    if k > 0 {
      LiftsWhereCountAt(offsets, positive, k - 1, i);
      var on := OnSide(offsets, k - 1, positive);
      var before, after := LiftsWhere(offsets, positive, k - 1), LiftsWhere(offsets, positive, k);
      LiftStep(before, after, on, k - 1, i);
      if i == k - 1 {
        assert LiftCount(after, i) == if on then 1 else 0;
      } else {
        assert LiftCount(after, i) == LiftCount(before, i);
      }
    }
  }

  lemma LiftStep(before: seq<Op>, after: seq<Op>, on: bool, n: nat, i: nat)
    requires after == before + if on then [Xfer(F, n, B, n)] else []
    ensures LiftCount(after, i) == LiftCount(before, i) + if on && i == n then 1 else 0
  {
    if on {
      assert multiset(after) == multiset(before) + multiset{Xfer(F, n, B, n)};
    }
  }

  /** The schedule knitpaint_esque emits, in its four phases. */
  function KnitpaintPlan(offsets: seq<int>, minRacking: int, maxRacking: int): seq<Op>
  {
    LiftsWhere(offsets, true, |offsets|) + SweepUp(offsets, 1, maxRacking)
    + LiftsWhere(offsets, false, |offsets|) + SweepDown(offsets, minRacking, -1)
  }

  /** How often stitch i is lifted f i -> b i. */
  function LiftCount(ops: seq<Op>, i: int): nat
  {
    multiset(ops)[Xfer(F, i, B, i)]
  }

  /**
   * The knitpaint-style schedule falls into four phases: positive lifts in
   * ascending needle order, an upward sweep over [1, maxRacking], negative
   * lifts, and a downward sweep over [minRacking, -1].
   */
  lemma KnitpaintPhases(offsets: seq<int>, minRacking: int, maxRacking: int)
    ensures var plan := KnitpaintPlan(offsets, minRacking, maxRacking);
      var p1 := |LiftsWhere(offsets, true, |offsets|)|;
      var h := p1 + |SweepUp(offsets, 1, maxRacking)|;
      var p2 := h + |LiftsWhere(offsets, false, |offsets|)|;
      p1 <= h <= p2 <= |plan|
      && (forall j :: 0 <= j < p1 ==> IsLift(offsets, plan[j], true))
      && Sweep(offsets, plan[p1..h], true) && DropsWithin(offsets, plan[p1..h], 1, maxRacking)
      && (forall j :: h <= j < p2 ==> IsLift(offsets, plan[j], false))
      && Sweep(offsets, plan[p2..], false) && DropsWithin(offsets, plan[p2..], minRacking, -1)
  {
    var a, b, c, d := LiftsWhere(offsets, true, |offsets|), SweepUp(offsets, 1, maxRacking),
                      LiftsWhere(offsets, false, |offsets|), SweepDown(offsets, minRacking, -1);
    var plan := KnitpaintPlan(offsets, minRacking, maxRacking);
    assert plan == a + b + c + d;
    LiftsWhereOrder(offsets, true, |offsets|);
    LiftsWhereOrder(offsets, false, |offsets|);
    SweepUpOrder(offsets, 1, maxRacking);
    SweepDownOrder(offsets, minRacking, -1);
    FourParts(plan, a, b, c, d);
  }

  /** Where the four parts of a concatenation sit in it. */
  lemma FourParts(plan: seq<Op>, a: seq<Op>, b: seq<Op>, c: seq<Op>, d: seq<Op>)
    requires plan == a + b + c + d
    ensures plan[|a|..|a| + |b|] == b && plan[|a| + |b| + |c|..] == d
    ensures forall j :: 0 <= j < |a| ==> plan[j] == a[j]
    ensures forall j :: |a| + |b| <= j < |a| + |b| + |c| ==> plan[j] == c[j - |a| - |b|]
  {
    assert plan[|a|..|a| + |b|] == b;
    assert plan[|a| + |b| + |c|..] == d;
  }

  lemma NoLiftsAmongDrops(offsets: seq<int>, ops: seq<Op>, lo: int, hi: int, i: int)
    requires DropsWithin(offsets, ops, lo, hi)
    ensures LiftCount(ops, i) == 0
  {
    assert Xfer(F, i, B, i) !in ops;
  }

  lemma NoDropsAmongLifts(offsets: seq<int>, positive: bool, i: int)
    requires 0 <= i < |offsets|
    ensures Returns(offsets, LiftsWhere(offsets, positive, |offsets|), i) == 0
  {
    LiftsWhereOrder(offsets, positive, |offsets|);
    assert Xfer(B, i, F, i + offsets[i]) !in LiftsWhere(offsets, positive, |offsets|);
  }

  /** Every nonzero stitch is lifted once, and a zero-offset stitch never. */
  lemma KnitpaintLifts(offsets: seq<int>, minRacking: int, maxRacking: int)
    ensures var plan := KnitpaintPlan(offsets, minRacking, maxRacking);
      forall i :: 0 <= i < |offsets| ==> LiftCount(plan, i) == if offsets[i] != 0 then 1 else 0
  {
    var a, b, c, d := LiftsWhere(offsets, true, |offsets|), SweepUp(offsets, 1, maxRacking),
                      LiftsWhere(offsets, false, |offsets|), SweepDown(offsets, minRacking, -1);
    var plan := KnitpaintPlan(offsets, minRacking, maxRacking);
    assert multiset(plan) == multiset(a) + multiset(b) + multiset(c) + multiset(d);
    LiftsWhereCount(offsets, true, |offsets|);
    LiftsWhereCount(offsets, false, |offsets|);
    SweepUpOrder(offsets, 1, maxRacking);
    SweepDownOrder(offsets, minRacking, -1);
    forall i | 0 <= i < |offsets| ensures LiftCount(plan, i) == if offsets[i] != 0 then 1 else 0 {
      NoLiftsAmongDrops(offsets, b, 1, maxRacking, i);
      NoLiftsAmongDrops(offsets, d, minRacking, -1, i);
      assert LiftCount(plan, i) == LiftCount(a, i) + LiftCount(b, i) + LiftCount(c, i) + LiftCount(d, i);
    }
  }

  /** A nonzero stitch whose offset is in range is returned once to its target; no other stitch is. */
  lemma KnitpaintReturns(offsets: seq<int>, minRacking: int, maxRacking: int)
    ensures var plan := KnitpaintPlan(offsets, minRacking, maxRacking);
      forall i :: 0 <= i < |offsets| ==>
        Returns(offsets, plan, i) == if 0 < offsets[i] <= maxRacking || minRacking <= offsets[i] < 0 then 1 else 0
  {
    var a, b, c, d := LiftsWhere(offsets, true, |offsets|), SweepUp(offsets, 1, maxRacking),
                      LiftsWhere(offsets, false, |offsets|), SweepDown(offsets, minRacking, -1);
    var plan := KnitpaintPlan(offsets, minRacking, maxRacking);
    assert multiset(plan) == multiset(a) + multiset(b) + multiset(c) + multiset(d);
    SweepUpReturns(offsets, 1, maxRacking);
    SweepDownReturns(offsets, minRacking, -1);
    forall i | 0 <= i < |offsets|
      ensures Returns(offsets, plan, i) == if 0 < offsets[i] <= maxRacking || minRacking <= offsets[i] < 0 then 1 else 0
    {
      NoDropsAmongLifts(offsets, true, i);
      NoDropsAmongLifts(offsets, false, i);
      assert Returns(offsets, plan, i) == Returns(offsets, a, i) + Returns(offsets, b, i) + Returns(offsets, c, i) + Returns(offsets, d, i);
    }
  }

  /** No transfer of the knitpaint-style schedule touches a zero-offset stitch. */
  lemma KnitpaintSkipsZeros(offsets: seq<int>, minRacking: int, maxRacking: int)
    ensures var plan := KnitpaintPlan(offsets, minRacking, maxRacking);
      forall j :: 0 <= j < |plan| ==> 0 <= plan[j].fromNeedle < |offsets| && offsets[plan[j].fromNeedle] != 0
  {
    var plan := KnitpaintPlan(offsets, minRacking, maxRacking);
    KnitpaintPhases(offsets, minRacking, maxRacking);
    var p1 := |LiftsWhere(offsets, true, |offsets|)|;
    var h := p1 + |SweepUp(offsets, 1, maxRacking)|;
    var p2 := h + |LiftsWhere(offsets, false, |offsets|)|;
    forall j | 0 <= j < |plan| ensures 0 <= plan[j].fromNeedle < |offsets| && offsets[plan[j].fromNeedle] != 0 {
      if p1 <= j < h {
        assert plan[j] == plan[p1..h][j - p1];
      } else if p2 <= j {
        assert plan[j] == plan[p2..][j - p2];
      }
    }
  }

  /** Lifts of one side, appended stitch by stitch. */
  method LiftSide(offsets: seq<int>, positive: bool, plan: seq<Op>) returns (r: seq<Op>)
    ensures r == plan + LiftsWhere(offsets, positive, |offsets|)
  {
    r := plan;
    for i := 0 to |offsets|
      invariant r == plan + LiftsWhere(offsets, positive, i)
    {
      if (positive && offsets[i] > 0) || (!positive && offsets[i] < 0) {
        r := r + [Xfer(F, i, B, i)];
      }
    }
  }

  /** knitpaint_esque: the positive side up from racking 1, then the negative side down from racking -1. */
  method Knitpaint(offsets: seq<int>, minRacking: int, maxRacking: int) returns (plan: seq<Op>)
    ensures plan == KnitpaintPlan(offsets, minRacking, maxRacking)
  {
    plan := LiftSide(offsets, true, []);
    var currentOffset := 1;
    while currentOffset <= maxRacking
      invariant 1 <= currentOffset <= Max(1, maxRacking + 1)
      invariant plan == LiftsWhere(offsets, true, |offsets|) + SweepUp(offsets, 1, currentOffset - 1)
      decreases maxRacking + 1 - currentOffset
    {
      plan := SweepOffset(offsets, currentOffset, plan);
      currentOffset := currentOffset + 1;
    }
    plan := LiftSide(offsets, false, plan);
    ghost var base := plan;
    currentOffset := -1;
    while currentOffset >= minRacking
      invariant Min(minRacking - 1, -1) <= currentOffset <= -1
      invariant plan == base + SweepDown(offsets, currentOffset + 1, -1)
      decreases currentOffset - minRacking + 1
    {
      plan := SweepOffset(offsets, currentOffset, plan);
      currentOffset := currentOffset - 1;
    }
  }
}
