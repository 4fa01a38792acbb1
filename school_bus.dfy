/**
 * The basic school-bus schedule: every stitch goes to the back bed, then
 * for each racking from the smallest to the largest the stitches needing
 * that racking drop to their targets.  The drop sweeps are shared with the
 * knitpaint-style schedule.
 */
module SchoolBus {
  import opened Knit

  /** Transfer f i -> b i for every stitch i < k, in ascending i. */
  function Lifts(k: nat): (ops: seq<Op>)
    ensures |ops| == k && forall j :: 0 <= j < k ==> ops[j] == Xfer(F, j, B, j)
  {
    seq(k, j => Xfer(F, j, B, j))
  }

  /** The drops b i -> f i+o of the stitches i < k whose offset is o, in ascending i. */
  function DropsAt(offsets: seq<int>, o: int, k: nat): seq<Op>
    requires k <= |offsets|
  {
    if k == 0 then []
    else DropsAt(offsets, o, k - 1) + (if offsets[k - 1] == o then [Xfer(B, k - 1, F, k - 1 + o)] else [])
  }

  /** The number of stitches i < k whose offset lies in [lo, hi]. */
  function InRange(offsets: seq<int>, lo: int, hi: int, k: nat): nat
    requires k <= |offsets|
  {
    if k == 0 then 0 else InRange(offsets, lo, hi, k - 1) + (if lo <= offsets[k - 1] <= hi then 1 else 0)
  }

  /** A transfer returning stitch i from b i to its target f i+offsets[i]. */
  predicate IsDrop(offsets: seq<int>, op: Op)
  {
    op.fromBed == B && op.toBed == F && 0 <= op.fromNeedle < |offsets|
    && op.toNeedle == op.fromNeedle + offsets[op.fromNeedle]
  }

  /**
   * Drop a comes before drop b in a sweep: its offset is earlier in the
   * sweep direction (ascending when up, descending otherwise), or it is the
   * same offset and a's stitch is further left.
   */
  predicate InOrder(offsets: seq<int>, a: Op, b: Op, up: bool)
  {
    IsDrop(offsets, a) && IsDrop(offsets, b)
    && var oa, ob := offsets[a.fromNeedle], offsets[b.fromNeedle];
       (if up then oa < ob else oa > ob) || (oa == ob && a.fromNeedle < b.fromNeedle)
  }

  /** A sequence of drops in sweep order. */
  predicate Sweep(offsets: seq<int>, ops: seq<Op>, up: bool)
  {
    (forall j :: 0 <= j < |ops| ==> IsDrop(offsets, ops[j]))
    && forall j, j' :: 0 <= j < j' < |ops| ==> InOrder(offsets, ops[j], ops[j'], up)
  }

  /** Every op of ops is a drop whose offset lies in [lo, hi]. */
  predicate DropsWithin(offsets: seq<int>, ops: seq<Op>, lo: int, hi: int)
  {
    forall j :: 0 <= j < |ops| ==> IsDrop(offsets, ops[j]) && lo <= offsets[ops[j].fromNeedle] <= hi
  }

  /** How many times ops returns stitch i to its target. */
  function Returns(offsets: seq<int>, ops: seq<Op>, i: int): nat
    requires 0 <= i < |offsets|
  {
    multiset(ops)[Xfer(B, i, F, i + offsets[i])]
  }

  lemma {:induction false} DropsAtWithin(offsets: seq<int>, o: int, k: nat)
    requires k <= |offsets|
    ensures DropsWithin(offsets, DropsAt(offsets, o, k), o, o)
    ensures forall j :: 0 <= j < |DropsAt(offsets, o, k)| ==> DropsAt(offsets, o, k)[j].fromNeedle < k
  {
    if k > 0 {
      DropsAtWithin(offsets, o, k - 1);
      var d, c := DropsAt(offsets, o, k - 1), DropsAt(offsets, o, k);
      if offsets[k - 1] == o {
        assert c == d + [Xfer(B, k - 1, F, k - 1 + o)];
        forall j | 0 <= j < |c|
          ensures IsDrop(offsets, c[j]) && o <= offsets[c[j].fromNeedle] <= o && c[j].fromNeedle < k
        {
          if j < |d| { assert c[j] == d[j]; }
        }
      } else {
        assert c == d;
      }
    }
  }

  lemma {:induction false} DropsAtSweep(offsets: seq<int>, o: int, k: nat, up: bool)
    requires k <= |offsets|
    ensures Sweep(offsets, DropsAt(offsets, o, k), up)
  {
    if k > 0 {
      DropsAtSweep(offsets, o, k - 1, up);
      DropsAtWithin(offsets, o, k - 1);
      var d, c := DropsAt(offsets, o, k - 1), DropsAt(offsets, o, k);
      if offsets[k - 1] == o {
        assert c == d + [Xfer(B, k - 1, F, k - 1 + o)];
        forall j, j' | 0 <= j < j' < |c| ensures InOrder(offsets, c[j], c[j'], up) {
          if j' < |d| {
            assert c[j] == d[j] && c[j'] == d[j'];
          } else {
            assert c[j] == d[j];
          }
        }
      } else {
        assert c == d;
      }
    }
  }

  lemma DropsAtReturns(offsets: seq<int>, o: int, k: nat)
    requires k <= |offsets|
    ensures forall i :: 0 <= i < |offsets| ==>
      Returns(offsets, DropsAt(offsets, o, k), i) == if i < k && offsets[i] == o then 1 else 0
  {
    forall i | 0 <= i < |offsets|
      ensures Returns(offsets, DropsAt(offsets, o, k), i) == if i < k && offsets[i] == o then 1 else 0
    {
      DropsAtReturnsAt(offsets, o, k, i);
    }
  }

  lemma {:induction false} DropsAtReturnsAt(offsets: seq<int>, o: int, k: nat, i: nat)
    requires k <= |offsets| && i < |offsets|
    ensures Returns(offsets, DropsAt(offsets, o, k), i) == if i < k && offsets[i] == o then 1 else 0
  {
    if k > 0 {
      DropsAtReturnsAt(offsets, o, k - 1, i);
      var on := offsets[k - 1] == o;
      var before, after := DropsAt(offsets, o, k - 1), DropsAt(offsets, o, k);
      DropStep(offsets, before, after, on, k - 1, o, i);
      if i == k - 1 {
        assert Returns(offsets, after, i) == if on then 1 else 0;
      } else {
        assert Returns(offsets, after, i) == Returns(offsets, before, i);
      }
    }
  }

  /** One more drop of stitch n at offset o counts once more for n only, and only when o is n's offset. */
  lemma DropStep(offsets: seq<int>, before: seq<Op>, after: seq<Op>, on: bool, n: nat, o: int, i: nat)
    requires n < |offsets| && i < |offsets| && (on ==> offsets[n] == o)
    requires after == before + if on then [Xfer(B, n, F, n + o)] else []
    ensures Returns(offsets, after, i) == Returns(offsets, before, i) + if on && i == n then 1 else 0
  {
    if on {
      assert multiset(after) == multiset(before) + multiset{Xfer(B, n, F, n + o)};
    }
  }

  lemma {:induction false} DropsAtLength(offsets: seq<int>, o: int, k: nat)
    requires k <= |offsets|
    ensures |DropsAt(offsets, o, k)| == InRange(offsets, o, o, k)
  {
    if k > 0 {
      DropsAtLength(offsets, o, k - 1);
    }
  }

  lemma DropsAtFacts(offsets: seq<int>, o: int, k: nat)
    requires k <= |offsets|
    ensures Sweep(offsets, DropsAt(offsets, o, k), true) && Sweep(offsets, DropsAt(offsets, o, k), false)
    ensures DropsWithin(offsets, DropsAt(offsets, o, k), o, o)
    ensures forall i :: 0 <= i < |offsets| ==>
      Returns(offsets, DropsAt(offsets, o, k), i) == if i < k && offsets[i] == o then 1 else 0
    ensures |DropsAt(offsets, o, k)| == InRange(offsets, o, o, k)
  {
    DropsAtWithin(offsets, o, k);
    DropsAtSweep(offsets, o, k, true);
    DropsAtSweep(offsets, o, k, false);
    DropsAtReturns(offsets, o, k);
    DropsAtLength(offsets, o, k);
  }

  lemma ReturnsAppend(offsets: seq<int>, a: seq<Op>, b: seq<Op>, i: int)
    requires 0 <= i < |offsets|
    ensures Returns(offsets, a + b, i) == Returns(offsets, a, i) + Returns(offsets, b, i)
  {
    assert multiset(a + b) == multiset(a) + multiset(b);
  }

  /** Two sweeps in the same direction, the second's offsets all later, make one sweep. */
  lemma SweepAppend(offsets: seq<int>, a: seq<Op>, b: seq<Op>, up: bool, lo: int, mid: int, hi: int)
    requires Sweep(offsets, a, up) && Sweep(offsets, b, up)
    requires if up then DropsWithin(offsets, a, lo, mid - 1) && DropsWithin(offsets, b, mid, hi)
             else DropsWithin(offsets, a, mid + 1, hi) && DropsWithin(offsets, b, lo, mid)
    ensures Sweep(offsets, a + b, up)
  {
    var c := a + b;
    forall j, j' | 0 <= j < j' < |c| ensures InOrder(offsets, c[j], c[j'], up) {
      if j' < |a| {
        assert c[j] == a[j] && c[j'] == a[j'];
      } else if j >= |a| {
        assert c[j] == b[j - |a|] && c[j'] == b[j' - |a|];
      } else {
        assert c[j] == a[j] && c[j'] == b[j' - |a|];
      }
    }
  }

  lemma {:induction false} InRangeSplit(offsets: seq<int>, lo: int, mid: int, hi: int, k: nat)
    requires k <= |offsets| && lo <= mid <= hi
    ensures InRange(offsets, lo, hi, k) == InRange(offsets, lo, mid - 1, k) + InRange(offsets, mid, mid, k) + InRange(offsets, mid + 1, hi, k)
  {
    if k > 0 {
      InRangeSplit(offsets, lo, mid, hi, k - 1);
    }
  }

  /** The drops for each offset from lo up to hi in turn. */
  function SweepUp(offsets: seq<int>, lo: int, hi: int): seq<Op>
    decreases hi - lo + 1
  {
    if hi < lo then [] else SweepUp(offsets, lo, hi - 1) + DropsAt(offsets, hi, |offsets|)
  }

  /** The drops for each offset from hi down to lo in turn. */
  function SweepDown(offsets: seq<int>, lo: int, hi: int): seq<Op>
    decreases hi - lo + 1
  {
    if hi < lo then [] else SweepDown(offsets, lo + 1, hi) + DropsAt(offsets, lo, |offsets|)
  }

  lemma {:induction false} SweepUpOrder(offsets: seq<int>, lo: int, hi: int)
    ensures Sweep(offsets, SweepUp(offsets, lo, hi), true)
    ensures DropsWithin(offsets, SweepUp(offsets, lo, hi), lo, hi)
    decreases hi - lo + 1
  {
    if hi >= lo {
      SweepUpOrder(offsets, lo, hi - 1);
      DropsAtFacts(offsets, hi, |offsets|);
      SweepAppend(offsets, SweepUp(offsets, lo, hi - 1), DropsAt(offsets, hi, |offsets|), true, lo, hi, hi);
    }
  }

  lemma {:induction false} SweepUpReturns(offsets: seq<int>, lo: int, hi: int)
    ensures forall i :: 0 <= i < |offsets| ==>
      Returns(offsets, SweepUp(offsets, lo, hi), i) == if lo <= offsets[i] <= hi then 1 else 0
    decreases hi - lo + 1
  {
    if hi >= lo {
      SweepUpReturns(offsets, lo, hi - 1);
      DropsAtReturns(offsets, hi, |offsets|);
      var a, b := SweepUp(offsets, lo, hi - 1), DropsAt(offsets, hi, |offsets|);
      assert SweepUp(offsets, lo, hi) == a + b;
      forall i | 0 <= i < |offsets|
        ensures Returns(offsets, a + b, i) == if lo <= offsets[i] <= hi then 1 else 0
      {
        ReturnsAppend(offsets, a, b, i);
      }
    }
  }

  lemma {:induction false} SweepUpLength(offsets: seq<int>, lo: int, hi: int)
    ensures |SweepUp(offsets, lo, hi)| == InRange(offsets, lo, hi, |offsets|)
    decreases hi - lo + 1
  {
    if hi < lo {
      InRangeEmpty(offsets, lo, hi, |offsets|);
    } else {
      SweepUpLength(offsets, lo, hi - 1);
      DropsAtLength(offsets, hi, |offsets|);
      InRangeSplit(offsets, lo, hi, hi, |offsets|);
      InRangeEmpty(offsets, hi + 1, hi, |offsets|);
    }
  }

  /**
   * An ascending sweep over [lo, hi] returns exactly the stitches whose
   * offset lies in the range, each once, in ascending offset and then
   * ascending needle.
   */
  lemma SweepUpFacts(offsets: seq<int>, lo: int, hi: int)
    ensures Sweep(offsets, SweepUp(offsets, lo, hi), true)
    ensures DropsWithin(offsets, SweepUp(offsets, lo, hi), lo, hi)
    ensures forall i :: 0 <= i < |offsets| ==>
      Returns(offsets, SweepUp(offsets, lo, hi), i) == if lo <= offsets[i] <= hi then 1 else 0
    ensures |SweepUp(offsets, lo, hi)| == InRange(offsets, lo, hi, |offsets|)
  {
    SweepUpOrder(offsets, lo, hi);
    SweepUpReturns(offsets, lo, hi);
    SweepUpLength(offsets, lo, hi);
  }

  lemma {:induction false} SweepDownOrder(offsets: seq<int>, lo: int, hi: int)
    ensures Sweep(offsets, SweepDown(offsets, lo, hi), false)
    ensures DropsWithin(offsets, SweepDown(offsets, lo, hi), lo, hi)
    decreases hi - lo + 1
  {
    if hi >= lo {
      SweepDownOrder(offsets, lo + 1, hi);
      DropsAtFacts(offsets, lo, |offsets|);
      SweepAppend(offsets, SweepDown(offsets, lo + 1, hi), DropsAt(offsets, lo, |offsets|), false, lo, lo, hi);
    }
  }

  lemma {:induction false} SweepDownReturns(offsets: seq<int>, lo: int, hi: int)
    ensures forall i :: 0 <= i < |offsets| ==>
      Returns(offsets, SweepDown(offsets, lo, hi), i) == if lo <= offsets[i] <= hi then 1 else 0
    decreases hi - lo + 1
  {
    if hi >= lo {
      SweepDownReturns(offsets, lo + 1, hi);
      DropsAtReturns(offsets, lo, |offsets|);
      var a, b := SweepDown(offsets, lo + 1, hi), DropsAt(offsets, lo, |offsets|);
      assert SweepDown(offsets, lo, hi) == a + b;
      forall i | 0 <= i < |offsets|
        ensures Returns(offsets, a + b, i) == if lo <= offsets[i] <= hi then 1 else 0
      {
        ReturnsAppend(offsets, a, b, i);
      }
    }
  }

  lemma {:induction false} SweepDownLength(offsets: seq<int>, lo: int, hi: int)
    ensures |SweepDown(offsets, lo, hi)| == InRange(offsets, lo, hi, |offsets|)
    decreases hi - lo + 1
  {
    if hi < lo {
      InRangeEmpty(offsets, lo, hi, |offsets|);
    } else {
      SweepDownLength(offsets, lo + 1, hi);
      DropsAtLength(offsets, lo, |offsets|);
      InRangeSplit(offsets, lo, lo, hi, |offsets|);
      InRangeEmpty(offsets, lo, lo - 1, |offsets|);
    }
  }

  /** A descending sweep over [lo, hi]: the same stitches, in descending offset and then ascending needle. */
  lemma SweepDownFacts(offsets: seq<int>, lo: int, hi: int)
    ensures Sweep(offsets, SweepDown(offsets, lo, hi), false)
    ensures DropsWithin(offsets, SweepDown(offsets, lo, hi), lo, hi)
    ensures forall i :: 0 <= i < |offsets| ==>
      Returns(offsets, SweepDown(offsets, lo, hi), i) == if lo <= offsets[i] <= hi then 1 else 0
    ensures |SweepDown(offsets, lo, hi)| == InRange(offsets, lo, hi, |offsets|)
  {
    SweepDownOrder(offsets, lo, hi);
    SweepDownReturns(offsets, lo, hi);
    SweepDownLength(offsets, lo, hi);
  }

  lemma {:induction false} InRangeEmpty(offsets: seq<int>, lo: int, hi: int, k: nat)
    requires k <= |offsets| && hi < lo
    ensures InRange(offsets, lo, hi, k) == 0
  {
    if k > 0 {
      InRangeEmpty(offsets, lo, hi, k - 1);
    }
  }

  /** The schedule school_bus_basic emits. */
  function SchoolBusPlan(offsets: seq<int>, minRacking: int, maxRacking: int): seq<Op>
  {
    Lifts(|offsets|) + SweepUp(offsets, minRacking, maxRacking)
  }

  /**
   * What the school-bus schedule does: the first n transfers lift every
   * stitch f i -> b i in ascending order; the rest return each stitch whose
   * offset is in [minRacking, maxRacking] once to f i+offsets[i], sweeping
   * the rackings upwards; a stitch outside the range is never returned.
   */
  lemma SchoolBusFacts(offsets: seq<int>, minRacking: int, maxRacking: int)
    ensures var plan := SchoolBusPlan(offsets, minRacking, maxRacking);
      |plan| == |offsets| + InRange(offsets, minRacking, maxRacking, |offsets|)
      && (forall j :: 0 <= j < |offsets| ==> plan[j] == Xfer(F, j, B, j))
      && Sweep(offsets, plan[|offsets|..], true)
      && DropsWithin(offsets, plan[|offsets|..], minRacking, maxRacking)
      && forall i :: 0 <= i < |offsets| ==>
           Returns(offsets, plan, i) == if minRacking <= offsets[i] <= maxRacking then 1 else 0
  {
    var plan := SchoolBusPlan(offsets, minRacking, maxRacking);
    SweepUpFacts(offsets, minRacking, maxRacking);
    assert plan[|offsets|..] == SweepUp(offsets, minRacking, maxRacking);
    forall i | 0 <= i < |offsets|
      ensures Returns(offsets, plan, i) == if minRacking <= offsets[i] <= maxRacking then 1 else 0
    {
      assert Xfer(B, i, F, i + offsets[i]) !in multiset(Lifts(|offsets|));
    }
  }

  /** A zero-offset stitch makes the round trip f i -> b i -> f i exactly when 0 is in range. */
  lemma SchoolBusZeroRoundTrip(offsets: seq<int>, minRacking: int, maxRacking: int, i: int)
    requires 0 <= i < |offsets| && offsets[i] == 0
    ensures var plan := SchoolBusPlan(offsets, minRacking, maxRacking);
      plan[i] == Xfer(F, i, B, i)
      && ((exists j :: i < j < |plan| && plan[j] == Xfer(B, i, F, i)) <==> minRacking <= 0 <= maxRacking)
  {
    var plan := SchoolBusPlan(offsets, minRacking, maxRacking);
    SchoolBusFacts(offsets, minRacking, maxRacking);
    var back := Xfer(B, i, F, i);
    assert back == Xfer(B, i, F, i + offsets[i]);
    assert Returns(offsets, plan, i) == multiset(plan)[back];
    if minRacking <= 0 <= maxRacking {
      assert back in plan;
      var j :| 0 <= j < |plan| && plan[j] == back;
      assert j >= |offsets|;
    } else {
      assert back !in plan;
    }
  }

  /** Drops for offset o, appended stitch by stitch. */
  method SweepOffset(offsets: seq<int>, o: int, plan: seq<Op>) returns (r: seq<Op>)
    ensures r == plan + DropsAt(offsets, o, |offsets|)
  {
    r := plan;
    for i := 0 to |offsets|
      invariant r == plan + DropsAt(offsets, o, i)
    {
      if offsets[i] == o {
        r := r + [Xfer(B, i, F, i + o)];
      }
    }
  }

  /** school_bus_basic: lift all stitches, then sweep upwards from minRacking to maxRacking. */
  method SchoolBusBasic(offsets: seq<int>, minRacking: int, maxRacking: int) returns (plan: seq<Op>)
    ensures plan == SchoolBusPlan(offsets, minRacking, maxRacking)
  {
    plan := [];
    for i := 0 to |offsets|
      invariant plan == Lifts(i)
    {
      plan := plan + [Xfer(F, i, B, i)];
    }
    var currentOffset := minRacking;
    while currentOffset <= maxRacking
      invariant minRacking <= currentOffset <= Max(minRacking, maxRacking + 1)
      invariant plan == Lifts(|offsets|) + SweepUp(offsets, minRacking, currentOffset - 1)
      decreases maxRacking + 1 - currentOffset
    {
      plan := SweepOffset(offsets, currentOffset, plan);
      currentOffset := currentOffset + 1;
    }
  }
}
