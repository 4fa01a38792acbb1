/**
 * limit_offsets: divides cable-free offsets into a short part, within the
 * racking limit, and a long residual, both cable-free, minimising the total
 * long movement.
 */
module LimitOffsets {
  import opened Knit
  import opened LayeredDp

  /**
   * Between stitches i-1 and i: the short parts may not cross, may join one
   * needle only when the long part moves neither stitch, and the long parts
   * may not cross.
   */
  predicate LimitEdge(offsets: seq<int>, i: nat, prevShort: int, short: int)
  {
    1 <= i < |offsets|
    && var long, prevLong := offsets[i] - short, offsets[i - 1] - prevShort;
       prevShort <= 1 + short
       && (prevShort == 1 + short ==> prevLong == 0 && long == 0)
       && prevLong <= 1 + long
  }

  /** The remaining long movement of stitch i for a short offset. */
  function LongCost(offsets: seq<int>, i: nat, short: int): nat
  {
    if i < |offsets| then Abs(offsets[i] - short) else 0
  }

  /** The split as a layered problem over [-limit, limit], cost |long|. */
  function LimitProblem(offsets: seq<int>, limit: int): Problem
  {
    Problem(|offsets|, -limit, limit,
      short => LongCost(offsets, 0, short),
      (i: nat, short: int) => true,
      (i: nat, prevShort: int, short: int) => LimitEdge(offsets, i, prevShort, short),
      (i: nat, short: int) => LongCost(offsets, i, short))
  }

  /** A short part limit_offsets may return. */
  predicate ValidShort(offsets: seq<int>, limit: int, short: seq<int>)
  {
    |short| == |offsets|
    && (forall i :: 0 <= i < |short| ==> Abs(short[i]) <= limit)
    && (forall i :: 1 <= i < |short| ==> LimitEdge(offsets, i, short[i - 1], short[i]))
  }

  /** The long residual of a short part. */
  function LongOf(offsets: seq<int>, short: seq<int>): (long: seq<int>)
    requires |short| == |offsets|
    ensures |long| == |offsets| && forall i :: 0 <= i < |long| ==> short[i] + long[i] == offsets[i]
  {
    seq(|offsets|, i requires 0 <= i < |offsets| => offsets[i] - short[i])
  }

  /**
   * What a valid short part guarantees: the short and long parts are each
   * cable-free, and where the short part joins two stitches the long part
   * moves neither.
   */
  lemma ValidShortMeaning(offsets: seq<int>, limit: int, short: seq<int>)
    requires ValidShort(offsets, limit, short)
    ensures var long := LongOf(offsets, short);
      CableFree(short) && CableFree(long)
      && forall i :: 1 <= i < |short| && short[i - 1] == 1 + short[i] ==> long[i - 1] == 0 && long[i] == 0
  {
    var long := LongOf(offsets, short);
    forall i | 1 <= i < |short|
      ensures short[i - 1] <= 1 + short[i] && long[i - 1] <= 1 + long[i]
      ensures short[i - 1] == 1 + short[i] ==> long[i - 1] == 0 && long[i] == 0
    {
      assert LimitEdge(offsets, i, short[i - 1], short[i]);
    }
  }

  lemma LimitPaths(offsets: seq<int>, limit: int, short: seq<int>)
    requires |offsets| >= 1
    ensures IsPath(LimitProblem(offsets, limit), short) && |short| == |offsets| <==> ValidShort(offsets, limit, short)
  {
  }

  /** A path's cost is the total long movement. */
  lemma {:induction false} LimitPathCost(offsets: seq<int>, limit: int, short: seq<int>)
    requires 1 <= |short| <= |offsets|
    ensures PathCost(LimitProblem(offsets, limit), short) == SumAbs(LongOf(offsets[..|short|], short))
  {
    var n := |short|;
    if n == 1 {
      assert LongOf(offsets[..1], short) == [offsets[0] - short[0]];
    } else {
      var front := short[..n - 1];
      LimitPathCost(offsets, limit, front);
      assert offsets[..n][..n - 1] == offsets[..n - 1];
      assert LongOf(offsets[..n], short) == LongOf(offsets[..n - 1], front) + [offsets[n - 1] - short[n - 1]];
      SumAbsAppend(LongOf(offsets[..n - 1], front), [offsets[n - 1] - short[n - 1]]);
    }
  }

  /** A cable-free input always has the all-zero short part: everything is long. */
  lemma ZeroShort(offsets: seq<int>, limit: int, zeros: seq<int>)
    requires CableFree(offsets) && limit >= 0 && |zeros| == |offsets| && AllZero(zeros)
    ensures ValidShort(offsets, limit, zeros)
  {
    forall i | 1 <= i < |zeros| ensures LimitEdge(offsets, i, zeros[i - 1], zeros[i]) {
      assert offsets[i - 1] <= 1 + offsets[i];
    }
  }

  /** A cable-free input within the limit is its own short part, leaving nothing long. */
  lemma AllShort(offsets: seq<int>, limit: int)
    requires CableFree(offsets) && forall i :: 0 <= i < |offsets| ==> Abs(offsets[i]) <= limit
    ensures ValidShort(offsets, limit, offsets) && AllZero(LongOf(offsets, offsets))
  {
    forall i | 1 <= i < |offsets| ensures LimitEdge(offsets, i, offsets[i - 1], offsets[i]) {
      assert offsets[i - 1] <= 1 + offsets[i];
    }
  }

  /** What the dynamic program's answer means for limit_offsets. */
  lemma LimitSolution(offsets: seq<int>, limit: int)
    requires |offsets| >= 1
    ensures Solution(LimitProblem(offsets, limit)).Some? ==>
      var short := Solution(LimitProblem(offsets, limit)).value;
      ValidShort(offsets, limit, short)
      && forall s :: ValidShort(offsets, limit, s) ==> SumAbs(LongOf(offsets, short)) <= SumAbs(LongOf(offsets, s))
    ensures Solution(LimitProblem(offsets, limit)).None? ==> forall s :: !ValidShort(offsets, limit, s)
  {
    var P := LimitProblem(offsets, limit);
    SolutionOptimal(P);
    assert offsets[..|offsets|] == offsets;
    if Solution(P).Some? {
      var short := Solution(P).value;
      LimitPaths(offsets, limit, short);
      forall s | ValidShort(offsets, limit, s) ensures SumAbs(LongOf(offsets, short)) <= SumAbs(LongOf(offsets, s)) {
        LimitPaths(offsets, limit, s);
        LimitPathCost(offsets, limit, s);
        LimitPathCost(offsets, limit, short);
      }
    } else {
      forall s | ValidShort(offsets, limit, s) ensures false {
        LimitPaths(offsets, limit, s);
      }
    }
  }

  datatype Limited = Limited(short: seq<int>, long: seq<int>)

  /** The long part, built stitch by stitch; the source's checks on both parts hold at every step. */
  method LongPart(offsets: seq<int>, limit: int, short: seq<int>) returns (long: seq<int>)
    requires ValidShort(offsets, limit, short)
    ensures long == LongOf(offsets, short)
  {
    long := [];
    for k := 0 to |offsets|
      invariant long == LongOf(offsets, short)[..k]
    {
      long := long + [offsets[k] - short[k]];
      assert Abs(short[k]) <= limit;
      if k > 0 {
        assert LimitEdge(offsets, k, short[k - 1], short[k]);
        assert short[k - 1] <= 1 + short[k] && long[k - 1] <= 1 + long[k];
        assert short[k - 1] == 1 + short[k] ==> long[k - 1] == 0 && long[k] == 0;
      }
    }
    assert long == LongOf(offsets, short);
  }

  /**
   * limit_offsets: the valid short part of least total long movement.  It
   * fails on an empty input and when no valid short part exists; a
   * cable-free input never fails for a non-negative limit, and one already
   * within the limit leaves nothing long.
   */
  method Limit(offsets: seq<int>, limit: int) returns (r: Result<Limited, string>)
    ensures r.Ok? ==> ValidShort(offsets, limit, r.value.short) && r.value.long == LongOf(offsets, r.value.short)
    ensures r.Ok? ==> forall s :: ValidShort(offsets, limit, s) ==>
      SumAbs(r.value.long) <= SumAbs(LongOf(offsets, s))
    ensures r.Err? <==> |offsets| == 0 || forall s :: !ValidShort(offsets, limit, s)
    ensures CableFree(offsets) && |offsets| >= 1 && limit >= 0 ==> r.Ok?
    ensures r.Ok? && CableFree(offsets) && (forall i :: 0 <= i < |offsets| ==> Abs(offsets[i]) <= limit) ==>
      AllZero(r.value.long)
  {
    var solved := Solve(LimitProblem(offsets, limit));
    if |offsets| == 0 {
      return Err("Failed to find a offset limit solution.");
    }
    LimitSolution(offsets, limit);
    if solved.None? {
      if CableFree(offsets) && limit >= 0 {
        var zeros := seq(|offsets|, _ => 0);
        ZeroShort(offsets, limit, zeros);
      }
      return Err("Failed to find a offset limit solution.");
    }
    var long := LongPart(offsets, limit, solved.value);
    if CableFree(offsets) && (forall i :: 0 <= i < |offsets| ==> Abs(offsets[i]) <= limit) {
      AllShort(offsets, limit);
      SumAbsZero(LongOf(offsets, offsets));
      SumAbsZero(long);
    }
    r := Ok(Limited(solved.value, long));
  }
}
