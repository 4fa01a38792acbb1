/**
 * split_cables: divides offsets into a cable part in [-8, 8] and a flat
 * remainder that has no crossings, minimising the total cable movement.
 */
module SplitCables {
  import opened Knit
  import opened LayeredDp

  const MinOffset: int := -8
  const MaxOffset: int := 8

  /** At stitch i >= 1 neither part may move the stitch further than its own offset. */
  predicate CableNode(offsets: seq<int>, i: nat, ofs: int)
  {
    i < |offsets| && Abs(ofs) <= Abs(offsets[i]) && Abs(offsets[i] - ofs) <= Abs(offsets[i])
  }

  /**
   * Between stitches i-1 and i the flat parts may not cross, and may join
   * one needle only where the offsets themselves join.
   */
  predicate CableEdge(offsets: seq<int>, i: nat, prevOfs: int, ofs: int)
  {
    1 <= i < |offsets|
    && var flat, prevFlat := offsets[i] - ofs, offsets[i - 1] - prevOfs;
       prevFlat <= 1 + flat && (prevFlat == 1 + flat ==> offsets[i - 1] == 1 + offsets[i])
  }

  /** The split as a layered problem: one layer per stitch, cost |cable|. */
  function CableProblem(offsets: seq<int>): Problem
  {
    Problem(|offsets|, MinOffset, MaxOffset,
      ofs => Abs(ofs),
      (i: nat, ofs: int) => CableNode(offsets, i, ofs),
      (i: nat, prevOfs: int, ofs: int) => CableEdge(offsets, i, prevOfs, ofs),
      (i: nat, ofs: int) => Abs(ofs))
  }

  /** A cable part split_cables may return for offsets. */
  predicate ValidCables(offsets: seq<int>, cable: seq<int>)
  {
    |cable| == |offsets|
    && (forall i :: 0 <= i < |cable| ==> MinOffset <= cable[i] <= MaxOffset)
    && (forall i :: 1 <= i < |cable| ==> CableNode(offsets, i, cable[i]))
    && (forall i :: 1 <= i < |cable| ==> CableEdge(offsets, i, cable[i - 1], cable[i]))
  }

  /** What is left to move once the cables are done. */
  function FlatOf(offsets: seq<int>, cable: seq<int>): (flat: seq<int>)
    requires |cable| == |offsets|
    ensures |flat| == |offsets| && forall i :: 0 <= i < |flat| ==> flat[i] + cable[i] == offsets[i]
  {
    seq(|offsets|, i requires 0 <= i < |offsets| => offsets[i] - cable[i])
  }

  /**
   * What a valid cable part guarantees: the parts add up to the offsets, the
   * flat part is cable-free and only joins stitches the offsets join, and
   * from stitch 1 on neither part moves a stitch further than its offset.
   */
  lemma ValidCablesMeaning(offsets: seq<int>, cable: seq<int>)
    requires ValidCables(offsets, cable)
    ensures var flat := FlatOf(offsets, cable);
      CableFree(flat)
      && (forall i :: 1 <= i < |flat| && flat[i - 1] == 1 + flat[i] ==> offsets[i - 1] == 1 + offsets[i])
      && (forall i :: 1 <= i < |flat| ==> Abs(cable[i]) <= Abs(offsets[i]) && Abs(flat[i]) <= Abs(offsets[i]))
  {
    var flat := FlatOf(offsets, cable);
    forall i | 1 <= i < |flat| ensures flat[i - 1] <= 1 + flat[i] {
      assert CableEdge(offsets, i, cable[i - 1], cable[i]);
    }
  }

  /** The layered problem's paths through every stitch are exactly the valid cable parts. */
  lemma CablePaths(offsets: seq<int>, cable: seq<int>)
    requires |offsets| >= 1
    ensures IsPath(CableProblem(offsets), cable) && |cable| == |offsets| <==> ValidCables(offsets, cable)
  {
  }

  /** A path's cost is the total cable movement. */
  lemma {:induction false} CablePathCost(offsets: seq<int>, cable: seq<int>)
    requires |cable| >= 1
    ensures PathCost(CableProblem(offsets), cable) == SumAbs(cable)
  {
    if |cable| > 1 {
      var front := cable[..|cable| - 1];
      CablePathCost(offsets, front);
      assert cable == front + [cable[|cable| - 1]];
      SumAbsAppend(front, [cable[|cable| - 1]]);
    }
  }

  /** The all-zero cable part of a cable-free input is valid and moves nothing. */
  lemma ZeroCables(offsets: seq<int>, zeros: seq<int>)
    requires CableFree(offsets) && |zeros| == |offsets| && AllZero(zeros)
    ensures ValidCables(offsets, zeros) && SumAbs(zeros) == 0
  {
    SumAbsZero(zeros);
    forall i | 1 <= i < |zeros| ensures CableEdge(offsets, i, zeros[i - 1], zeros[i]) {
      assert offsets[i - 1] <= 1 + offsets[i];
    }
  }

  datatype Split = Split(flat: seq<int>, cable: seq<int>)

  /** The no-cable shortcut's scan: whether some stitch's target lies right of its right neighbour's. */
  method HasCables(offsets: seq<int>) returns (hasCables: bool)
    ensures hasCables <==> !CableFree(offsets)
  {
    hasCables := false;
    var i := 0;
    while i + 1 < |offsets| && !hasCables
      invariant 0 <= i <= |offsets|
      invariant !hasCables ==> forall k :: 1 <= k <= i && k < |offsets| ==> offsets[k - 1] <= 1 + offsets[k]
      invariant hasCables ==> !CableFree(offsets)
    {
      if i + offsets[i] > i + 1 + offsets[i + 1] {
        hasCables := true;
      }
      i := i + 1;
    }
  }

  /** The flat part, built stitch by stitch; the flatness checks of the source hold at every step. */
  method FlatPart(offsets: seq<int>, cable: seq<int>) returns (flat: seq<int>)
    requires ValidCables(offsets, cable)
    ensures flat == FlatOf(offsets, cable)
  {
    flat := [];
    for k := 0 to |offsets|
      invariant flat == FlatOf(offsets, cable)[..k]
    {
      flat := flat + [offsets[k] - cable[k]];
      if k > 0 {
        assert CableEdge(offsets, k, cable[k - 1], cable[k]);
        assert flat[k - 1] <= 1 + flat[k];
        assert flat[k - 1] < 1 + flat[k] || offsets[k - 1] == 1 + offsets[k];
      }
    }
    assert flat == FlatOf(offsets, cable);
  }

  /** What the dynamic program's answer means for split_cables. */
  lemma CableSolution(offsets: seq<int>)
    requires |offsets| >= 1
    ensures Solution(CableProblem(offsets)).Some? ==>
      var cable := Solution(CableProblem(offsets)).value;
      ValidCables(offsets, cable) && forall c :: ValidCables(offsets, c) ==> SumAbs(cable) <= SumAbs(c)
    ensures Solution(CableProblem(offsets)).None? ==> forall c :: !ValidCables(offsets, c)
  {
    var P := CableProblem(offsets);
    SolutionOptimal(P);
    if Solution(P).Some? {
      var cable := Solution(P).value;
      CablePaths(offsets, cable);
      forall c | ValidCables(offsets, c) ensures SumAbs(cable) <= SumAbs(c) {
        CablePaths(offsets, c);
        CablePathCost(offsets, c);
        CablePathCost(offsets, cable);
      }
    } else {
      forall c | ValidCables(offsets, c) ensures false {
        CablePaths(offsets, c);
      }
    }
  }

  /**
   * split_cables: a cable-free input is returned as it is with no cables;
   * otherwise the dynamic program picks the valid cable part of least total
   * movement, and fails only when there is no valid cable part at all.
   */
  method SplitCables(offsets: seq<int>) returns (r: Result<Split, string>)
    ensures r.Ok? ==> ValidCables(offsets, r.value.cable) && r.value.flat == FlatOf(offsets, r.value.cable)
    ensures r.Ok? ==> forall c :: ValidCables(offsets, c) ==> SumAbs(r.value.cable) <= SumAbs(c)
    ensures r.Err? <==> forall c :: !ValidCables(offsets, c)
    ensures CableFree(offsets) ==> r.Ok? && r.value.flat == offsets && AllZero(r.value.cable)
  {
    var hasCables := HasCables(offsets);
    if !hasCables {
      var cable := [];
      for k := 0 to |offsets|
        invariant |cable| == k && AllZero(cable)
      {
        cable := cable + [0];
      }
      ZeroCables(offsets, cable);
      assert FlatOf(offsets, cable) == offsets;
      return Ok(Split(offsets, cable));
    }
    var solved := Solve(CableProblem(offsets));
    CableSolution(offsets);
    if solved.None? {
      return Err("Failed to find a offset split solution.");
    }
    var flat := FlatPart(offsets, solved.value);
    r := Ok(Split(flat, solved.value));
  }
}
