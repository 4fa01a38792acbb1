/**
 * lace_transfers: transfers for offsets in {-1, 0, +1} when the stacking
 * order of decreases matters.  The stitches are cut into blocks (+1)* 0 (-1)*,
 * each block is classified by which of its stitches is marked first, and
 * the plan is three fixed passes, each sending its stitches to the back and
 * then returning them.
 */
module LaceTransfers {
  import opened Knit

  /** Which stitch of a block must end at the bottom of its stack. */
  datatype Kind = PlusFirst | ZeroFirst | MinusFirst

  /** The stitches of one kind of block, split by offset. */
  datatype Groups = Groups(minus: seq<nat>, zero: seq<nat>, plus: seq<nat>)

  /** The three groupings the source keeps (minus_first, zero_first, plus_first). */
  datatype Sorting = Sorting(minusFirst: Groups, zeroFirst: Groups, plusFirst: Groups)

  const NoGroups := Groups([], [], [])

  /** The input checks, in the order the source makes them; None when all pass. */
  function InputError(offsets: seq<int>, firsts: seq<bool>): Option<string>
  {
    if |offsets| != |firsts| then Some("Offsets and firsts should be the same length.")
    else if exists i :: 0 <= i < |offsets| && !(offsets[i] == -1 || offsets[i] == 0 || offsets[i] == 1) then
      Some("Offsets may only contain -1,0,+1")
    else if exists i :: 0 <= i && i + 1 < |offsets| && offsets[i] == 1 && offsets[i + 1] == -1 then
      Some("Offsets should not contain cables (that is, [1,-1] subarrays)")
    else if |offsets| > 0 && offsets[0] == -1 then Some("Leftmost offset should be >= 0")
    else if |offsets| > 0 && offsets[|offsets| - 1] == 1 then Some("Rightmost offset should be <= 0")
    else None
  }

  predicate ValidInput(offsets: seq<int>, firsts: seq<bool>)
  {
    InputError(offsets, firsts).None?
  }

  /** The first zero at or right of i (|offsets| if there is none). */
  function NextZero(offsets: seq<int>, i: nat): (z: nat)
    requires i <= |offsets|
    ensures i <= z <= |offsets|
    decreases |offsets| - i
  {
    if i == |offsets| then |offsets| else if offsets[i] == 0 then i else NextZero(offsets, i + 1)
  }

  /** The last zero at or left of i (-1 if there is none). */
  function PrevZero(offsets: seq<int>, i: int): (z: int)
    requires -1 <= i < |offsets|
    ensures -1 <= z <= i
    decreases i + 1
  {
    if i < 0 then -1 else if offsets[i] == 0 then i else PrevZero(offsets, i - 1)
  }

  /** The zero of stitch i's block: a +1 looks right, a -1 looks left. */
  function ZeroOf(offsets: seq<int>, i: nat): int
    requires i < |offsets|
  {
    if offsets[i] == 1 then NextZero(offsets, i) else if offsets[i] == -1 then PrevZero(offsets, i) else i
  }

  /** The block with zero z asks for its rightmost +1 / its zero / its leftmost -1 first. */
  predicate WantPlus(offsets: seq<int>, firsts: seq<bool>, z: int)
    requires |offsets| == |firsts|
  {
    1 <= z <= |offsets| && offsets[z - 1] == 1 && firsts[z - 1]
  }

  predicate WantZero(offsets: seq<int>, firsts: seq<bool>, z: int)
    requires |offsets| == |firsts|
  {
    0 <= z < |offsets| && firsts[z]
  }

  predicate WantMinus(offsets: seq<int>, firsts: seq<bool>, z: int)
    requires |offsets| == |firsts|
  {
    0 <= z && z + 1 < |offsets| && offsets[z + 1] == -1 && firsts[z + 1]
  }

  /** Two of a block's three candidates are marked. */
  predicate Conflict(offsets: seq<int>, firsts: seq<bool>, z: int)
    requires |offsets| == |firsts|
  {
    (WantPlus(offsets, firsts, z) && (WantZero(offsets, firsts, z) || WantMinus(offsets, firsts, z)))
    || (WantMinus(offsets, firsts, z) && WantZero(offsets, firsts, z))
  }

  predicate HasConflict(offsets: seq<int>, firsts: seq<bool>)
    requires |offsets| == |firsts|
  {
    exists z :: 0 <= z < |offsets| && offsets[z] == 0 && Conflict(offsets, firsts, z)
  }

  function BlockKind(offsets: seq<int>, firsts: seq<bool>, z: int): Kind
    requires |offsets| == |firsts|
  {
    if WantPlus(offsets, firsts, z) then PlusFirst
    else if WantMinus(offsets, firsts, z) then MinusFirst
    else ZeroFirst
  }

  /** The kind of stitch i's block. */
  function KindAt(offsets: seq<int>, firsts: seq<bool>, i: nat): Kind
    requires i < |offsets| == |firsts|
  {
    BlockKind(offsets, firsts, ZeroOf(offsets, i))
  }

  /** Appends stitch i to the list of its offset. */
  function Push(g: Groups, ofs: int, i: nat): Groups
  {
    if ofs == 1 then g.(plus := g.plus + [i])
    else if ofs == 0 then g.(zero := g.zero + [i])
    else g.(minus := g.minus + [i])
  }

  function Add(s: Sorting, kind: Kind, ofs: int, i: nat): Sorting
  {
    match kind
    case PlusFirst => s.(plusFirst := Push(s.plusFirst, ofs, i))
    case ZeroFirst => s.(zeroFirst := Push(s.zeroFirst, ofs, i))
    case MinusFirst => s.(minusFirst := Push(s.minusFirst, ofs, i))
  }

  /** The groupings of stitches 0 .. k-1, each at its own block's kind. */
  function Classified(offsets: seq<int>, firsts: seq<bool>, k: nat): Sorting
    requires k <= |offsets| == |firsts|
  {
    if k == 0 then Sorting(NoGroups, NoGroups, NoGroups)
    else Add(Classified(offsets, firsts, k - 1), KindAt(offsets, firsts, k - 1), offsets[k - 1], k - 1)
  }

  function OfKind(s: Sorting, kind: Kind): Groups
  {
    match kind
    case PlusFirst => s.plusFirst
    case ZeroFirst => s.zeroFirst
    case MinusFirst => s.minusFirst
  }

  function OfOffset(g: Groups, ofs: int): seq<nat>
  {
    if ofs == 1 then g.plus else if ofs == 0 then g.zero else g.minus
  }

  function ToBacks(stitches: seq<nat>): (ops: seq<Op>)
    ensures |ops| == |stitches|
  {
    seq(|stitches|, k requires 0 <= k < |stitches| => ToBack(stitches[k]))
  }

  /** Each stitch returned to the front at its target. */
  function Returns(offsets: seq<int>, stitches: seq<nat>): (ops: seq<Op>)
    requires forall k :: 0 <= k < |stitches| ==> stitches[k] < |offsets|
    ensures |ops| == |stitches|
  {
    seq(|stitches|, k requires 0 <= k < |stitches| => ToFront(stitches[k], offsets[stitches[k]]))
  }

  predicate Within(offsets: seq<int>, stitches: seq<nat>)
  {
    forall k :: 0 <= k < |stitches| ==> stitches[k] < |offsets|
  }

  /** One pass of the plan: the stitches go to the back, then return to their targets. */
  function Pass(offsets: seq<int>, stitches: seq<nat>): seq<Op>
    requires Within(offsets, stitches)
  {
    ToBacks(stitches) + Returns(offsets, stitches)
  }

  /** The stitches of the three passes: +1/0 first, then -1/0, then +1. */
  function PassOne(s: Sorting): seq<nat>
  {
    s.plusFirst.plus + s.plusFirst.zero
  }

  function PassTwo(s: Sorting): seq<nat>
  {
    s.minusFirst.minus + s.zeroFirst.minus + s.plusFirst.minus + s.minusFirst.zero
  }

  function PassThree(s: Sorting): seq<nat>
  {
    s.minusFirst.plus + s.zeroFirst.plus
  }

  function Sorted(offsets: seq<int>, firsts: seq<bool>): Sorting
    requires |offsets| == |firsts|
  {
    Classified(offsets, firsts, |offsets|)
  }

  /** Every stitch of the list is a stitch of the given offset. */
  predicate AllAt(offsets: seq<int>, stitches: seq<nat>, ofs: int)
  {
    forall k :: 0 <= k < |stitches| ==> stitches[k] < |offsets| && offsets[stitches[k]] == ofs
  }

  predicate GroupsAgree(offsets: seq<int>, g: Groups)
  {
    AllAt(offsets, g.minus, -1) && AllAt(offsets, g.zero, 0) && AllAt(offsets, g.plus, 1)
  }

  /** Every listed stitch is a stitch, and sits in the list of its own offset. */
  predicate SignsAgree(offsets: seq<int>, s: Sorting)
  {
    GroupsAgree(offsets, s.minusFirst) && GroupsAgree(offsets, s.zeroFirst) && GroupsAgree(offsets, s.plusFirst)
  }

  /** The plan for a grouping: three passes in a fixed order. */
  function PlanOf(offsets: seq<int>, s: Sorting): seq<Op>
    requires SignsAgree(offsets, s)
  {
    PassesWithin(offsets, s);
    Pass(offsets, PassOne(s)) + Pass(offsets, PassTwo(s)) + Pass(offsets, PassThree(s))
  }

  /** What lace_transfers does with offsets and firsts. */
  function LaceResult(offsets: seq<int>, firsts: seq<bool>): Result<seq<Op>, string>
  {
    if InputError(offsets, firsts).Some? then Err(InputError(offsets, firsts).value)
    else if HasConflict(offsets, firsts) then Err("Only one stitch may be marked first")
    else (
      ValidFacts(offsets, firsts);
      SortedSigns(offsets, firsts, |offsets|);
      Ok(PlanOf(offsets, Sorted(offsets, firsts))))
  }

  lemma PassesWithin(offsets: seq<int>, s: Sorting)
    requires SignsAgree(offsets, s)
    ensures Within(offsets, s.minusFirst.minus) && Within(offsets, s.minusFirst.zero) && Within(offsets, s.minusFirst.plus)
    ensures Within(offsets, s.zeroFirst.minus) && Within(offsets, s.zeroFirst.zero) && Within(offsets, s.zeroFirst.plus)
    ensures Within(offsets, s.plusFirst.minus) && Within(offsets, s.plusFirst.zero) && Within(offsets, s.plusFirst.plus)
    ensures Within(offsets, PassOne(s)) && Within(offsets, PassTwo(s)) && Within(offsets, PassThree(s))
  {
  }

  // ---------------------------------------------------------------------
  // Blocks

  /** The input checks, as facts about every stitch. */
  lemma ValidFacts(offsets: seq<int>, firsts: seq<bool>)
    requires ValidInput(offsets, firsts)
    ensures |offsets| == |firsts|
    ensures forall j :: 0 <= j < |offsets| ==> offsets[j] == -1 || offsets[j] == 0 || offsets[j] == 1
    ensures forall j :: 0 <= j && j + 1 < |offsets| ==> !(offsets[j] == 1 && offsets[j + 1] == -1)
    ensures |offsets| > 0 ==> offsets[0] != -1 && offsets[|offsets| - 1] != 1
  {
  }

  lemma {:induction false} NextZeroInRun(offsets: seq<int>, i: nat, z: nat)
    requires i <= z < |offsets| && offsets[z] == 0
    requires forall k :: i <= k < z ==> offsets[k] == 1
    ensures NextZero(offsets, i) == z
    decreases z - i
  {
    if i < z {
      NextZeroInRun(offsets, i + 1, z);
    }
  }

  lemma {:induction false} PrevZeroInRun(offsets: seq<int>, z: nat, i: nat)
    requires z <= i < |offsets| && offsets[z] == 0
    requires forall k :: z < k <= i ==> offsets[k] == -1
    ensures PrevZero(offsets, i) == z
    decreases i - z
  {
    if z < i {
      PrevZeroInRun(offsets, z, i - 1);
    }
  }

  /** Every stitch of a block (+1)* 0 (-1)* has that block's zero as its own. */
  lemma BlockZero(offsets: seq<int>, beginPlus: nat, beginZero: nat, endMinus: nat)
    requires beginPlus <= beginZero < endMinus <= |offsets| && offsets[beginZero] == 0
    requires forall k :: beginPlus <= k < beginZero ==> offsets[k] == 1
    requires forall k :: beginZero < k < endMinus ==> offsets[k] == -1
    ensures forall i :: beginPlus <= i < endMinus ==> ZeroOf(offsets, i) == beginZero
  {
    forall i | beginPlus <= i < endMinus ensures ZeroOf(offsets, i) == beginZero {
      if i < beginZero {
        NextZeroInRun(offsets, i, beginZero);
      } else if i > beginZero {
        PrevZeroInRun(offsets, beginZero, i);
      }
    }
  }

  /**
   * A valid input is cut into blocks (+1)* 0 (-1)*: every +1 has a zero to its
   * right with only +1s between, and every -1 a zero to its left with only
   * -1s between.
   */
  lemma {:induction false} BlocksOfValid(offsets: seq<int>, firsts: seq<bool>, i: nat)
    requires ValidInput(offsets, firsts) && i < |offsets|
    ensures 0 <= ZeroOf(offsets, i) < |offsets| && offsets[ZeroOf(offsets, i)] == 0
    ensures offsets[i] == 1 ==> i < ZeroOf(offsets, i) && forall k :: i <= k < ZeroOf(offsets, i) ==> offsets[k] == 1
    ensures offsets[i] == -1 ==> ZeroOf(offsets, i) < i && forall k :: ZeroOf(offsets, i) < k <= i ==> offsets[k] == -1
    decreases if offsets[i] == 1 then |offsets| - i else i
  {
    ValidFacts(offsets, firsts);
    if offsets[i] == 1 {
      assert i + 1 < |offsets| && offsets[i + 1] != -1;
      assert ZeroOf(offsets, i) == NextZero(offsets, i + 1);
      if offsets[i + 1] == 1 {
        BlocksOfValid(offsets, firsts, i + 1);
      }
    } else if offsets[i] == -1 {
      assert i > 0 && offsets[i - 1] != 1;
      assert ZeroOf(offsets, i) == PrevZero(offsets, i - 1);
      if offsets[i - 1] == -1 {
        BlocksOfValid(offsets, firsts, i - 1);
      }
    }
  }

  // ---------------------------------------------------------------------
  // The groupings

  lemma {:induction false} SortedSigns(offsets: seq<int>, firsts: seq<bool>, k: nat)
    requires k <= |offsets| == |firsts|
    requires forall j :: 0 <= j < |offsets| ==> offsets[j] == -1 || offsets[j] == 0 || offsets[j] == 1
    ensures SignsAgree(offsets, Classified(offsets, firsts, k))
  {
    if k > 0 {
      SortedSigns(offsets, firsts, k - 1);
      var st := Classified(offsets, firsts, k - 1);
      assert Classified(offsets, firsts, k) == Add(st, KindAt(offsets, firsts, k - 1), offsets[k - 1], k - 1);
      AddAgrees(offsets, st, KindAt(offsets, firsts, k - 1), k - 1);
    }
  }

  /** Adding a stitch at its own offset keeps every list at its offset. */
  lemma AddAgrees(offsets: seq<int>, st: Sorting, kind: Kind, i: nat)
    requires i < |offsets| && (offsets[i] == -1 || offsets[i] == 0 || offsets[i] == 1)
    requires SignsAgree(offsets, st)
    ensures SignsAgree(offsets, Add(st, kind, offsets[i], i))
  {
    var g := OfKind(st, kind);
    PushAgrees(offsets, g, i);
  }

  lemma PushAgrees(offsets: seq<int>, g: Groups, i: nat)
    requires i < |offsets| && (offsets[i] == -1 || offsets[i] == 0 || offsets[i] == 1)
    requires GroupsAgree(offsets, g)
    ensures GroupsAgree(offsets, Push(g, offsets[i], i))
  {
  }

  lemma AddEffect(st: Sorting, added: Kind, addedOfs: int, i: nat, kind: Kind, ofs: int)
    requires addedOfs == -1 || addedOfs == 0 || addedOfs == 1
    requires ofs == -1 || ofs == 0 || ofs == 1
    ensures OfOffset(OfKind(Add(st, added, addedOfs, i), kind), ofs)
      == if added == kind && addedOfs == ofs then OfOffset(OfKind(st, kind), ofs) + [i] else OfOffset(OfKind(st, kind), ofs)
  {
  }

  /** How often stitch i appears in a list of the groupings of 0 .. k-1. */
  lemma {:induction false} ClassifiedCount(offsets: seq<int>, firsts: seq<bool>, k: nat, kind: Kind, ofs: int, i: nat)
    requires k <= |offsets| == |firsts| && i < |offsets|
    requires ofs == -1 || ofs == 0 || ofs == 1
    requires forall j :: 0 <= j < |offsets| ==> offsets[j] == -1 || offsets[j] == 0 || offsets[j] == 1
    ensures multiset(OfOffset(OfKind(Classified(offsets, firsts, k), kind), ofs))[i]
      == if i < k && offsets[i] == ofs && KindAt(offsets, firsts, i) == kind then 1 else 0
  {
    if k > 0 {
      var st := Classified(offsets, firsts, k - 1);
      var added := KindAt(offsets, firsts, k - 1);
      ClassifiedCount(offsets, firsts, k - 1, kind, ofs, i);
      assert Classified(offsets, firsts, k) == Add(st, added, offsets[k - 1], k - 1);
      AddEffect(st, added, offsets[k - 1], k - 1, kind, ofs);
      CountStep(OfOffset(OfKind(st, kind), ofs), OfOffset(OfKind(Classified(offsets, firsts, k), kind), ofs),
        added == kind && offsets[k - 1] == ofs, k - 1, i);
    }
  }

  /** One more stitch x at the end of a list counts once more for x only. */
  lemma CountStep(before: seq<nat>, after: seq<nat>, grew: bool, x: nat, i: nat)
    requires after == if grew then before + [x] else before
    ensures multiset(after)[i] == multiset(before)[i] + if grew && x == i then 1 else 0
  {
    if grew {
      assert multiset(after) == multiset(before) + multiset{x};
    }
  }

  function Count(s: seq<nat>, i: nat): nat { multiset(s)[i] }

  /**
   * Every stitch lands in exactly one list: the one of its offset and its
   * block's kind.
   */
  lemma SortedMembership(offsets: seq<int>, firsts: seq<bool>, i: nat)
    requires ValidInput(offsets, firsts) && i < |offsets|
    ensures var s := Sorted(offsets, firsts); var kind := KindAt(offsets, firsts, i);
      Count(OfOffset(OfKind(s, kind), offsets[i]), i) == 1
      && forall k: Kind, ofs: int :: (ofs == -1 || ofs == 0 || ofs == 1) && (k != kind || ofs != offsets[i]) ==>
           Count(OfOffset(OfKind(s, k), ofs), i) == 0
  {
    var n := |offsets|;
    ClassifiedCount(offsets, firsts, n, KindAt(offsets, firsts, i), offsets[i], i);
    forall k: Kind, ofs: int | (ofs == -1 || ofs == 0 || ofs == 1) && (k != KindAt(offsets, firsts, i) || ofs != offsets[i])
      ensures Count(OfOffset(OfKind(Sorted(offsets, firsts), k), ofs), i) == 0
    {
      ClassifiedCount(offsets, firsts, n, k, ofs, i);
    }
  }

  // ---------------------------------------------------------------------
  // Properties of the plan

  lemma {:induction false} ToBacksCount(stitches: seq<nat>, i: nat)
    ensures multiset(ToBacks(stitches))[ToBack(i)] == multiset(stitches)[i]
  {
    if stitches != [] {
      var last := |stitches| - 1;
      ToBacksCount(stitches[..last], i);
      assert stitches == stitches[..last] + [stitches[last]];
      assert ToBacks(stitches) == ToBacks(stitches[..last]) + [ToBack(stitches[last])];
    }
  }

  lemma {:induction false} ReturnsCount(offsets: seq<int>, stitches: seq<nat>, i: nat)
    requires Within(offsets, stitches) && i < |offsets|
    ensures multiset(Returns(offsets, stitches))[ToFront(i, offsets[i])] == multiset(stitches)[i]
  {
    if stitches != [] {
      var last := |stitches| - 1;
      ReturnsCount(offsets, stitches[..last], i);
      assert stitches == stitches[..last] + [stitches[last]];
      assert Returns(offsets, stitches) == Returns(offsets, stitches[..last]) + [ToFront(stitches[last], offsets[stitches[last]])];
    }
  }

  /** A pass sends each of its stitches to the back once and returns it once. */
  lemma PassCount(offsets: seq<int>, stitches: seq<nat>, i: nat)
    requires Within(offsets, stitches) && i < |offsets|
    ensures multiset(Pass(offsets, stitches))[ToBack(i)] == multiset(stitches)[i]
    ensures multiset(Pass(offsets, stitches))[ToFront(i, offsets[i])] == multiset(stitches)[i]
  {
    ToBacksCount(stitches, i);
    ReturnsCount(offsets, stitches, i);
    assert ToFront(i, offsets[i]) !in multiset(ToBacks(stitches));
    assert ToBack(i) !in multiset(Returns(offsets, stitches));
  }

  /** A pass sends all of its stitches to the back before it returns any. */
  lemma PassBacksFirst(offsets: seq<int>, stitches: seq<nat>)
    requires Within(offsets, stitches)
    ensures var ops := Pass(offsets, stitches);
      forall j, k :: 0 <= j < k < |ops| && ops[j].fromBed == B ==> ops[k].fromBed == B
  {
  }

  /** Every transfer of a pass is a stitch of it going to the back or to its target. */
  lemma PassShape(offsets: seq<int>, stitches: seq<nat>)
    requires Within(offsets, stitches)
    ensures forall op :: op in Pass(offsets, stitches) ==>
      op.fromNeedle in stitches && 0 <= op.fromNeedle < |offsets| && (op == ToBack(op.fromNeedle) || op == ToFront(op.fromNeedle, offsets[op.fromNeedle]))
  {
    var ops := Pass(offsets, stitches);
    forall op | op in ops
      ensures op.fromNeedle in stitches && 0 <= op.fromNeedle < |offsets|
      ensures op == ToBack(op.fromNeedle) || op == ToFront(op.fromNeedle, offsets[op.fromNeedle])
    {
      var k :| 0 <= k < |ops| && ops[k] == op;
      if k < |stitches| {
        assert op == ToBack(stitches[k]);
      } else {
        assert op == ToFront(stitches[k - |stitches|], offsets[stitches[k - |stitches|]]);
      }
    }
  }

  /** Stitch i is moved unless it is the zero of a block that wants its zero first (or wants nothing). */
  predicate Moved(offsets: seq<int>, firsts: seq<bool>, i: nat)
    requires i < |offsets| == |firsts|
  {
    offsets[i] != 0 || KindAt(offsets, firsts, i) != ZeroFirst
  }

  /**
   * The passes' members: pass one holds the +1s and zeros of plus-first
   * blocks, pass two every -1 and the zeros of minus-first blocks, pass
   * three the +1s of the other blocks.
   */
  lemma PassMembers(offsets: seq<int>, firsts: seq<bool>, i: nat)
    requires ValidInput(offsets, firsts) && i < |offsets|
    ensures var s := Sorted(offsets, firsts); var kind := KindAt(offsets, firsts, i);
      && Count(PassOne(s), i) == (if kind == PlusFirst && offsets[i] >= 0 then 1 else 0)
      && Count(PassTwo(s), i) == (if offsets[i] == -1 || (kind == MinusFirst && offsets[i] == 0) then 1 else 0)
      && Count(PassThree(s), i) == (if kind != PlusFirst && offsets[i] == 1 then 1 else 0)
  {
    var s := Sorted(offsets, firsts);
    var n := |offsets|;
    ValidFacts(offsets, firsts);
    ClassifiedCount(offsets, firsts, n, PlusFirst, 1, i);
    ClassifiedCount(offsets, firsts, n, PlusFirst, 0, i);
    ClassifiedCount(offsets, firsts, n, PlusFirst, -1, i);
    ClassifiedCount(offsets, firsts, n, ZeroFirst, 1, i);
    ClassifiedCount(offsets, firsts, n, ZeroFirst, -1, i);
    ClassifiedCount(offsets, firsts, n, MinusFirst, 1, i);
    ClassifiedCount(offsets, firsts, n, MinusFirst, 0, i);
    ClassifiedCount(offsets, firsts, n, MinusFirst, -1, i);
    assert multiset(PassOne(s)) == multiset(s.plusFirst.plus) + multiset(s.plusFirst.zero);
    assert multiset(PassTwo(s)) == multiset(s.minusFirst.minus) + multiset(s.zeroFirst.minus)
      + multiset(s.plusFirst.minus) + multiset(s.minusFirst.zero);
    assert multiset(PassThree(s)) == multiset(s.minusFirst.plus) + multiset(s.zeroFirst.plus);
  }

  /**
   * lace_transfers sends every moved stitch to the back exactly once and
   * returns it to its target exactly once; zeros of blocks without a marked
   * +1 or -1 get no transfer.
   */
  lemma LaceMoves(offsets: seq<int>, firsts: seq<bool>, i: nat)
    requires LaceResult(offsets, firsts).Ok? && i < |offsets|
    ensures var plan := LaceResult(offsets, firsts).value;
      multiset(plan)[ToBack(i)] == (if Moved(offsets, firsts, i) then 1 else 0)
      && multiset(plan)[ToFront(i, offsets[i])] == (if Moved(offsets, firsts, i) then 1 else 0)
  {
    var s := Sorted(offsets, firsts);
    ValidFacts(offsets, firsts);
    SortedSigns(offsets, firsts, |offsets|);
    PassMembers(offsets, firsts, i);
    PlanCount(offsets, s, i);
  }

  lemma PlanCount(offsets: seq<int>, s: Sorting, i: nat)
    requires SignsAgree(offsets, s) && i < |offsets|
    ensures multiset(PlanOf(offsets, s))[ToBack(i)] == Count(PassOne(s), i) + Count(PassTwo(s), i) + Count(PassThree(s), i)
    ensures multiset(PlanOf(offsets, s))[ToFront(i, offsets[i])] == Count(PassOne(s), i) + Count(PassTwo(s), i) + Count(PassThree(s), i)
  {
    PassesWithin(offsets, s);
    var a, b, c := Pass(offsets, PassOne(s)), Pass(offsets, PassTwo(s)), Pass(offsets, PassThree(s));
    PassCount(offsets, PassOne(s), i);
    PassCount(offsets, PassTwo(s), i);
    PassCount(offsets, PassThree(s), i);
    assert PlanOf(offsets, s) == a + b + c;
    assert multiset(a + b + c) == multiset(a) + multiset(b) + multiset(c);
  }

  /** Every transfer of the plan is one of those two moves of one of the stitches. */
  lemma LaceShape(offsets: seq<int>, firsts: seq<bool>)
    requires LaceResult(offsets, firsts).Ok?
    ensures forall op :: op in LaceResult(offsets, firsts).value ==>
      0 <= op.fromNeedle < |offsets| && (op == ToBack(op.fromNeedle) || op == ToFront(op.fromNeedle, offsets[op.fromNeedle]))
  {
    var s := Sorted(offsets, firsts);
    ValidFacts(offsets, firsts);
    SortedSigns(offsets, firsts, |offsets|);
    PassShape(offsets, PassOne(s));
    PassShape(offsets, PassTwo(s));
    PassShape(offsets, PassThree(s));
  }

  /**
   * The passes come in a fixed order whatever the blocks: the plan is pass
   * one, two and three, each with its members as above.
   */
  lemma LaceOrder(offsets: seq<int>, firsts: seq<bool>)
    requires LaceResult(offsets, firsts).Ok?
    ensures var s := Sorted(offsets, firsts);
      Within(offsets, PassOne(s)) && Within(offsets, PassTwo(s)) && Within(offsets, PassThree(s))
      && LaceResult(offsets, firsts).value == Pass(offsets, PassOne(s)) + Pass(offsets, PassTwo(s)) + Pass(offsets, PassThree(s))
  {
    ValidFacts(offsets, firsts);
    SortedSigns(offsets, firsts, |offsets|);
  }

  /** The errors: a failed input check, or a block with two stitches marked first. */
  lemma LaceErrors(offsets: seq<int>, firsts: seq<bool>)
    ensures LaceResult(offsets, firsts).Err? <==>
      |offsets| != |firsts|
      || (exists i :: 0 <= i < |offsets| && !(offsets[i] == -1 || offsets[i] == 0 || offsets[i] == 1))
      || (exists i :: 0 <= i && i + 1 < |offsets| && offsets[i] == 1 && offsets[i + 1] == -1)
      || (|offsets| > 0 && (offsets[0] == -1 || offsets[|offsets| - 1] == 1))
      || HasConflict(offsets, firsts)
  {
  }

  // ---------------------------------------------------------------------
  // The procedure

  /** The input checks, one loop per check as in the source. */
  method CheckInputs(offsets: seq<int>, firsts: seq<bool>) returns (err: Option<string>)
    ensures err == InputError(offsets, firsts)
  {
    if |offsets| != |firsts| {
      return Some("Offsets and firsts should be the same length.");
    }
    for i := 0 to |offsets|
      invariant forall k :: 0 <= k < i ==> offsets[k] == -1 || offsets[k] == 0 || offsets[k] == 1
    {
      if !(offsets[i] == -1 || offsets[i] == 0 || offsets[i] == 1) {
        return Some("Offsets may only contain -1,0,+1");
      }
    }
    var i := 0;
    while i + 1 < |offsets|
      invariant 0 <= i <= |offsets|
      invariant forall k :: 0 <= k < i && k + 1 < |offsets| ==> !(offsets[k] == 1 && offsets[k + 1] == -1)
    {
      if offsets[i] == 1 && offsets[i + 1] == -1 {
        return Some("Offsets should not contain cables (that is, [1,-1] subarrays)");
      }
      i := i + 1;
    }
    if |offsets| > 0 && offsets[0] == -1 {
      return Some("Leftmost offset should be >= 0");
    }
    if |offsets| > 0 && offsets[|offsets| - 1] == 1 {
      return Some("Rightmost offset should be <= 0");
    }
    return None;
  }

  /** Adds stitches lo .. hi-1, all of one offset and one block kind, to the groupings. */
  method PushRun(offsets: seq<int>, firsts: seq<bool>, sorting: Sorting, kind: Kind, ofs: int, lo: nat, hi: nat) returns (r: Sorting)
    requires lo <= hi <= |offsets| == |firsts|
    requires sorting == Classified(offsets, firsts, lo)
    requires forall i :: lo <= i < hi ==> offsets[i] == ofs && KindAt(offsets, firsts, i) == kind
    ensures r == Classified(offsets, firsts, hi)
  {
    r := sorting;
    for i := lo to hi
      invariant r == Classified(offsets, firsts, i)
    {
      r := Add(r, kind, ofs, i);
    }
  }

  /** The block loop: cuts the input into blocks and sorts their stitches by kind and offset. */
  method SortBlocks(offsets: seq<int>, firsts: seq<bool>) returns (r: Result<Sorting, string>)
    requires ValidInput(offsets, firsts)
    ensures r.Err? <==> HasConflict(offsets, firsts)
    ensures r.Err? ==> r.error == "Only one stitch may be marked first"
    ensures r.Ok? ==> r.value == Sorted(offsets, firsts)
  {
    ValidFacts(offsets, firsts);
    var n := |offsets|;
    var sorting := Classified(offsets, firsts, 0);
    var at := 0;
    while at < n
      invariant at <= n
      invariant at < n ==> offsets[at] != -1
      invariant at > 0 ==> offsets[at - 1] != 1
      invariant forall z :: 0 <= z < at && offsets[z] == 0 ==> !Conflict(offsets, firsts, z)
      invariant sorting == Classified(offsets, firsts, at)
      decreases n - at
    {
      var beginPlus := at;
      var beginZero, endMinus := ScanBlock(offsets, firsts, at);
      var kind := ClassifyBlock(offsets, firsts, beginPlus, beginZero, endMinus);
      if kind.None? {
        return Err("Only one stitch may be marked first");
      }
      sorting := PushBlock(offsets, firsts, sorting, kind.value, beginPlus, beginZero, endMinus);
      at := endMinus;
      assert forall z :: beginPlus <= z < endMinus && offsets[z] == 0 ==> z == beginZero;
    }
    return Ok(sorting);
  }

  /** A block (+1)* 0 (-1)* from beginPlus to endMinus, with its zero at beginZero. */
  predicate IsBlock(offsets: seq<int>, beginPlus: nat, beginZero: nat, endMinus: nat)
  {
    beginPlus <= beginZero < endMinus <= |offsets| && offsets[beginZero] == 0
    && (forall k :: beginPlus <= k < beginZero ==> offsets[k] == 1)
    && (forall k :: beginZero < k < endMinus ==> offsets[k] == -1)
  }

  /** The two inner loops of the block loop: the +1s, the zero, then the -1s. */
  method ScanBlock(offsets: seq<int>, firsts: seq<bool>, beginPlus: nat) returns (beginZero: nat, endMinus: nat)
    requires ValidInput(offsets, firsts) && beginPlus < |offsets|
    requires offsets[beginPlus] != -1 && (beginPlus > 0 ==> offsets[beginPlus - 1] != 1)
    ensures IsBlock(offsets, beginPlus, beginZero, endMinus)
    ensures endMinus < |offsets| ==> offsets[endMinus] != -1
    ensures offsets[endMinus - 1] != 1
  {
    ValidFacts(offsets, firsts);
    var n := |offsets|;
    var at := beginPlus;
    while at < n && offsets[at] == 1
      invariant beginPlus <= at <= n
      invariant forall k :: beginPlus <= k < at ==> offsets[k] == 1
    {
      at := at + 1;
    }
    assert at < n;
    assert offsets[at] == 0 by {
      if at > beginPlus { assert offsets[at - 1] == 1; }
    }
    beginZero := at;
    at := at + 1;
    while at < n && offsets[at] == -1
      invariant beginZero < at <= n
      invariant forall k :: beginZero < k < at ==> offsets[k] == -1
    {
      at := at + 1;
    }
    endMinus := at;
  }

  /** Which stitch of the block is marked first; None when two of them are. */
  method ClassifyBlock(offsets: seq<int>, firsts: seq<bool>, beginPlus: nat, beginZero: nat, endMinus: nat)
    returns (kind: Option<Kind>)
    requires |offsets| == |firsts| && IsBlock(offsets, beginPlus, beginZero, endMinus)
    requires beginPlus > 0 ==> offsets[beginPlus - 1] != 1
    requires endMinus < |offsets| ==> offsets[endMinus] != -1
    ensures kind.None? <==> Conflict(offsets, firsts, beginZero)
    ensures kind.Some? ==> kind.value == BlockKind(offsets, firsts, beginZero)
  {
    var beginMinus := beginZero + 1;
    var wantPlusFirst := beginPlus < beginZero && firsts[beginZero - 1];
    var wantZeroFirst := firsts[beginZero];
    var wantMinusFirst := beginMinus < endMinus && firsts[beginMinus];
    assert wantPlusFirst ==> WantPlus(offsets, firsts, beginZero);
    assert wantMinusFirst ==> WantMinus(offsets, firsts, beginZero);
    assert WantPlus(offsets, firsts, beginZero) ==> wantPlusFirst;
    assert WantMinus(offsets, firsts, beginZero) ==> wantMinusFirst;
    if wantPlusFirst {
      if wantZeroFirst || wantMinusFirst {
        return None;
      }
      return Some(PlusFirst);
    } else if wantMinusFirst {
      if wantPlusFirst || wantZeroFirst {
        return None;
      }
      return Some(MinusFirst);
    } else {
      return Some(ZeroFirst);
    }
  }

  /** Adds the stitches of one block, +1s, zero, -1s, at the block's kind. */
  method PushBlock(offsets: seq<int>, firsts: seq<bool>, sorting: Sorting, kind: Kind, beginPlus: nat, beginZero: nat, endMinus: nat)
    returns (r: Sorting)
    requires |offsets| == |firsts| && IsBlock(offsets, beginPlus, beginZero, endMinus)
    requires kind == BlockKind(offsets, firsts, beginZero)
    requires sorting == Classified(offsets, firsts, beginPlus)
    ensures r == Classified(offsets, firsts, endMinus)
  {
    BlockZero(offsets, beginPlus, beginZero, endMinus);
    r := PushRun(offsets, firsts, sorting, kind, 1, beginPlus, beginZero);
    r := PushRun(offsets, firsts, r, kind, 0, beginZero, beginZero + 1);
    r := PushRun(offsets, firsts, r, kind, -1, beginZero + 1, endMinus);
  }

  /** xferToBack for each listed stitch, in order. */
  method SendBack(plan: seq<Op>, stitches: seq<nat>) returns (r: seq<Op>)
    ensures r == plan + ToBacks(stitches)
  {
    r := plan;
    for k := 0 to |stitches|
      invariant r == plan + ToBacks(stitches[..k])
    {
      assert ToBacks(stitches[..k + 1]) == ToBacks(stitches[..k]) + [ToBack(stitches[k])];
      r := r + [ToBack(stitches[k])];
    }
    assert stitches[..|stitches|] == stitches;
  }

  /** xferToFront at the list's offset for each listed stitch, in order. */
  method Return(offsets: seq<int>, plan: seq<Op>, stitches: seq<nat>, ofs: int) returns (r: seq<Op>)
    requires forall k :: 0 <= k < |stitches| ==> stitches[k] < |offsets| && offsets[stitches[k]] == ofs
    ensures r == plan + Returns(offsets, stitches)
  {
    r := plan;
    for k := 0 to |stitches|
      invariant r == plan + Returns(offsets, stitches[..k])
    {
      assert Returns(offsets, stitches[..k + 1]) == Returns(offsets, stitches[..k]) + [ToFront(stitches[k], ofs)];
      r := r + [ToFront(stitches[k], ofs)];
    }
    assert stitches[..|stitches|] == stitches;
  }

  lemma ToBacksAppend(a: seq<nat>, b: seq<nat>)
    ensures ToBacks(a + b) == ToBacks(a) + ToBacks(b)
  {
  }

  lemma ReturnsAppend(offsets: seq<int>, a: seq<nat>, b: seq<nat>)
    requires Within(offsets, a) && Within(offsets, b)
    ensures Within(offsets, a + b) && Returns(offsets, a + b) == Returns(offsets, a) + Returns(offsets, b)
  {
  }

  /** +1/0 to back, return at +1, return at 0. */
  method EmitOne(offsets: seq<int>, s: Sorting) returns (plan: seq<Op>)
    requires SignsAgree(offsets, s)
    ensures Within(offsets, PassOne(s)) && plan == Pass(offsets, PassOne(s))
  {
    PassesWithin(offsets, s);
    plan := SendBack([], s.plusFirst.plus);
    plan := SendBack(plan, s.plusFirst.zero);
    plan := Return(offsets, plan, s.plusFirst.plus, 1);
    plan := Return(offsets, plan, s.plusFirst.zero, 0);
    ToBacksAppend(s.plusFirst.plus, s.plusFirst.zero);
    ReturnsAppend(offsets, s.plusFirst.plus, s.plusFirst.zero);
  }

  /** -1/0 to back, return at -1, return at 0. */
  method EmitTwo(offsets: seq<int>, s: Sorting, start: seq<Op>) returns (plan: seq<Op>)
    requires SignsAgree(offsets, s)
    ensures Within(offsets, PassTwo(s)) && plan == start + Pass(offsets, PassTwo(s))
  {
    PassesWithin(offsets, s);
    var backs := SendBackTwo(s, start);
    plan := ReturnTwo(offsets, s, backs);
    assert plan == start + (ToBacks(PassTwo(s)) + Returns(offsets, PassTwo(s)));
  }

  method SendBackTwo(s: Sorting, start: seq<Op>) returns (plan: seq<Op>)
    ensures plan == start + ToBacks(PassTwo(s))
  {
    plan := SendBack(start, s.minusFirst.minus);
    plan := SendBack(plan, s.zeroFirst.minus);
    plan := SendBack(plan, s.plusFirst.minus);
    plan := SendBack(plan, s.minusFirst.zero);
    TwoBacks(s);
  }

  method ReturnTwo(offsets: seq<int>, s: Sorting, start: seq<Op>) returns (plan: seq<Op>)
    requires SignsAgree(offsets, s)
    ensures Within(offsets, PassTwo(s)) && plan == start + Returns(offsets, PassTwo(s))
  {
    plan := Return(offsets, start, s.minusFirst.minus, -1);
    plan := Return(offsets, plan, s.zeroFirst.minus, -1);
    plan := Return(offsets, plan, s.plusFirst.minus, -1);
    plan := Return(offsets, plan, s.minusFirst.zero, 0);
    TwoReturns(offsets, s);
  }

  /** +1 to back, return at +1. */
  method EmitThree(offsets: seq<int>, s: Sorting, start: seq<Op>) returns (plan: seq<Op>)
    requires SignsAgree(offsets, s)
    ensures Within(offsets, PassThree(s)) && plan == start + Pass(offsets, PassThree(s))
  {
    PassesWithin(offsets, s);
    plan := SendBack(start, s.minusFirst.plus);
    plan := SendBack(plan, s.zeroFirst.plus);
    plan := Return(offsets, plan, s.minusFirst.plus, 1);
    plan := Return(offsets, plan, s.zeroFirst.plus, 1);
    ToBacksAppend(s.minusFirst.plus, s.zeroFirst.plus);
    ReturnsAppend(offsets, s.minusFirst.plus, s.zeroFirst.plus);
  }

  /** The eight passes of the source, in its order. */
  method Emit(offsets: seq<int>, s: Sorting) returns (plan: seq<Op>)
    requires SignsAgree(offsets, s)
    ensures plan == PlanOf(offsets, s)
  {
    plan := EmitOne(offsets, s);
    plan := EmitTwo(offsets, s, plan);
    plan := EmitThree(offsets, s, plan);
  }

  lemma TwoBacks(s: Sorting)
    ensures ToBacks(PassTwo(s))
      == ToBacks(s.minusFirst.minus) + ToBacks(s.zeroFirst.minus) + ToBacks(s.plusFirst.minus) + ToBacks(s.minusFirst.zero)
  {
    var a, b, c, d := s.minusFirst.minus, s.zeroFirst.minus, s.plusFirst.minus, s.minusFirst.zero;
    ToBacksAppend(a, b);
    ToBacksAppend(a + b, c);
    ToBacksAppend(a + b + c, d);
  }

  lemma TwoReturns(offsets: seq<int>, s: Sorting)
    requires SignsAgree(offsets, s)
    ensures Within(offsets, PassTwo(s))
    ensures Returns(offsets, PassTwo(s))
      == Returns(offsets, s.minusFirst.minus) + Returns(offsets, s.zeroFirst.minus)
       + Returns(offsets, s.plusFirst.minus) + Returns(offsets, s.minusFirst.zero)
  {
    PassesWithin(offsets, s);
    var a, b, c, d := s.minusFirst.minus, s.zeroFirst.minus, s.plusFirst.minus, s.minusFirst.zero;
    ReturnsAppend(offsets, a, b);
    ReturnsAppend(offsets, a + b, c);
    ReturnsAppend(offsets, a + b + c, d);
  }

  /** lace_transfers: checks the input, sorts the blocks and emits the eight passes. */
  method Lace(offsets: seq<int>, firsts: seq<bool>) returns (r: Result<seq<Op>, string>)
    ensures r == LaceResult(offsets, firsts)
  {
    var err := CheckInputs(offsets, firsts);
    if err.Some? {
      return Err(err.value);
    }
    var sorted := SortBlocks(offsets, firsts);
    if sorted.Err? {
      return Err(sorted.error);
    }
    ValidFacts(offsets, firsts);
    SortedSigns(offsets, firsts, |offsets|);
    var plan := Emit(offsets, sorted.value);
    return Ok(plan);
  }
}
