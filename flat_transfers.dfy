/**
 * flat_transfers: transfers for cable-free offsets where the stacking order
 * of decreases matters.  The slidery school bus plans one round of passes:
 * every stitch is filed into a regular pass (its offset, or a shift that only
 * makes room) or parked on a slider and returned later, and the passes run
 * from the largest offset to the smallest.  Rounds repeat until every offset
 * is zero.  The '+' direction is the '-' direction on the mirrored bed.
 */
module FlatTransfers {
  import opened Knit

  datatype Direction = Plus | Minus

  /**
   * Where one round files a stitch: a regular pass that moves it by ofs, or
   * a slider pass by ofs followed by a return of ret needles.
   */
  datatype Assign = Regular(ofs: int) | Slider(ofs: int, ret: nat)

  /** How far an assignment moves its stitch in the round. */
  function Move(x: Assign): int
  {
    match x
    case Regular(ofs) => ofs
    case Slider(ofs, ret) => ofs + ret
  }

  /** The planner's state after a block: the rightmost needle and slider in use; None is minus infinity. */
  datatype Planned = Planned(block: seq<Assign>, prevNeedle: Option<int>, prevSlider: Option<int>)

  /** Strictly left of x, where None lies left of everything. */
  predicate Below(p: Option<int>, x: int)
  {
    p.None? || p.value < x
  }

  /**
   * The shift that makes room when a stitch's target is already taken.  The
   * source computes at[i] - (prevNeedle + 1); the evident intent, stated by
   * the assertions after it, is the shift that lands on prevNeedle + 1.
   */
  datatype ShiftRule = AsWritten | Corrected

  function ShiftBy(rule: ShiftRule, at: int, prevNeedle: int): int
  {
    match rule
    case AsWritten => at - (prevNeedle + 1)
    case Corrected => prevNeedle + 1 - at
  }

  /** With the corrected rule the shift does what the source asserts: it passes the target and lands right of prevNeedle. */
  lemma CorrectedShiftMakesRoom(at: int, ofs: int, prevNeedle: int)
    requires prevNeedle >= at + ofs
    ensures ShiftBy(Corrected, at, prevNeedle) > ofs
    ensures at + ShiftBy(Corrected, at, prevNeedle) == prevNeedle + 1
  {
  }

  /** The rule as written breaks the first of those assertions (stitch at needle 3, offset -1, needle 3 in use). */
  lemma AsWrittenShiftFailsAssertion()
    ensures 3 >= 3 + -1 && !(ShiftBy(AsWritten, 3, 3) > -1)
  {
  }

  const Unsupported41 := "4-1 decreases are not supported by this code."
  const NotStacked := "stacked stitches should be all-the-way stacked."
  const NotAtZero := "stacked stitches should be at zero."
  const NotNeighbours := "stitches are left-to-right neighbors"
  const OutOfOrder := "Assertion failed"
  const ShovesDone := "shouldn't shove 'done' stitches"
  const NoSuchPass := "TypeError: regularPasses[ofs-minOffset] is undefined"
  const OutOfRounds := "sliderySchoolbus did not finish within its round bound"

  /** The needle stitch k is headed for. */
  function Dest(at: seq<int>, offsets: seq<int>, k: int): int
    requires |at| == |offsets| && 0 <= k < |offsets|
  {
    at[k] + offsets[k]
  }

  /** A shifted block: every stitch of it moves by the shift, which must name an existing pass. */
  function Shifted(rule: ShiftRule, minOffset: int, maxOffset: int, at: int, prevNeedle: int, len: nat, last: int,
                   prevSlider: Option<int>): Result<Planned, string>
  {
    var ofs := ShiftBy(rule, at, prevNeedle);
    if !(minOffset <= ofs <= maxOffset) then Err(NoSuchPass)
    else Ok(Planned(seq(len, _ => Regular(ofs)), Some(last + ofs), prevSlider))
  }

  /** A 3-1 decrease at i: three stitches with one target. */
  function Triple(at: seq<int>, offsets: seq<int>, firsts: seq<bool>, minOffset: int, maxOffset: int, rule: ShiftRule,
                  i: nat, prevNeedle: Option<int>, prevSlider: Option<int>): Result<Planned, string>
    requires |at| == |offsets| == |firsts| && i + 2 < |offsets|
  {
    var n := |offsets|;
    var t := Dest(at, offsets, i);
    if !(i + 3 >= n || t < Dest(at, offsets, i + 3)) then Err(Unsupported41)
    else if at[i] == at[i + 1] || at[i] == at[i + 2] || at[i + 1] == at[i + 2] then
      if !(at[i] == at[i + 1] && at[i + 1] == at[i + 2]) then Err(NotStacked)
      else if !(offsets[i] == 0 && offsets[i + 1] == 0 && offsets[i + 2] == 0) then Err(NotAtZero)
      else if !Below(prevNeedle, at[i]) then Err(OutOfOrder)
      else Ok(Planned([Regular(0), Regular(0), Regular(0)], Some(at[i]), prevSlider))
    else if !(at[i] + 1 == at[i + 1] && at[i + 1] + 1 == at[i + 2]) then Err(NotNeighbours)
    else if !Below(prevNeedle, t) then
      Shifted(rule, minOffset, maxOffset, at[i], prevNeedle.value, 3, at[i + 2], prevSlider)
    else if (!firsts[i] && !firsts[i + 1] && !firsts[i + 2]) || firsts[i] then
      Ok(Planned([Regular(offsets[i]), Regular(offsets[i + 1]), Regular(offsets[i + 2])], Some(t), prevSlider))
    else if firsts[i + 1] then
      Ok(Planned([Slider(offsets[i + 1], 1), Regular(offsets[i + 1]), Regular(offsets[i + 2])],
        Some(t), Some(offsets[i + 1] + at[i])))
    else if !Below(prevSlider, offsets[i + 2] + at[i]) then
      Ok(Planned([Regular(offsets[i]), Regular(offsets[i]), Regular(offsets[i])], Some(at[i + 2] + offsets[i]), prevSlider))
    else
      Ok(Planned([Slider(offsets[i + 2], 2), Slider(offsets[i + 2], 1), Regular(offsets[i + 2])],
        Some(t), Some(offsets[i + 2] + at[i + 1])))
  }

  /** A 2-1 decrease at i. */
  function Pair(at: seq<int>, offsets: seq<int>, firsts: seq<bool>, minOffset: int, maxOffset: int, rule: ShiftRule,
                i: nat, prevNeedle: Option<int>, prevSlider: Option<int>): Result<Planned, string>
    requires |at| == |offsets| == |firsts| && i + 1 < |offsets|
  {
    var t := Dest(at, offsets, i);
    if at[i] == at[i + 1] then
      if !(offsets[i] == 0 && offsets[i + 1] == 0) then Err(NotAtZero)
      else if !Below(prevNeedle, t) then Err(OutOfOrder)
      else Ok(Planned([Regular(0), Regular(0)], Some(t), prevSlider))
    else if at[i] + 1 != at[i + 1] then Err(NotNeighbours)
    else if !Below(prevNeedle, t) then
      Shifted(rule, minOffset, maxOffset, at[i], prevNeedle.value, 2, at[i + 1], prevSlider)
    else if firsts[i] == firsts[i + 1] || firsts[i] then
      Ok(Planned([Regular(offsets[i]), Regular(offsets[i + 1])], Some(t), prevSlider))
    else
      Ok(Planned([Slider(offsets[i + 1], 1), Regular(offsets[i + 1])], Some(t), Some(offsets[i + 1] + at[i])))
  }

  /** A stitch that is no decrease. */
  function Single(at: seq<int>, offsets: seq<int>, minOffset: int, maxOffset: int, rule: ShiftRule,
                  i: nat, prevNeedle: Option<int>, prevSlider: Option<int>): Result<Planned, string>
    requires |at| == |offsets| && i < |offsets|
  {
    if !Below(prevNeedle, Dest(at, offsets, i)) then
      if offsets[i] == 0 then Err(ShovesDone)
      else Shifted(rule, minOffset, maxOffset, at[i], prevNeedle.value, 1, at[i], prevSlider)
    else Ok(Planned([Regular(offsets[i])], prevNeedle, prevSlider))
  }

  predicate IsTriple(at: seq<int>, offsets: seq<int>, i: nat)
    requires |at| == |offsets|
  {
    i + 2 < |offsets| && Dest(at, offsets, i) == Dest(at, offsets, i + 1) && Dest(at, offsets, i) == Dest(at, offsets, i + 2)
  }

  predicate IsPair(at: seq<int>, offsets: seq<int>, i: nat)
    requires |at| == |offsets|
  {
    i + 1 < |offsets| && Dest(at, offsets, i) == Dest(at, offsets, i + 1)
  }

  /** The block starting at stitch i: a 3-1 decrease, a 2-1 decrease, or one stitch. */
  function Block(at: seq<int>, offsets: seq<int>, firsts: seq<bool>, minOffset: int, maxOffset: int, rule: ShiftRule,
                 i: nat, prevNeedle: Option<int>, prevSlider: Option<int>): (r: Result<Planned, string>)
    requires |at| == |offsets| == |firsts| && i < |offsets|
    ensures r.Ok? ==> |r.value.block| == (if IsTriple(at, offsets, i) then 3 else if IsPair(at, offsets, i) then 2 else 1)
  {
    if IsTriple(at, offsets, i) then Triple(at, offsets, firsts, minOffset, maxOffset, rule, i, prevNeedle, prevSlider)
    else if IsPair(at, offsets, i) then Pair(at, offsets, firsts, minOffset, maxOffset, rule, i, prevNeedle, prevSlider)
    else Single(at, offsets, minOffset, maxOffset, rule, i, prevNeedle, prevSlider)
  }

  /** The planning loop from stitch i on: one assignment per stitch, or the first failure. */
  function PlanFrom(at: seq<int>, offsets: seq<int>, firsts: seq<bool>, minOffset: int, maxOffset: int, rule: ShiftRule,
                    i: nat, prevNeedle: Option<int>, prevSlider: Option<int>): (r: Result<seq<Assign>, string>)
    requires |at| == |offsets| == |firsts| && i <= |offsets|
    ensures r.Ok? ==> |r.value| == |offsets| - i
    decreases |offsets| - i
  {
    if i == |offsets| then Ok([])
    else match Block(at, offsets, firsts, minOffset, maxOffset, rule, i, prevNeedle, prevSlider)
      case Err(e) => Err(e)
      case Ok(p) =>
        match PlanFrom(at, offsets, firsts, minOffset, maxOffset, rule, i + |p.block|, p.prevNeedle, p.prevSlider)
        case Err(e) => Err(e)
        case Ok(rest) => Ok(p.block + rest)
  }

  // ---------------------------------------------------------------------
  // What a plan guarantees

  /** Every offset lies in [minOffset, maxOffset]. */
  predicate Within(offsets: seq<int>, minOffset: int, maxOffset: int)
  {
    forall k :: 0 <= k < |offsets| ==> minOffset <= offsets[k] <= maxOffset
  }

  /**
   * An assignment for stitch k names an existing pass, and a slider
   * assignment returns the stitch exactly the rest of its offset, by 1 or 2.
   */
  predicate Sound(offsets: seq<int>, minOffset: int, maxOffset: int, k: int, x: Assign)
    requires 0 <= k < |offsets|
  {
    minOffset <= x.ofs <= maxOffset
    && (x.Slider? ==> 1 <= x.ret <= 2 && offsets[k] == x.ofs + x.ret)
  }

  /** A planned block starting at stitch i, if there is one, assigns every stitch of it soundly. */
  predicate BlockIsSound(offsets: seq<int>, minOffset: int, maxOffset: int, i: nat, r: Result<Planned, string>)
  {
    r.Ok? ==> (i + |r.value.block| <= |offsets|
      && forall j :: 0 <= j < |r.value.block| ==> Sound(offsets, minOffset, maxOffset, i + j, r.value.block[j]))
  }

  lemma ShiftedSound(offsets: seq<int>, minOffset: int, maxOffset: int, rule: ShiftRule, i: nat, at: int, prevNeedle: int,
                     len: nat, last: int, prevSlider: Option<int>)
    requires i + len <= |offsets|
    ensures BlockIsSound(offsets, minOffset, maxOffset, i, Shifted(rule, minOffset, maxOffset, at, prevNeedle, len, last, prevSlider))
  {
  }

  lemma TripleSound(at: seq<int>, offsets: seq<int>, firsts: seq<bool>, minOffset: int, maxOffset: int, rule: ShiftRule,
                    i: nat, prevNeedle: Option<int>, prevSlider: Option<int>)
    requires |at| == |offsets| == |firsts| && i + 2 < |offsets| && Within(offsets, minOffset, maxOffset)
    requires IsTriple(at, offsets, i)
    ensures BlockIsSound(offsets, minOffset, maxOffset, i, Triple(at, offsets, firsts, minOffset, maxOffset, rule, i, prevNeedle, prevSlider))
  {
    if prevNeedle.Some? {
      ShiftedSound(offsets, minOffset, maxOffset, rule, i, at[i], prevNeedle.value, 3, at[i + 2], prevSlider);
    }
    assert minOffset <= offsets[i] <= maxOffset && minOffset <= offsets[i + 1] <= maxOffset && minOffset <= offsets[i + 2] <= maxOffset;
  }

  lemma PairSound(at: seq<int>, offsets: seq<int>, firsts: seq<bool>, minOffset: int, maxOffset: int, rule: ShiftRule,
                  i: nat, prevNeedle: Option<int>, prevSlider: Option<int>)
    requires |at| == |offsets| == |firsts| && i + 1 < |offsets| && Within(offsets, minOffset, maxOffset)
    requires IsPair(at, offsets, i)
    ensures BlockIsSound(offsets, minOffset, maxOffset, i, Pair(at, offsets, firsts, minOffset, maxOffset, rule, i, prevNeedle, prevSlider))
  {
    if prevNeedle.Some? {
      ShiftedSound(offsets, minOffset, maxOffset, rule, i, at[i], prevNeedle.value, 2, at[i + 1], prevSlider);
    }
    assert minOffset <= offsets[i] <= maxOffset && minOffset <= offsets[i + 1] <= maxOffset;
  }

  lemma SingleSound(at: seq<int>, offsets: seq<int>, minOffset: int, maxOffset: int, rule: ShiftRule,
                    i: nat, prevNeedle: Option<int>, prevSlider: Option<int>)
    requires |at| == |offsets| && i < |offsets| && Within(offsets, minOffset, maxOffset)
    ensures BlockIsSound(offsets, minOffset, maxOffset, i, Single(at, offsets, minOffset, maxOffset, rule, i, prevNeedle, prevSlider))
  {
    if prevNeedle.Some? {
      ShiftedSound(offsets, minOffset, maxOffset, rule, i, at[i], prevNeedle.value, 1, at[i], prevSlider);
    }
    assert minOffset <= offsets[i] <= maxOffset;
  }

  lemma BlockSound(at: seq<int>, offsets: seq<int>, firsts: seq<bool>, minOffset: int, maxOffset: int, rule: ShiftRule,
                   i: nat, prevNeedle: Option<int>, prevSlider: Option<int>)
    requires |at| == |offsets| == |firsts| && i < |offsets| && Within(offsets, minOffset, maxOffset)
    ensures BlockIsSound(offsets, minOffset, maxOffset, i, Block(at, offsets, firsts, minOffset, maxOffset, rule, i, prevNeedle, prevSlider))
  {
    if IsTriple(at, offsets, i) {
      TripleSound(at, offsets, firsts, minOffset, maxOffset, rule, i, prevNeedle, prevSlider);
    } else if IsPair(at, offsets, i) {
      PairSound(at, offsets, firsts, minOffset, maxOffset, rule, i, prevNeedle, prevSlider);
    } else {
      SingleSound(at, offsets, minOffset, maxOffset, rule, i, prevNeedle, prevSlider);
    }
  }

  /** Every assignment of a successful plan is sound. */
  lemma {:induction false} PlanSound(at: seq<int>, offsets: seq<int>, firsts: seq<bool>, minOffset: int, maxOffset: int,
                                     rule: ShiftRule, i: nat, prevNeedle: Option<int>, prevSlider: Option<int>)
    requires |at| == |offsets| == |firsts| && i <= |offsets| && Within(offsets, minOffset, maxOffset)
    ensures SoundFrom(offsets, minOffset, maxOffset, i, PlanFrom(at, offsets, firsts, minOffset, maxOffset, rule, i, prevNeedle, prevSlider))
    decreases |offsets| - i
  {
    if i < |offsets| {
      var b := Block(at, offsets, firsts, minOffset, maxOffset, rule, i, prevNeedle, prevSlider);
      if b.Ok? {
        PlanSound(at, offsets, firsts, minOffset, maxOffset, rule, i + |b.value.block|, b.value.prevNeedle, b.value.prevSlider);
      }
      PlanStepSound(at, offsets, firsts, minOffset, maxOffset, rule, i, prevNeedle, prevSlider);
    }
  }

  /** If the plan after the block at i is sound, so is the plan from i. */
  lemma PlanStepSound(at: seq<int>, offsets: seq<int>, firsts: seq<bool>, minOffset: int, maxOffset: int,
                      rule: ShiftRule, i: nat, prevNeedle: Option<int>, prevSlider: Option<int>)
    requires |at| == |offsets| == |firsts| && i < |offsets| && Within(offsets, minOffset, maxOffset)
    requires var b := Block(at, offsets, firsts, minOffset, maxOffset, rule, i, prevNeedle, prevSlider);
      b.Ok? ==> (i + |b.value.block| <= |offsets|
        && SoundFrom(offsets, minOffset, maxOffset, i + |b.value.block|,
             PlanFrom(at, offsets, firsts, minOffset, maxOffset, rule, i + |b.value.block|, b.value.prevNeedle, b.value.prevSlider)))
    ensures SoundFrom(offsets, minOffset, maxOffset, i, PlanFrom(at, offsets, firsts, minOffset, maxOffset, rule, i, prevNeedle, prevSlider))
  {
    var b := Block(at, offsets, firsts, minOffset, maxOffset, rule, i, prevNeedle, prevSlider);
    BlockSound(at, offsets, firsts, minOffset, maxOffset, rule, i, prevNeedle, prevSlider);
    if b.Ok? {
      PlanFromBlock(at, offsets, firsts, minOffset, maxOffset, rule, i, prevNeedle, prevSlider, b.value);
      SoundPrepend(offsets, minOffset, maxOffset, i, b,
        PlanFrom(at, offsets, firsts, minOffset, maxOffset, rule, i + |b.value.block|, b.value.prevNeedle, b.value.prevSlider));
    } else {
      assert PlanFrom(at, offsets, firsts, minOffset, maxOffset, rule, i, prevNeedle, prevSlider) == Err(b.error);
    }
  }

  /** A plan from stitch i, if there is one, assigns every stitch from i on soundly. */
  predicate SoundFrom(offsets: seq<int>, minOffset: int, maxOffset: int, i: nat, r: Result<seq<Assign>, string>)
  {
    r.Ok? ==> (i + |r.value| <= |offsets|
      && forall j :: 0 <= j < |r.value| ==> Sound(offsets, minOffset, maxOffset, i + j, r.value[j]))
  }

  /** A sound block followed by a sound plan for what comes after it. */
  lemma SoundPrepend(offsets: seq<int>, minOffset: int, maxOffset: int, i: nat, b: Result<Planned, string>, rest: Result<seq<Assign>, string>)
    requires b.Ok? && BlockIsSound(offsets, minOffset, maxOffset, i, b)
    requires SoundFrom(offsets, minOffset, maxOffset, i + |b.value.block|, rest)
    ensures SoundFrom(offsets, minOffset, maxOffset, i, Prepend(b.value.block, rest))
  {
    if rest.Ok? {
      var block := b.value.block;
      var r: Result<seq<Assign>, string> := Ok(block + rest.value);
      forall j | 0 <= j < |r.value|
        ensures Sound(offsets, minOffset, maxOffset, i + j, r.value[j])
      {
        if j >= |block| {
          var k := j - |block|;
          assert Sound(offsets, minOffset, maxOffset, i + |block| + k, rest.value[k]);
          assert i + |block| + k == i + j && r.value[j] == rest.value[k];
        } else {
          assert Sound(offsets, minOffset, maxOffset, i + j, block[j]);
          assert r.value[j] == block[j];
        }
      }
      assert SoundFrom(offsets, minOffset, maxOffset, i, r);
      assert Prepend(block, rest) == r;
    }
  }

  /** The planner keeps its rightmost slider strictly left of its rightmost needle. */
  predicate SliderLeft(prevNeedle: Option<int>, prevSlider: Option<int>)
  {
    prevSlider.None? || (prevNeedle.Some? && prevSlider.value < prevNeedle.value)
  }

  /** With the corrected shift every block keeps the slider left of the needles. */
  lemma BlockKeepsSliderLeft(at: seq<int>, offsets: seq<int>, firsts: seq<bool>, minOffset: int, maxOffset: int,
                             i: nat, prevNeedle: Option<int>, prevSlider: Option<int>)
    requires |at| == |offsets| == |firsts| && i < |offsets| && SliderLeft(prevNeedle, prevSlider)
    ensures var r := Block(at, offsets, firsts, minOffset, maxOffset, Corrected, i, prevNeedle, prevSlider);
      r.Ok? ==> SliderLeft(r.value.prevNeedle, r.value.prevSlider)
  {
  }

  // ---------------------------------------------------------------------
  // The passes of one round

  /** Which bucket of the source a stitch is pushed to. */
  datatype Pick = RegularAt(k: int) | SliderAt(k: int) | ReturnAt(r: int)

  predicate Picks(s: Pick, x: Assign)
  {
    match s
    case RegularAt(k) => x == Regular(k)
    case SliderAt(k) => x.Slider? && x.ofs == k
    case ReturnAt(r) => x.Slider? && x.ret == r
  }

  predicate Increasing(idx: seq<nat>)
  {
    forall s, t :: 0 <= s < t < |idx| ==> idx[s] < idx[t]
  }

  /** The bucket: the stitches filed there, in the order they were pushed. */
  function Members(a: seq<Assign>, s: Pick): (idx: seq<nat>)
    ensures forall t :: 0 <= t < |idx| ==> idx[t] < |a|
  {
    if a == [] then [] else Members(a[..|a| - 1], s) + (if Picks(s, a[|a| - 1]) then [|a| - 1] else [])
  }

  /** A bucket lists its stitches left to right, each once. */
  lemma {:induction false} MembersIncreasing(a: seq<Assign>, s: Pick)
    ensures Increasing(Members(a, s))
    decreases |a|
  {
    if a != [] {
      var front := Members(a[..|a| - 1], s);
      MembersIncreasing(a[..|a| - 1], s);
      var idx := Members(a, s);
      assert idx == front + (if Picks(s, a[|a| - 1]) then [|a| - 1] else []);
      forall x, y | 0 <= x < y < |idx| ensures idx[x] < idx[y] {
        if y >= |front| {
          assert idx[y] == |a| - 1;
          assert idx[x] == front[x];
        }
      }
    }
  }

  lemma MembersSnoc(a: seq<Assign>, x: Assign, s: Pick)
    ensures Members(a + [x], s) == Members(a, s) + if Picks(s, x) then [|a|] else []
  {
    assert (a + [x])[..|a|] == a;
  }

  lemma {:induction false} MembersIn(a: seq<Assign>, s: Pick, j: int)
    ensures j in Members(a, s) <==> 0 <= j < |a| && Picks(s, a[j])
  {
    if a != [] {
      MembersIn(a[..|a| - 1], s, j);
    }
  }

  /** One pass: each listed stitch from fromBed at its needle to toBed, ofs needles over. */
  function Pass(at: seq<int>, idx: seq<nat>, fromBed: Bed, toBed: Bed, ofs: int): (ops: seq<Op>)
    requires forall t :: 0 <= t < |idx| ==> idx[t] < |at|
    ensures |ops| == |idx|
  {
    seq(|idx|, t requires 0 <= t < |idx| => Xfer(fromBed, at[idx[t]], toBed, at[idx[t]] + ofs))
  }

  /** The pass over the stitches pick s collects, left to right: one transfer per picked stitch. */
  function PickedPass(at: seq<int>, a: seq<Assign>, s: Pick, fromBed: Bed, toBed: Bed, ofs: int): seq<Op>
    requires |a| <= |at|
  {
    if a == [] then []
    else
      var i := |a| - 1;
      PickedPass(at, a[..i], s, fromBed, toBed, ofs) + if Picks(s, a[i]) then [Xfer(fromBed, at[i], toBed, at[i] + ofs)] else []
  }

  /** A pass over the bucket the plan fills for s is the pass over the stitches s picks. */
  lemma {:induction false} PickedPassMembers(at: seq<int>, a: seq<Assign>, s: Pick, fromBed: Bed, toBed: Bed, ofs: int)
    requires |a| <= |at|
    ensures Pass(at, Members(a, s), fromBed, toBed, ofs) == PickedPass(at, a, s, fromBed, toBed, ofs)
    decreases |a|
  {
    if a != [] {
      var i := |a| - 1;
      var front := Members(a[..i], s);
      PickedPassMembers(at, a[..i], s, fromBed, toBed, ofs);
      if Picks(s, a[i]) {
        assert Pass(at, front + [i], fromBed, toBed, ofs)
          == Pass(at, front, fromBed, toBed, ofs) + [Xfer(fromBed, at[i], toBed, at[i] + ofs)];
      } else {
        assert Members(a, s) == front + [] == front;
      }
    }
  }

  /** A pass over picked stitches between two beds a transfer may join is made of allowed transfers only. */
  lemma {:induction false} PickedPassAllowed(at: seq<int>, a: seq<Assign>, s: Pick, fromBed: Bed, toBed: Bed, ofs: int)
    requires |a| <= |at|
    requires AllowedPair(Xfer(fromBed, 0, toBed, 0))
    ensures AllAllowed(PickedPass(at, a, s, fromBed, toBed, ofs))
    decreases |a|
  {
    if a != [] {
      var i := |a| - 1;
      PickedPassAllowed(at, a[..i], s, fromBed, toBed, ofs);
      AllowedConcat(PickedPass(at, a[..i], s, fromBed, toBed, ofs),
        if Picks(s, a[i]) then [Xfer(fromBed, at[i], toBed, at[i] + ofs)] else []);
    }
  }

  /** When the zero pass is also the first pass its stitches stay where they are. */
  predicate Skipped(maxOffset: int, ofs: int)
  {
    ofs == 0 && ofs == maxOffset
  }

  /** Every filed stitch to the back, from the largest offset down to ofs = lo. */
  function Lifts(at: seq<int>, a: seq<Assign>, minOffset: int, maxOffset: int, ofs: int): seq<Op>
    requires |at| == |a|
    decreases ofs - minOffset + 1
  {
    if ofs < minOffset then []
    else
      (if Skipped(maxOffset, ofs) then [] else PickedPass(at, a, RegularAt(ofs), F, B, 0))
      + PickedPass(at, a, SliderAt(ofs), F, B, 0)
      + Lifts(at, a, minOffset, maxOffset, ofs - 1)
  }

  /** The drops, from the largest offset down: first to the sliders, then to the needles. */
  function Drops(at: seq<int>, a: seq<Assign>, minOffset: int, maxOffset: int, ofs: int): seq<Op>
    requires |at| == |a|
    decreases ofs - minOffset + 1
  {
    if ofs < minOffset then []
    else
      PickedPass(at, a, SliderAt(ofs), B, FS, ofs)
      + (if Skipped(maxOffset, ofs) then [] else PickedPass(at, a, RegularAt(ofs), B, F, ofs))
      + Drops(at, a, minOffset, maxOffset, ofs - 1)
  }

  /** Where the drops leave each stitch. */
  function Dropped(at: seq<int>, a: seq<Assign>): (mid: seq<int>)
    requires |at| == |a|
    ensures |mid| == |at|
  {
    seq(|at|, k requires 0 <= k < |at| => at[k] + a[k].ofs)
  }

  /** The slider stitches back to the back bed, then onto their stacks. */
  function Returns(mid: seq<int>, a: seq<Assign>): seq<Op>
    requires |mid| == |a|
  {
    PickedPass(mid, a, ReturnAt(1), FS, B, 0) + PickedPass(mid, a, ReturnAt(2), FS, B, 0)
    + PickedPass(mid, a, ReturnAt(1), B, F, 1) + PickedPass(mid, a, ReturnAt(2), B, F, 2)
  }

  /** All transfers of one round. */
  function RoundOps(at: seq<int>, a: seq<Assign>, minOffset: int, maxOffset: int): seq<Op>
    requires |at| == |a|
  {
    Lifts(at, a, minOffset, maxOffset, maxOffset) + Drops(at, a, minOffset, maxOffset, maxOffset)
    + Returns(Dropped(at, a), a)
  }

  function NextAt(at: seq<int>, a: seq<Assign>): (at': seq<int>)
    requires |at| == |a|
    ensures |at'| == |at|
  {
    seq(|at|, k requires 0 <= k < |at| => at[k] + Move(a[k]))
  }

  function NextOffsets(offsets: seq<int>, a: seq<Assign>): (offsets': seq<int>)
    requires |offsets| == |a|
    ensures |offsets'| == |offsets|
  {
    seq(|offsets|, k requires 0 <= k < |offsets| => offsets[k] - Move(a[k]))
  }

  /** A round moves each stitch towards its target without changing the target. */
  lemma RoundKeepsTargets(at: seq<int>, offsets: seq<int>, a: seq<Assign>)
    requires |at| == |offsets| == |a|
    ensures forall k :: 0 <= k < |at| ==> NextAt(at, a)[k] + NextOffsets(offsets, a)[k] == at[k] + offsets[k]
  {
  }

  /** A stitch parked on a slider is on its final stack once returned. */
  lemma SlidersFinish(offsets: seq<int>, minOffset: int, maxOffset: int, a: seq<Assign>, k: int)
    requires |offsets| == |a| && 0 <= k < |a| && a[k].Slider? && Sound(offsets, minOffset, maxOffset, k, a[k])
    ensures NextOffsets(offsets, a)[k] == 0
  {
  }

  // ---------------------------------------------------------------------
  // Sliders are never shared within a round

  /** Where an assignment parks stitch k on the sliders. */
  function Parked(at: seq<int>, i: nat, block: seq<Assign>, j: int): int
    requires 0 <= j < |block| && i + j < |at|
  {
    at[i + j] + block[j].ofs
  }

  /** Every slider of block (which starts at stitch i) lies right of prevSlider. */
  predicate SlidersAbove(at: seq<int>, i: nat, block: seq<Assign>, prevSlider: Option<int>)
    requires i + |block| <= |at|
  {
    forall j :: 0 <= j < |block| && block[j].Slider? ==> Below(prevSlider, Parked(at, i, block, j))
  }

  /** The sliders of block lie strictly left to right, so no two stitches share one. */
  predicate SlidersIncreasing(at: seq<int>, i: nat, block: seq<Assign>)
    requires i + |block| <= |at|
  {
    forall j, k :: 0 <= j < k < |block| && block[j].Slider? && block[k].Slider? ==>
      Parked(at, i, block, j) < Parked(at, i, block, k)
  }

  /** None, or a value no larger than that of q. */
  predicate AtMost(p: Option<int>, q: Option<int>)
  {
    p.None? || (q.Some? && p.value <= q.value)
  }

  /**
   * One block: its sliders are free (right of prevSlider), lie left to right,
   * and the new prevSlider covers them.  This is what the source's slider
   * assertions check.
   */
  lemma BlockSliders(at: seq<int>, offsets: seq<int>, firsts: seq<bool>, minOffset: int, maxOffset: int,
                     i: nat, prevNeedle: Option<int>, prevSlider: Option<int>)
    requires |at| == |offsets| == |firsts| && i < |offsets| && SliderLeft(prevNeedle, prevSlider)
    ensures BlockSlidersOk(at, i, prevSlider, Block(at, offsets, firsts, minOffset, maxOffset, Corrected, i, prevNeedle, prevSlider))
  {
    if IsTriple(at, offsets, i) {
      TripleSliders(at, offsets, firsts, minOffset, maxOffset, i, prevNeedle, prevSlider);
    } else if IsPair(at, offsets, i) {
      PairSliders(at, offsets, firsts, minOffset, maxOffset, i, prevNeedle, prevSlider);
    } else {
      SingleSliders(at, offsets, minOffset, maxOffset, i, prevNeedle, prevSlider);
    }
  }

  /** What BlockSliders promises about one planned block. */
  predicate BlockSlidersOk(at: seq<int>, i: nat, prevSlider: Option<int>, r: Result<Planned, string>)
  {
    r.Ok? ==>
      i + |r.value.block| <= |at|
      && SlidersAbove(at, i, r.value.block, prevSlider)
      && SlidersIncreasing(at, i, r.value.block)
      && AtMost(prevSlider, r.value.prevSlider)
      && forall j :: 0 <= j < |r.value.block| && r.value.block[j].Slider? ==>
           r.value.prevSlider.Some? && Parked(at, i, r.value.block, j) <= r.value.prevSlider.value
  }

  /** A block of regular assignments only leaves the sliders alone. */
  lemma RegularsOk(at: seq<int>, i: nat, prevSlider: Option<int>, b: seq<Assign>, n: Option<int>)
    requires i + |b| <= |at| && forall j :: 0 <= j < |b| ==> b[j].Regular?
    ensures BlockSlidersOk(at, i, prevSlider, Ok(Planned(b, n, prevSlider)))
  {
  }

  lemma ShiftedSliders(at: seq<int>, minOffset: int, maxOffset: int, i: nat, a: int, prevNeedle: int, len: nat, last: int,
                       prevSlider: Option<int>)
    requires i + len <= |at|
    ensures BlockSlidersOk(at, i, prevSlider, Shifted(Corrected, minOffset, maxOffset, a, prevNeedle, len, last, prevSlider))
  {
    var ofs := ShiftBy(Corrected, a, prevNeedle);
    RegularsOk(at, i, prevSlider, seq(len, _ => Regular(ofs)), Some(last + ofs));
  }

  lemma SingleSliders(at: seq<int>, offsets: seq<int>, minOffset: int, maxOffset: int,
                      i: nat, prevNeedle: Option<int>, prevSlider: Option<int>)
    requires |at| == |offsets| && i < |offsets|
    ensures BlockSlidersOk(at, i, prevSlider, Single(at, offsets, minOffset, maxOffset, Corrected, i, prevNeedle, prevSlider))
  {
    if prevNeedle.Some? {
      ShiftedSliders(at, minOffset, maxOffset, i, at[i], prevNeedle.value, 1, at[i], prevSlider);
    }
    RegularsOk(at, i, prevSlider, [Regular(offsets[i])], prevNeedle);
  }

  lemma TripleSliders(at: seq<int>, offsets: seq<int>, firsts: seq<bool>, minOffset: int, maxOffset: int,
                      i: nat, prevNeedle: Option<int>, prevSlider: Option<int>)
    requires |at| == |offsets| == |firsts| && i + 2 < |offsets| && SliderLeft(prevNeedle, prevSlider)
    requires IsTriple(at, offsets, i)
    ensures BlockSlidersOk(at, i, prevSlider, Triple(at, offsets, firsts, minOffset, maxOffset, Corrected, i, prevNeedle, prevSlider))
  {
    if prevNeedle.Some? {
      ShiftedSliders(at, minOffset, maxOffset, i, at[i], prevNeedle.value, 3, at[i + 2], prevSlider);
    }
    RegularsOk(at, i, prevSlider, [Regular(0), Regular(0), Regular(0)], Some(at[i]));
    RegularsOk(at, i, prevSlider, [Regular(offsets[i]), Regular(offsets[i + 1]), Regular(offsets[i + 2])], Some(Dest(at, offsets, i)));
    RegularsOk(at, i, prevSlider, [Regular(offsets[i]), Regular(offsets[i]), Regular(offsets[i])], Some(at[i + 2] + offsets[i]));
    if at[i] + 1 == at[i + 1] && at[i + 1] + 1 == at[i + 2] && Below(prevNeedle, Dest(at, offsets, i)) {
      TripleSliderParks(at, offsets, i, prevNeedle, prevSlider);
    }
  }

  /** The two slider layouts of a 3-1 decrease whose stitches are neighbours. */
  lemma TripleSliderParks(at: seq<int>, offsets: seq<int>, i: nat, prevNeedle: Option<int>, prevSlider: Option<int>)
    requires |at| == |offsets| && i + 2 < |offsets| && IsTriple(at, offsets, i) && SliderLeft(prevNeedle, prevSlider)
    requires at[i] + 1 == at[i + 1] && at[i + 1] + 1 == at[i + 2] && Below(prevNeedle, Dest(at, offsets, i))
    ensures BlockSlidersOk(at, i, prevSlider,
      Ok(Planned([Slider(offsets[i + 1], 1), Regular(offsets[i + 1]), Regular(offsets[i + 2])],
        Some(Dest(at, offsets, i)), Some(offsets[i + 1] + at[i]))))
    ensures Below(prevSlider, offsets[i + 2] + at[i]) ==> BlockSlidersOk(at, i, prevSlider,
      Ok(Planned([Slider(offsets[i + 2], 2), Slider(offsets[i + 2], 1), Regular(offsets[i + 2])],
        Some(Dest(at, offsets, i)), Some(offsets[i + 2] + at[i + 1]))))
  {
  }

  lemma PairSliders(at: seq<int>, offsets: seq<int>, firsts: seq<bool>, minOffset: int, maxOffset: int,
                    i: nat, prevNeedle: Option<int>, prevSlider: Option<int>)
    requires |at| == |offsets| == |firsts| && i + 1 < |offsets| && SliderLeft(prevNeedle, prevSlider)
    requires IsPair(at, offsets, i)
    ensures BlockSlidersOk(at, i, prevSlider, Pair(at, offsets, firsts, minOffset, maxOffset, Corrected, i, prevNeedle, prevSlider))
  {
    if prevNeedle.Some? {
      ShiftedSliders(at, minOffset, maxOffset, i, at[i], prevNeedle.value, 2, at[i + 1], prevSlider);
    }
    RegularsOk(at, i, prevSlider, [Regular(0), Regular(0)], Some(Dest(at, offsets, i)));
    RegularsOk(at, i, prevSlider, [Regular(offsets[i]), Regular(offsets[i + 1])], Some(Dest(at, offsets, i)));
  }

  /** The sliders of a sequence of assignments starting at stitch i are free and never shared. */
  predicate SlidersFree(at: seq<int>, i: nat, a: seq<Assign>, prevSlider: Option<int>)
  {
    i + |a| <= |at| && SlidersAbove(at, i, a, prevSlider) && SlidersIncreasing(at, i, a)
  }

  lemma SlidersConcat(at: seq<int>, i: nat, block: seq<Assign>, rest: seq<Assign>, prevSlider: Option<int>,
                      nextSlider: Option<int>)
    requires SlidersFree(at, i, block, prevSlider) && SlidersFree(at, i + |block|, rest, nextSlider)
    requires AtMost(prevSlider, nextSlider)
    requires forall j :: 0 <= j < |block| && block[j].Slider? ==>
      nextSlider.Some? && Parked(at, i, block, j) <= nextSlider.value
    ensures SlidersFree(at, i, block + rest, prevSlider)
  {
    var a, m := block + rest, |block|;
    forall j | 0 <= j < |a| ensures a[j].Slider? ==> Below(prevSlider, Parked(at, i, a, j)) {
      if j >= m {
        assert a[j] == rest[j - m];
        assert Parked(at, i, a, j) == Parked(at, i + m, rest, j - m);
      } else {
        assert a[j] == block[j];
      }
    }
    forall j, k | 0 <= j < k < |a| && a[j].Slider? && a[k].Slider?
      ensures Parked(at, i, a, j) < Parked(at, i, a, k)
    {
      if k < m {
        assert a[j] == block[j] && a[k] == block[k];
      } else if j >= m {
        assert a[j] == rest[j - m] && a[k] == rest[k - m];
        assert Parked(at, i, a, j) == Parked(at, i + m, rest, j - m);
        assert Parked(at, i, a, k) == Parked(at, i + m, rest, k - m);
      } else {
        assert a[j] == block[j] && a[k] == rest[k - m];
        assert Parked(at, i, a, k) == Parked(at, i + m, rest, k - m);
      }
    }
  }

  /** The whole round: every slider lies right of prevSlider, and they lie left to right. */
  lemma {:induction false} PlanSliders(at: seq<int>, offsets: seq<int>, firsts: seq<bool>, minOffset: int, maxOffset: int,
                                       i: nat, prevNeedle: Option<int>, prevSlider: Option<int>)
    requires |at| == |offsets| == |firsts| && i <= |offsets| && SliderLeft(prevNeedle, prevSlider)
    ensures PlanFrom(at, offsets, firsts, minOffset, maxOffset, Corrected, i, prevNeedle, prevSlider).Ok? ==>
      SlidersFree(at, i, PlanFrom(at, offsets, firsts, minOffset, maxOffset, Corrected, i, prevNeedle, prevSlider).value,
        prevSlider)
    decreases |offsets| - i
  {
    if i < |offsets| {
      var b := Block(at, offsets, firsts, minOffset, maxOffset, Corrected, i, prevNeedle, prevSlider);
      BlockSliders(at, offsets, firsts, minOffset, maxOffset, i, prevNeedle, prevSlider);
      BlockKeepsSliderLeft(at, offsets, firsts, minOffset, maxOffset, i, prevNeedle, prevSlider);
      var r := PlanFrom(at, offsets, firsts, minOffset, maxOffset, Corrected, i, prevNeedle, prevSlider);
      if b.Ok? && r.Ok? {
        var p := b.value;
        PlanSliders(at, offsets, firsts, minOffset, maxOffset, i + |p.block|, p.prevNeedle, p.prevSlider);
        var rest := PlanFrom(at, offsets, firsts, minOffset, maxOffset, Corrected, i + |p.block|, p.prevNeedle, p.prevSlider);
        assert r.value == p.block + rest.value;
        SlidersConcat(at, i, p.block, rest.value, prevSlider, p.prevSlider);
      }
    }
  }

  // ---------------------------------------------------------------------
  // Rounds and directions

  function MinOf(s: seq<int>): (m: int)
    requires |s| > 0
    ensures m in s && forall k :: 0 <= k < |s| ==> m <= s[k]
  {
    if |s| == 1 then s[0] else Min(MinOf(s[..|s| - 1]), s[|s| - 1])
  }

  function MaxOf(s: seq<int>): (m: int)
    requires |s| > 0
    ensures m in s && forall k :: 0 <= k < |s| ==> s[k] <= m
  {
    if |s| == 1 then s[0] else Max(MaxOf(s[..|s| - 1]), s[|s| - 1])
  }

  /** Where the stitches should end: at[k] + offsets[k]. */
  function Targets(at: seq<int>, offsets: seq<int>): (t: seq<int>)
    requires |at| == |offsets|
    ensures |t| == |at|
  {
    seq(|at|, k requires 0 <= k < |at| => at[k] + offsets[k])
  }

  /** Every transfer joins an allowed bed pair. */
  predicate AllAllowed(ops: seq<Op>)
  {
    forall op :: op in ops ==> AllowedPair(op)
  }

  lemma AllowedConcat(a: seq<Op>, b: seq<Op>)
    requires AllAllowed(a) && AllAllowed(b)
    ensures AllAllowed(a + b)
  {
  }

  /** One round from the current positions: its transfers and the positions and offsets it leaves. */
  datatype Step = Step(ops: seq<Op>, at: seq<int>, offsets: seq<int>)

  /**
   * One round: passes for every offset between the smallest and the largest
   * offset, planned from the current positions.
   */
  function RoundStep(at: seq<int>, offsets: seq<int>, firsts: seq<bool>): (r: Result<Step, string>)
    requires |at| == |offsets| == |firsts| && |offsets| > 0
    ensures r.Ok? ==> |r.value.at| == |r.value.offsets| == |at|
    ensures r.Ok? ==> Targets(r.value.at, r.value.offsets) == Targets(at, offsets) && AllAllowed(r.value.ops)
  {
    var lo, hi := MinOf(offsets), MaxOf(offsets);
    match PlanFrom(at, offsets, firsts, lo, hi, Corrected, 0, None, None)
    case Err(e) => Err(e)
    case Ok(a) =>
      RoundFacts(at, offsets, a, lo, hi);
      Ok(Step(RoundOps(at, a, lo, hi), NextAt(at, a), NextOffsets(offsets, a)))
  }

  lemma RoundFacts(at: seq<int>, offsets: seq<int>, a: seq<Assign>, minOffset: int, maxOffset: int)
    requires |at| == |offsets| == |a|
    ensures Targets(NextAt(at, a), NextOffsets(offsets, a)) == Targets(at, offsets)
    ensures AllAllowed(RoundOps(at, a, minOffset, maxOffset))
  {
    RoundKeepsTargets(at, offsets, a);
    RoundAllowed(at, a, minOffset, maxOffset);
  }

  /** What a run of rounds leaves: its transfers and where the stitches end. */
  datatype Rounds = Rounds(ops: seq<Op>, at: seq<int>)

  /**
   * sliderySchoolbus in the '-' direction: nothing when every offset is
   * zero, otherwise one round and a recursive call on what is left.  The
   * recursion is bounded by fuel.
   */
  function SlideryMinus(at: seq<int>, offsets: seq<int>, firsts: seq<bool>, fuel: nat): (r: Result<Rounds, string>)
    requires |at| == |offsets| == |firsts|
    ensures r.Ok? ==> |r.value.at| == |at|
    ensures r.Ok? ==> r.value.at == Targets(at, offsets) && AllAllowed(r.value.ops)
    decreases fuel, 1
  {
    if AllZero(offsets) then assert Targets(at, offsets) == at; Ok(Rounds([], at))
    else if fuel == 0 then Err(OutOfRounds)
    else MinusRound(at, offsets, firsts, fuel)
  }

  /** One round of the '-' direction followed by the rounds that remain. */
  function MinusRound(at: seq<int>, offsets: seq<int>, firsts: seq<bool>, fuel: nat): (r: Result<Rounds, string>)
    requires |at| == |offsets| == |firsts| && |offsets| > 0 && fuel > 0
    ensures r.Ok? ==> |r.value.at| == |at|
    ensures r.Ok? ==> r.value.at == Targets(at, offsets) && AllAllowed(r.value.ops)
    decreases fuel, 0
  {
    match RoundStep(at, offsets, firsts)
    case Err(e) => Err(e)
    case Ok(st) =>
      match SlideryMinus(st.at, st.offsets, firsts, fuel - 1)
      case Err(e) => Err(e)
      case Ok(rest) => Ok(Rounds(st.ops + rest.ops, rest.at))
  }

  /** The mirrored bed: positions reversed and negated. */
  function Mirror(s: seq<int>): (m: seq<int>)
    ensures |m| == |s|
  {
    seq(|s|, k requires 0 <= k < |s| => -s[|s| - 1 - k])
  }

  function MirrorOp(op: Op): Op
  {
    Xfer(op.fromBed, -op.fromNeedle, op.toBed, -op.toNeedle)
  }

  function MirrorOps(ops: seq<Op>): (m: seq<Op>)
    ensures |m| == |ops|
  {
    seq(|ops|, k requires 0 <= k < |ops| => MirrorOp(ops[k]))
  }

  lemma MirrorTargets(at: seq<int>, offsets: seq<int>)
    requires |at| == |offsets|
    ensures Mirror(Targets(Mirror(at), Mirror(offsets))) == Targets(at, offsets)
  {
  }

  /** Negating needles keeps every bed pair. */
  lemma MirrorAllowed(ops: seq<Op>)
    requires AllAllowed(ops)
    ensures AllAllowed(MirrorOps(ops))
  {
    forall op | op in MirrorOps(ops) ensures AllowedPair(op) {
      var k :| 0 <= k < |ops| && MirrorOps(ops)[k] == op;
      assert ops[k] in ops;
    }
  }

  /** The '+' direction is the '-' direction on the mirrored bed, with every needle negated back. */
  function Slidery(dir: Direction, at: seq<int>, offsets: seq<int>, firsts: seq<bool>, fuel: nat): (r: Result<Rounds, string>)
    requires |at| == |offsets| == |firsts|
    ensures r.Ok? ==> r.value.at == Targets(at, offsets) && AllAllowed(r.value.ops)
  {
    if dir == Minus then SlideryMinus(at, offsets, firsts, fuel)
    else
      match SlideryMinus(Mirror(at), Mirror(offsets), Reverse(firsts), fuel)
      case Ok(rs) =>
        MirrorTargets(at, offsets);
        MirrorAllowed(rs.ops);
        Ok(Rounds(MirrorOps(rs.ops), Mirror(rs.at)))
      case Err(e) => Err(e)
  }

  /** The "fromBed.toBed" pass label countPasses compares. */
  function PassOf(op: Op): (Bed, Bed)
  {
    (op.fromBed, op.toBed)
  }

  /** countPasses: one pass for the first transfer and one for each change of bed pair. */
  function Passes(ops: seq<Op>): nat
  {
    if ops == [] then 0
    else
      var newPass := if |ops| == 1 || PassOf(ops[|ops| - 1]) != PassOf(ops[|ops| - 2]) then 1 else 0;
      Passes(ops[..|ops| - 1]) + newPass
  }

  const LengthMismatch := "Offsets and firsts should be the same length."
  const HasCable := "Offsets should not contain cables (that is, [1,-1] subarrays)"

  /** An adjacent [1, -1] pair: the cable flat_transfers refuses. */
  predicate HasUnitCable(offsets: seq<int>)
  {
    exists i :: 0 <= i && i + 1 < |offsets| && offsets[i] == 1 && offsets[i + 1] == -1
  }

  /** The direction flat_transfers runs in, once any dry runs have succeeded. */
  function Chosen(offsets: seq<int>, minus: seq<Op>, plus: seq<Op>): Direction
  {
    if |offsets| > 0 && MinOf(offsets) == 0 then Plus
    else if |offsets| > 0 && MaxOf(offsets) == 0 then Minus
    else if Passes(minus) < Passes(plus) then Minus
    else Plus
  }

  function Identity(n: nat): (at: seq<int>)
    ensures |at| == n && forall k :: 0 <= k < n ==> at[k] == k
  {
    seq(n, k => k)
  }

  /** The transfers of a run of rounds, or its error. */
  function Outcome(r: Result<Rounds, string>): Result<seq<Op>, string>
  {
    match r
    case Ok(rs) => Ok(rs.ops)
    case Err(e) => Err(e)
  }

  /**
   * flat_transfers: input checks, then sliderySchoolbus from at = [0 .. n-1]
   * in '+' when no offset is negative, in '-' when none is positive, and
   * otherwise in whichever direction a dry run shows needs strictly fewer
   * passes, '+' on a tie.  A dry run that fails fails the whole call.
   */
  function FlatResult(offsets: seq<int>, firsts: seq<bool>, fuel: nat): Result<seq<Op>, string>
  {
    if |offsets| != |firsts| then Err(LengthMismatch)
    else if HasUnitCable(offsets) then Err(HasCable)
    else
      var at := Identity(|offsets|);
      var n := |offsets|;
      if n > 0 && (MinOf(offsets) == 0 || MaxOf(offsets) == 0) then
        Outcome(Slidery(Chosen(offsets, [], []), at, offsets, firsts, fuel))
      else
        var minus := Slidery(Minus, at, offsets, firsts, fuel);
        var plus := Slidery(Plus, at, offsets, firsts, fuel);
        if minus.Err? then Err(minus.error)
        else if plus.Err? then Err(plus.error)
        else Outcome(if Chosen(offsets, minus.value.ops, plus.value.ops) == Minus then minus else plus)
  }

  // ---------------------------------------------------------------------
  // Properties of rounds and directions

  lemma ReverseTwice<T>(s: seq<T>)
    ensures Reverse(Reverse(s)) == s
  {
    forall k | 0 <= k < |s| ensures Reverse(Reverse(s))[k] == s[k] {
      ReverseAt(Reverse(s), k);
      ReverseAt(s, |s| - 1 - k);
    }
  }

  lemma MirrorTwice(s: seq<int>)
    ensures Mirror(Mirror(s)) == s
  {
  }

  lemma MirrorOpsTwice(ops: seq<Op>)
    ensures MirrorOps(MirrorOps(ops)) == ops
  {
  }

  /** The '-' direction is, in turn, the '+' direction on the mirrored bed. */
  lemma MinusIsMirroredPlus(at: seq<int>, offsets: seq<int>, firsts: seq<bool>, fuel: nat)
    requires |at| == |offsets| == |firsts|
    ensures var m := Slidery(Plus, Mirror(at), Mirror(offsets), Reverse(firsts), fuel);
      var r := Slidery(Minus, at, offsets, firsts, fuel);
      (r.Ok? <==> m.Ok?)
      && (r.Ok? ==> r.value.ops == MirrorOps(m.value.ops) && r.value.at == Mirror(m.value.at))
      && (r.Err? ==> r.error == m.error)
  {
    MirrorTwice(at);
    MirrorTwice(offsets);
    ReverseTwice(firsts);
    var r := SlideryMinus(at, offsets, firsts, fuel);
    PlusOfMirrored(Mirror(at), Mirror(offsets), Reverse(firsts), fuel, r);
    if r.Ok? {
      MirrorOpsTwice(r.value.ops);
      MirrorTwice(r.value.at);
    }
  }

  /** The '+' direction is the '-' direction run on the mirrored bed, mirrored back. */
  lemma PlusOfMirrored(at: seq<int>, offsets: seq<int>, firsts: seq<bool>, fuel: nat, r: Result<Rounds, string>)
    requires |at| == |offsets| == |firsts|
    requires r == SlideryMinus(Mirror(at), Mirror(offsets), Reverse(firsts), fuel)
    ensures r.Ok? ==> Slidery(Plus, at, offsets, firsts, fuel) == Ok(Rounds(MirrorOps(r.value.ops), Mirror(r.value.at)))
    ensures r.Err? ==> Slidery(Plus, at, offsets, firsts, fuel) == Err(r.error)
  {
  }

  lemma MirrorOpsPrefix(ops: seq<Op>, k: nat)
    requires k <= |ops|
    ensures MirrorOps(ops)[..k] == MirrorOps(ops[..k])
  {
  }

  /** Negating needles never changes a bed pair, so both directions count passes alike. */
  lemma {:induction false} PassesMirror(ops: seq<Op>)
    ensures Passes(MirrorOps(ops)) == Passes(ops)
  {
    if ops != [] {
      PassesMirror(ops[..|ops| - 1]);
      MirrorOpsPrefix(ops, |ops| - 1);
    }
  }

  /** A nonempty transfer list has at least one pass and at most one per transfer. */
  lemma {:induction false} PassesBounds(ops: seq<Op>)
    ensures Passes(ops) <= |ops|
    ensures Passes(ops) == 0 <==> ops == []
  {
    if ops != [] {
      PassesBounds(ops[..|ops| - 1]);
    }
  }

  /** Transfers whose bed pairs do not change make a single pass. */
  lemma {:induction false} PassesSamePair(ops: seq<Op>)
    requires ops != [] && forall k :: 0 <= k < |ops| ==> PassOf(ops[k]) == PassOf(ops[0])
    ensures Passes(ops) == 1
  {
    if |ops| > 1 {
      PassesSamePair(ops[..|ops| - 1]);
    }
  }

  lemma {:induction false} LiftsAllowed(at: seq<int>, a: seq<Assign>, minOffset: int, maxOffset: int, ofs: int)
    requires |at| == |a|
    ensures AllAllowed(Lifts(at, a, minOffset, maxOffset, ofs))
    decreases ofs - minOffset + 1
  {
    if ofs >= minOffset {
      LiftsAllowed(at, a, minOffset, maxOffset, ofs - 1);
      PickedPassAllowed(at, a, RegularAt(ofs), F, B, 0);
      PickedPassAllowed(at, a, SliderAt(ofs), F, B, 0);
      var regular := if Skipped(maxOffset, ofs) then [] else PickedPass(at, a, RegularAt(ofs), F, B, 0);
      AllowedConcat(regular, PickedPass(at, a, SliderAt(ofs), F, B, 0));
      AllowedConcat(regular + PickedPass(at, a, SliderAt(ofs), F, B, 0), Lifts(at, a, minOffset, maxOffset, ofs - 1));
    }
  }

  lemma {:induction false} DropsAllowed(at: seq<int>, a: seq<Assign>, minOffset: int, maxOffset: int, ofs: int)
    requires |at| == |a|
    ensures AllAllowed(Drops(at, a, minOffset, maxOffset, ofs))
    decreases ofs - minOffset + 1
  {
    if ofs >= minOffset {
      DropsAllowed(at, a, minOffset, maxOffset, ofs - 1);
      PickedPassAllowed(at, a, RegularAt(ofs), B, F, ofs);
      PickedPassAllowed(at, a, SliderAt(ofs), B, FS, ofs);
      var regular := if Skipped(maxOffset, ofs) then [] else PickedPass(at, a, RegularAt(ofs), B, F, ofs);
      AllowedConcat(PickedPass(at, a, SliderAt(ofs), B, FS, ofs), regular);
      AllowedConcat(PickedPass(at, a, SliderAt(ofs), B, FS, ofs) + regular, Drops(at, a, minOffset, maxOffset, ofs - 1));
    }
  }

  lemma RoundAllowed(at: seq<int>, a: seq<Assign>, minOffset: int, maxOffset: int)
    requires |at| == |a|
    ensures AllAllowed(RoundOps(at, a, minOffset, maxOffset))
  {
    var mid := Dropped(at, a);
    var up1, up2 := PickedPass(mid, a, ReturnAt(1), FS, B, 0), PickedPass(mid, a, ReturnAt(2), FS, B, 0);
    var st1, st2 := PickedPass(mid, a, ReturnAt(1), B, F, 1), PickedPass(mid, a, ReturnAt(2), B, F, 2);
    PickedPassAllowed(mid, a, ReturnAt(1), FS, B, 0);
    PickedPassAllowed(mid, a, ReturnAt(2), FS, B, 0);
    PickedPassAllowed(mid, a, ReturnAt(1), B, F, 1);
    PickedPassAllowed(mid, a, ReturnAt(2), B, F, 2);
    AllowedConcat(up1, up2);
    AllowedConcat(up1 + up2, st1);
    AllowedConcat(up1 + up2 + st1, st2);
    LiftsAllowed(at, a, minOffset, maxOffset, maxOffset);
    DropsAllowed(at, a, minOffset, maxOffset, maxOffset);
    AllowedConcat(Lifts(at, a, minOffset, maxOffset, maxOffset), Drops(at, a, minOffset, maxOffset, maxOffset));
    AllowedConcat(Lifts(at, a, minOffset, maxOffset, maxOffset) + Drops(at, a, minOffset, maxOffset, maxOffset),
      Returns(mid, a));
  }



  /**
   * What flat_transfers promises: every transfer joins an allowed bed pair,
   * and the transfers are those of a run of rounds in some direction, which
   * leaves every stitch k on needle k + offsets[k].
   */
  lemma FlatLands(offsets: seq<int>, firsts: seq<bool>, fuel: nat)
    ensures FlatResult(offsets, firsts, fuel).Ok? ==>
      |offsets| == |firsts| && AllAllowed(FlatResult(offsets, firsts, fuel).value)
      && exists dir :: (Slidery(dir, Identity(|offsets|), offsets, firsts, fuel).Ok?
           && Slidery(dir, Identity(|offsets|), offsets, firsts, fuel).value.ops == FlatResult(offsets, firsts, fuel).value
           && Slidery(dir, Identity(|offsets|), offsets, firsts, fuel).value.at == Targets(Identity(|offsets|), offsets))
  {
    var r := FlatResult(offsets, firsts, fuel);
    if r.Ok? {
      var at := Identity(|offsets|);
      var n := |offsets|;
      if n > 0 && (MinOf(offsets) == 0 || MaxOf(offsets) == 0) {
        var dir := Chosen(offsets, [], []);
        assert Slidery(dir, at, offsets, firsts, fuel).Ok?;
      } else {
        var minus := Slidery(Minus, at, offsets, firsts, fuel);
        var plus := Slidery(Plus, at, offsets, firsts, fuel);
        if Chosen(offsets, minus.value.ops, plus.value.ops) == Minus {
          assert minus.value.ops == r.value;
        } else {
          assert plus.value.ops == r.value;
        }
      }
    }
  }

  /**
   * The direction choice: a one-signed input runs in its own direction;
   * otherwise both dry runs must succeed, and the transfers kept are those
   * with the fewer passes, the '+' ones on a tie.
   */
  lemma FlatChoice(offsets: seq<int>, firsts: seq<bool>, fuel: nat)
    requires |offsets| == |firsts| && !HasUnitCable(offsets)
    ensures var at, r := Identity(|offsets|), FlatResult(offsets, firsts, fuel);
      var minus, plus := Slidery(Minus, at, offsets, firsts, fuel), Slidery(Plus, at, offsets, firsts, fuel);
      (|offsets| > 0 && (forall k :: 0 <= k < |offsets| ==> offsets[k] >= 0) && 0 in offsets ==> r == Outcome(plus))
      && (|offsets| > 0 && (forall k :: 0 <= k < |offsets| ==> offsets[k] <= 0) && 0 in offsets && !(forall k :: 0 <= k < |offsets| ==> offsets[k] == 0) ==>
            r == Outcome(minus))
      && ((exists k :: 0 <= k < |offsets| && offsets[k] < 0) && (exists k :: 0 <= k < |offsets| && offsets[k] > 0) ==>
            (r.Ok? <==> minus.Ok? && plus.Ok?)
            && (r.Ok? ==>
                  Passes(r.value) == Min(Passes(minus.value.ops), Passes(plus.value.ops))
                  && (r.value == plus.value.ops || Passes(minus.value.ops) < Passes(plus.value.ops))))
  {
    var n := |offsets|;
    if n > 0 {
      var lo, hi := MinOf(offsets), MaxOf(offsets);
      if (forall k :: 0 <= k < n ==> offsets[k] >= 0) && 0 in offsets {
        assert lo == 0;
      }
      if (forall k :: 0 <= k < n ==> offsets[k] <= 0) && 0 in offsets && !(forall k :: 0 <= k < n ==> offsets[k] == 0) {
        assert hi == 0;
        var k :| 0 <= k < n && offsets[k] != 0;
        assert lo < 0;
      }
      if (exists k :: 0 <= k < n && offsets[k] < 0) && (exists k :: 0 <= k < n && offsets[k] > 0) {
        assert lo < 0 < hi;
      }
    }
  }

  /** An all-zero input emits no transfers. */
  lemma NothingToMove(offsets: seq<int>, firsts: seq<bool>, fuel: nat)
    requires |offsets| == |firsts| && AllZero(offsets)
    ensures FlatResult(offsets, firsts, fuel) == Ok([])
  {
    var n := |offsets|;
    assert !HasUnitCable(offsets);
    assert AllZero(Mirror(offsets));
    if n > 0 {
      assert MinOf(offsets) == 0;
    }
  }

  // ---------------------------------------------------------------------
  // Scenarios

  /**
   * A 2-1 decrease where only the right stitch is first: the left stitch is
   * parked on slider -1, returned to the back bed, and stacked on needle 0
   * after the right stitch has arrived.
   */
  lemma SliderScenario()
    ensures FlatResult([0, -1], [false, true], 1)
      == Ok([Xfer(F, 1, B, 1), Xfer(F, 0, B, 0), Xfer(B, 0, FS, -1), Xfer(B, 1, F, 0), Xfer(FS, -1, B, -1), Xfer(B, -1, F, 0)])
  {
    var offsets, firsts := [0, -1], [false, true];
    assert Identity(2) == [0, 1];
    assert MinOf(offsets) == -1 && MaxOf(offsets) == 0;
    assert !HasUnitCable(offsets);
    assert Chosen(offsets, [], []) == Minus;
    var ops := [Xfer(F, 1, B, 1), Xfer(F, 0, B, 0), Xfer(B, 0, FS, -1), Xfer(B, 1, F, 0), Xfer(FS, -1, B, -1), Xfer(B, -1, F, 0)];
    SliderScenarioRound();
    assert SlideryMinus([0, 0], [0, 0], firsts, 0) == Ok(Rounds([], [0, 0]));
    assert !AllZero(offsets) by { assert offsets[1] != 0; }
    assert ops + [] == ops;
    assert SlideryMinus([0, 1], offsets, firsts, 1) == Ok(Rounds(ops, [0, 0]));
    assert FlatResult(offsets, firsts, 1) == Outcome(Slidery(Minus, [0, 1], offsets, firsts, 1));
  }

  /** The one round of that scenario. */
  lemma SliderScenarioRound()
    ensures RoundStep([0, 1], [0, -1], [false, true])
      == Ok(Step([Xfer(F, 1, B, 1), Xfer(F, 0, B, 0), Xfer(B, 0, FS, -1), Xfer(B, 1, F, 0), Xfer(FS, -1, B, -1), Xfer(B, -1, F, 0)],
                 [0, 0], [0, 0]))
  {
    var at, offsets, firsts := [0, 1], [0, -1], [false, true];
    assert MinOf(offsets) == -1 && MaxOf(offsets) == 0;
    var a := [Slider(-1, 1), Regular(-1)];
    assert Block(at, offsets, firsts, -1, 0, Corrected, 0, None, None) == Ok(Planned(a, Some(0), Some(-1)));
    assert PlanFrom(at, offsets, firsts, -1, 0, Corrected, 2, Some(0), Some(-1)) == Ok([]);
    assert a + [] == a;
    assert PlanFrom(at, offsets, firsts, -1, 0, Corrected, 0, None, None) == Ok(a);
    SliderScenarioPasses(a);
    assert NextOffsets(offsets, a) == [0, 0];
    assert NextAt(at, a) == [0, 0];
  }

  lemma SliderScenarioPasses(a: seq<Assign>)
    requires a == [Slider(-1, 1), Regular(-1)]
    ensures RoundOps([0, 1], a, -1, 0)
      == [Xfer(F, 1, B, 1), Xfer(F, 0, B, 0), Xfer(B, 0, FS, -1), Xfer(B, 1, F, 0), Xfer(FS, -1, B, -1), Xfer(B, -1, F, 0)]
  {
    SliderScenarioDropped(a);
    SliderScenarioBuckets(a);
    SliderScenarioLifts([0, 1], a);
    SliderScenarioDrops([0, 1], a);
    SliderScenarioReturns([-1, 0], a);
    Concat222(Xfer(F, 1, B, 1), Xfer(F, 0, B, 0), Xfer(B, 0, FS, -1), Xfer(B, 1, F, 0), Xfer(FS, -1, B, -1), Xfer(B, -1, F, 0));
  }

  lemma Concat222(x0: Op, x1: Op, x2: Op, x3: Op, x4: Op, x5: Op)
    ensures [x0, x1] + [x2, x3] + [x4, x5] == [x0, x1, x2, x3, x4, x5]
  {
  }

  lemma SliderScenarioDropped(a: seq<Assign>)
    requires a == [Slider(-1, 1), Regular(-1)]
    ensures Dropped([0, 1], a) == [-1, 0]
  {
    var d := Dropped([0, 1], a);
    assert d[0] == -1 && d[1] == 0;
  }

  lemma PassNone(at: seq<int>, fromBed: Bed, toBed: Bed, ofs: int)
    ensures Pass(at, [], fromBed, toBed, ofs) == []
  {
  }

  lemma PassOne(at: seq<int>, k: nat, fromBed: Bed, toBed: Bed, ofs: int)
    requires k < |at|
    ensures Pass(at, [k], fromBed, toBed, ofs) == [Xfer(fromBed, at[k], toBed, at[k] + ofs)]
  {
  }

  lemma SliderScenarioLifts(at: seq<int>, a: seq<Assign>)
    requires at == [0, 1] && |a| == 2
    requires Members(a, RegularAt(-1)) == [1] && Members(a, SliderAt(-1)) == [0] && Members(a, SliderAt(0)) == []
    ensures Lifts(at, a, -1, 0, 0) == [Xfer(F, 1, B, 1), Xfer(F, 0, B, 0)]
  {
    PassOne(at, 1, F, B, 0);
    PassOne(at, 0, F, B, 0);
    PassNone(at, F, B, 0);
    PickedPassMembers(at, a, RegularAt(-1), F, B, 0);
    PickedPassMembers(at, a, SliderAt(-1), F, B, 0);
    PickedPassMembers(at, a, SliderAt(0), F, B, 0);
    assert Lifts(at, a, -1, 0, -2) == [];
    assert Lifts(at, a, -1, 0, -1) == [Xfer(F, 1, B, 1)] + [Xfer(F, 0, B, 0)] + [];
  }

  lemma SliderScenarioDrops(at: seq<int>, a: seq<Assign>)
    requires at == [0, 1] && |a| == 2
    requires Members(a, RegularAt(-1)) == [1] && Members(a, SliderAt(-1)) == [0] && Members(a, SliderAt(0)) == []
    ensures Drops(at, a, -1, 0, 0) == [Xfer(B, 0, FS, -1), Xfer(B, 1, F, 0)]
  {
    PassOne(at, 0, B, FS, -1);
    PassOne(at, 1, B, F, -1);
    PassNone(at, B, FS, 0);
    PickedPassMembers(at, a, SliderAt(-1), B, FS, -1);
    PickedPassMembers(at, a, RegularAt(-1), B, F, -1);
    PickedPassMembers(at, a, SliderAt(0), B, FS, 0);
    assert Drops(at, a, -1, 0, -2) == [];
    assert Drops(at, a, -1, 0, -1) == [Xfer(B, 0, FS, -1)] + [Xfer(B, 1, F, 0)] + [];
  }

  lemma SliderScenarioReturns(mid: seq<int>, a: seq<Assign>)
    requires mid == [-1, 0] && |a| == 2
    requires Members(a, ReturnAt(1)) == [0] && Members(a, ReturnAt(2)) == []
    ensures Returns(mid, a) == [Xfer(FS, -1, B, -1), Xfer(B, -1, F, 0)]
  {
    PassOne(mid, 0, FS, B, 0);
    PassOne(mid, 0, B, F, 1);
    PassNone(mid, FS, B, 0);
    PassNone(mid, B, F, 2);
    PickedPassMembers(mid, a, ReturnAt(1), FS, B, 0);
    PickedPassMembers(mid, a, ReturnAt(2), FS, B, 0);
    PickedPassMembers(mid, a, ReturnAt(1), B, F, 1);
    PickedPassMembers(mid, a, ReturnAt(2), B, F, 2);
  }

  lemma SliderScenarioBuckets(a: seq<Assign>)
    requires a == [Slider(-1, 1), Regular(-1)]
    ensures Members(a, RegularAt(-1)) == [1] && Members(a, SliderAt(-1)) == [0]
    ensures Members(a, RegularAt(0)) == [] && Members(a, SliderAt(0)) == []
    ensures Members(a, ReturnAt(1)) == [0] && Members(a, ReturnAt(2)) == []
  {
    assert a == [] + [Slider(-1, 1)] + [Regular(-1)];
    forall s: Pick ensures Members([Slider(-1, 1)], s) == if Picks(s, Slider(-1, 1)) then [0] else [] {
      MembersSnoc([], Slider(-1, 1), s);
    }
    forall s: Pick ensures Members(a, s) == Members([Slider(-1, 1)], s) + if Picks(s, Regular(-1)) then [1] else [] {
      MembersSnoc([Slider(-1, 1)], Regular(-1), s);
    }
  }

  /**
   * The shift as written, on offsets [-1, -2, -2, -3, -4, -4] with stitches
   * 1 and 4 first: the 3-1 decrease at stitches 2..4 finds slider -2 taken
   * and moves all three by -2 to needles 0..2, so stitch 5 (headed for
   * needle 1) must be shifted.  The shift as written is +2, a pass that does
   * not exist among offsets -4..-1; the corrected shift is -2, onto needle 3.
   */
  lemma AsWrittenShiftNoSuchPass()
    ensures PlanFrom(Identity(6), [-1, -2, -2, -3, -4, -4], [false, true, false, false, true, false], -4, -1,
              AsWritten, 0, None, None) == Err(NoSuchPass)
  {
    ShiftExample(AsWritten);
  }

  lemma CorrectedShiftPlans()
    ensures PlanFrom(Identity(6), [-1, -2, -2, -3, -4, -4], [false, true, false, false, true, false], -4, -1,
              Corrected, 0, None, None)
      == Ok([Slider(-2, 1), Regular(-2), Regular(-2), Regular(-2), Regular(-2), Regular(-2)])
  {
    ShiftExample(Corrected);
    var p := Shifted(Corrected, -4, -1, 5, 2, 1, 5, Some(-2));
    assert p.Ok? && p.value.block == [Regular(-2)] by {
      assert ShiftBy(Corrected, 5, 2) == -2;
      assert |p.value.block| == 1 && p.value.block[0] == Regular(-2);
    }
    assert [Slider(-2, 1), Regular(-2), Regular(-2), Regular(-2), Regular(-2)] + p.value.block
      == [Slider(-2, 1), Regular(-2), Regular(-2), Regular(-2), Regular(-2), Regular(-2)];
  }

  /** The first five stitches of the example plan alike under either rule; stitch 5 is then shifted. */
  lemma ShiftExample(rule: ShiftRule)
    ensures var at, offsets, firsts := Identity(6), [-1, -2, -2, -3, -4, -4], [false, true, false, false, true, false];
      PlanFrom(at, offsets, firsts, -4, -1, rule, 0, None, None)
      == match Shifted(rule, -4, -1, 5, 2, 1, 5, Some(-2))
         case Err(e) => Err(e)
         case Ok(p) => Ok([Slider(-2, 1), Regular(-2), Regular(-2), Regular(-2), Regular(-2)] + p.block)
  {
    var at, offsets, firsts := Identity(6), [-1, -2, -2, -3, -4, -4], [false, true, false, false, true, false];
    assert at == [0, 1, 2, 3, 4, 5];
    assert Block(at, offsets, firsts, -4, -1, rule, 0, None, None)
      == Ok(Planned([Slider(-2, 1), Regular(-2)], Some(-1), Some(-2)));
    assert Block(at, offsets, firsts, -4, -1, rule, 2, Some(-1), Some(-2))
      == Ok(Planned([Regular(-2), Regular(-2), Regular(-2)], Some(2), Some(-2)));
    assert Block(at, offsets, firsts, -4, -1, rule, 5, Some(2), Some(-2)) == Shifted(rule, -4, -1, 5, 2, 1, 5, Some(-2));
    var sh := Shifted(rule, -4, -1, 5, 2, 1, 5, Some(-2));
    assert PlanFrom(at, offsets, firsts, -4, -1, rule, 5, Some(2), Some(-2))
      == match sh case Err(e) => Err(e) case Ok(p) => Ok(p.block) by {
      if sh.Ok? {
        assert PlanFrom(at, offsets, firsts, -4, -1, rule, 6, sh.value.prevNeedle, sh.value.prevSlider) == Ok([]);
        assert sh.value.block + [] == sh.value.block;
      }
    }
    var p5 := PlanFrom(at, offsets, firsts, -4, -1, rule, 5, Some(2), Some(-2));
    var p2 := PlanFrom(at, offsets, firsts, -4, -1, rule, 2, Some(-1), Some(-2));
    assert p2 == match p5 case Err(e) => Err(e) case Ok(r) => Ok([Regular(-2), Regular(-2), Regular(-2)] + r);
    if sh.Ok? {
      assert [Slider(-2, 1), Regular(-2)] + ([Regular(-2), Regular(-2), Regular(-2)] + sh.value.block)
        == [Slider(-2, 1), Regular(-2), Regular(-2), Regular(-2), Regular(-2)] + sh.value.block;
    }
  }

  // ---------------------------------------------------------------------
  // The imperative planner

  /** The range scan: None for an empty input (the source's +-Infinity), else the extreme offsets. */
  method Extremes(offsets: seq<int>) returns (ext: Option<(int, int)>)
    ensures ext.None? <==> |offsets| == 0
    ensures ext.Some? ==> ext.value == (MinOf(offsets), MaxOf(offsets))
  {
    ext := None;
    for k := 0 to |offsets|
      invariant ext.None? <==> k == 0
      invariant ext.Some? ==> ext.value == (MinOf(offsets[..k]), MaxOf(offsets[..k]))
    {
      assert offsets[..k + 1][..k] == offsets[..k];
      if ext.None? {
        ext := Some((offsets[k], offsets[k]));
      } else {
        ext := Some((Min(ext.value.0, offsets[k]), Max(ext.value.1, offsets[k])));
      }
    }
    assert offsets[..|offsets|] == offsets;
  }

  /** The every() check for a finished round. */
  method Finished(offsets: seq<int>) returns (done: bool)
    ensures done <==> AllZero(offsets)
  {
    done := true;
    for k := 0 to |offsets|
      invariant done <==> AllZero(offsets[..k])
    {
      assert offsets[..k + 1] == offsets[..k] + [offsets[k]];
      done := done && offsets[k] == 0;
    }
    assert offsets[..|offsets|] == offsets;
  }

  /** countPasses over a transfer list, with lastPass as the label of the previous transfer. */
  method CountPasses(ops: seq<Op>) returns (passes: nat)
    ensures passes == Passes(ops)
  {
    var lastPass: Option<(Bed, Bed)> := None;
    passes := 0;
    for k := 0 to |ops|
      invariant passes == Passes(ops[..k])
      invariant lastPass == if k == 0 then None else Some(PassOf(ops[k - 1]))
    {
      assert ops[..k + 1][..k] == ops[..k];
      var pass := PassOf(ops[k]);
      if lastPass != Some(pass) {
        lastPass := Some(pass);
        passes := passes + 1;
      }
    }
    assert ops[..|ops|] == ops;
  }

  /** The bucket arrays of one round, indexed by offset - minOffset and by return - 1. */
  datatype Buckets = Buckets(regular: seq<seq<nat>>, slider: seq<seq<nat>>, toReturn: seq<seq<nat>>)

  /** The buckets hold exactly the stitches of plan a, each in the order they were pushed. */
  predicate Filed(a: seq<Assign>, minOffset: int, maxOffset: int, b: Buckets)
  {
    minOffset <= maxOffset
    && |b.regular| == |b.slider| == maxOffset - minOffset + 1 && |b.toReturn| == 2
    && (forall k :: 0 <= k < |b.regular| ==> b.regular[k] == Members(a, RegularAt(minOffset + k)))
    && (forall k :: 0 <= k < |b.slider| ==> b.slider[k] == Members(a, SliderAt(minOffset + k)))
    && (forall r :: 0 <= r < 2 ==> b.toReturn[r] == Members(a, ReturnAt(r + 1)))
  }

  lemma EmptyFiled(minOffset: int, maxOffset: int)
    requires minOffset <= maxOffset
    ensures Filed([], minOffset, maxOffset,
      Buckets(seq(maxOffset - minOffset + 1, _ => []), seq(maxOffset - minOffset + 1, _ => []), [[], []]))
  {
  }

  /** Push stitch |a| into the buckets its assignment names. */
  method File(ghost a: seq<Assign>, minOffset: int, maxOffset: int, b: Buckets, i: nat, x: Assign) returns (b': Buckets)
    requires i == |a| && Filed(a, minOffset, maxOffset, b) && minOffset <= x.ofs <= maxOffset
    requires x.Slider? ==> 1 <= x.ret <= 2
    ensures Filed(a + [x], minOffset, maxOffset, b')
  {
    var k := x.ofs - minOffset;
    forall s: Pick ensures Members(a + [x], s) == Members(a, s) + if Picks(s, x) then [i] else [] {
      MembersSnoc(a, x, s);
    }
    if x.Regular? {
      b' := b.(regular := b.regular[k := b.regular[k] + [i]]);
    } else {
      b' := b.(slider := b.slider[k := b.slider[k] + [i]],
               toReturn := b.toReturn[x.ret - 1 := b.toReturn[x.ret - 1] + [i]]);
    }
  }

  function Prepend(a: seq<Assign>, r: Result<seq<Assign>, string>): Result<seq<Assign>, string>
  {
    match r
    case Ok(rest) => Ok(a + rest)
    case Err(e) => Err(e)
  }

  /** File every assignment of one block, stitch by stitch, as the source pushes them. */
  method FileBlock(ghost a: seq<Assign>, minOffset: int, maxOffset: int, b: Buckets, i: nat, block: seq<Assign>)
    returns (b': Buckets)
    requires i == |a| && Filed(a, minOffset, maxOffset, b)
    requires forall j :: 0 <= j < |block| ==> minOffset <= block[j].ofs <= maxOffset
    requires forall j :: 0 <= j < |block| && block[j].Slider? ==> 1 <= block[j].ret <= 2
    ensures Filed(a + block, minOffset, maxOffset, b')
  {
    b' := b;
    assert a + block[..0] == a;
    for j := 0 to |block|
      invariant Filed(a + block[..j], minOffset, maxOffset, b')
    {
      b' := File(a + block[..j], minOffset, maxOffset, b', i + j, block[j]);
      assert (a + block[..j]) + [block[j]] == a + block[..j + 1];
    }
    assert block[..|block|] == block;
  }

  /** The planning loop's state at stitch i: plan a so far, filed, with the rest still to plan. */
  predicate PlanState(at: seq<int>, offsets: seq<int>, firsts: seq<bool>, minOffset: int, maxOffset: int,
                      a: seq<Assign>, b: Buckets, i: nat, prevNeedle: Option<int>, prevSlider: Option<int>)
  {
    |at| == |offsets| == |firsts| && i <= |offsets| && |a| == i
    && Prepend(a, PlanFrom(at, offsets, firsts, minOffset, maxOffset, Corrected, i, prevNeedle, prevSlider))
       == PlanFrom(at, offsets, firsts, minOffset, maxOffset, Corrected, 0, None, None)
    && Filed(a, minOffset, maxOffset, b)
    && SliderLeft(prevNeedle, prevSlider)
  }

  /** One block of the planning loop: file it and advance past it. */
  method PlanStep(at: seq<int>, offsets: seq<int>, firsts: seq<bool>, minOffset: int, maxOffset: int,
                  ghost a: seq<Assign>, b: Buckets, i: nat, prevNeedle: Option<int>, prevSlider: Option<int>, p: Planned)
    returns (ghost a': seq<Assign>, b': Buckets, i': nat)
    requires Within(offsets, minOffset, maxOffset) && i < |offsets|
    requires PlanState(at, offsets, firsts, minOffset, maxOffset, a, b, i, prevNeedle, prevSlider)
    requires Block(at, offsets, firsts, minOffset, maxOffset, Corrected, i, prevNeedle, prevSlider) == Ok(p)
    ensures i < i' && PlanState(at, offsets, firsts, minOffset, maxOffset, a', b', i', p.prevNeedle, p.prevSlider)
  {
    BlockSound(at, offsets, firsts, minOffset, maxOffset, Corrected, i, prevNeedle, prevSlider);
    BlockSliders(at, offsets, firsts, minOffset, maxOffset, i, prevNeedle, prevSlider);
    BlockKeepsSliderLeft(at, offsets, firsts, minOffset, maxOffset, i, prevNeedle, prevSlider);
    // the source's assertions that the sliders it picks are free
    assert SlidersAbove(at, i, p.block, prevSlider);
    b' := FileBlock(a, minOffset, maxOffset, b, i, p.block);
    PlanFromBlock(at, offsets, firsts, minOffset, maxOffset, Corrected, i, prevNeedle, prevSlider, p);
    PrependAssoc(a, p.block, PlanFrom(at, offsets, firsts, minOffset, maxOffset, Corrected, i + |p.block|, p.prevNeedle, p.prevSlider));
    a' := a + p.block;
    i' := i + |p.block|;
  }

  /** The plan from stitch i is the block at i followed by the plan after it. */
  lemma PlanFromBlock(at: seq<int>, offsets: seq<int>, firsts: seq<bool>, minOffset: int, maxOffset: int, rule: ShiftRule,
                      i: nat, prevNeedle: Option<int>, prevSlider: Option<int>, p: Planned)
    requires |at| == |offsets| == |firsts| && i < |offsets|
    requires Block(at, offsets, firsts, minOffset, maxOffset, rule, i, prevNeedle, prevSlider) == Ok(p)
    ensures i + |p.block| <= |offsets|
    ensures PlanFrom(at, offsets, firsts, minOffset, maxOffset, rule, i, prevNeedle, prevSlider)
      == Prepend(p.block, PlanFrom(at, offsets, firsts, minOffset, maxOffset, rule, i + |p.block|, p.prevNeedle, p.prevSlider))
  {
  }

  lemma PrependAssoc(a: seq<Assign>, block: seq<Assign>, r: Result<seq<Assign>, string>)
    ensures Prepend(a, Prepend(block, r)) == Prepend(a + block, r)
  {
    if r.Ok? {
      assert a + (block + r.value) == (a + block) + r.value;
    }
  }

  /**
   * The planning loop of one '-' round: block by block from stitch 0, with
   * prevNeedle and prevSlider as running state, filing every stitch into
   * its buckets.
   */
  method PlanRound(at: seq<int>, offsets: seq<int>, firsts: seq<bool>, minOffset: int, maxOffset: int)
    returns (r: Result<Buckets, string>)
    requires |at| == |offsets| == |firsts| && minOffset <= maxOffset && Within(offsets, minOffset, maxOffset)
    ensures var p := PlanFrom(at, offsets, firsts, minOffset, maxOffset, Corrected, 0, None, None);
      (r.Ok? <==> p.Ok?) && (r.Err? ==> r.error == p.error) && (r.Ok? ==> Filed(p.value, minOffset, maxOffset, r.value))
  {
    var n := |offsets|;
    var b := Buckets(seq(maxOffset - minOffset + 1, _ => []), seq(maxOffset - minOffset + 1, _ => []), [[], []]);
    EmptyFiled(minOffset, maxOffset);
    ghost var a: seq<Assign> := [];
    var i: nat := 0;
    var prevNeedle: Option<int> := None;
    var prevSlider: Option<int> := None;
    assert Prepend([], PlanFrom(at, offsets, firsts, minOffset, maxOffset, Corrected, 0, None, None))
      == PlanFrom(at, offsets, firsts, minOffset, maxOffset, Corrected, 0, None, None) by {
      var p0 := PlanFrom(at, offsets, firsts, minOffset, maxOffset, Corrected, 0, None, None);
      if p0.Ok? { assert [] + p0.value == p0.value; }
    }
    while i < n
      invariant PlanState(at, offsets, firsts, minOffset, maxOffset, a, b, i, prevNeedle, prevSlider)
      decreases n - i
    {
      var blk := Block(at, offsets, firsts, minOffset, maxOffset, Corrected, i, prevNeedle, prevSlider);
      if blk.Err? {
        return Err(blk.error);
      }
      a, b, i := PlanStep(at, offsets, firsts, minOffset, maxOffset, a, b, i, prevNeedle, prevSlider, blk.value);
      prevNeedle, prevSlider := blk.value.prevNeedle, blk.value.prevSlider;
    }
    assert a + [] == a;
    r := Ok(b);
  }

  // ---------------------------------------------------------------------
  // The imperative round

  /** Positions after a pass over idx moved each listed stitch d needles. */
  function Bumped(s: seq<int>, idx: seq<nat>, d: int): (s': seq<int>)
    ensures |s'| == |s|
  {
    seq(|s|, k requires 0 <= k < |s| => if k in idx then s[k] + d else s[k])
  }

  lemma PassSame(s: seq<int>, s': seq<int>, idx: seq<nat>, fromBed: Bed, toBed: Bed, ofs: int)
    requires forall t :: 0 <= t < |idx| ==> idx[t] < |s| && idx[t] < |s'| && s[idx[t]] == s'[idx[t]]
    ensures Pass(s, idx, fromBed, toBed, ofs) == Pass(s', idx, fromBed, toBed, ofs)
  {
  }

  lemma OpsAssoc(x: seq<Op>, y: seq<Op>, z: seq<Op>)
    ensures x + (y + z) == (x + y) + z
  {
  }

  /** A forEach over a bucket that leaves the stitches' recorded positions alone. */
  method EmitPass(at: seq<int>, idx: seq<nat>, fromBed: Bed, toBed: Bed) returns (ops: seq<Op>)
    requires forall t :: 0 <= t < |idx| ==> idx[t] < |at|
    ensures ops == Pass(at, idx, fromBed, toBed, 0)
  {
    ops := [];
    for t := 0 to |idx|
      invariant ops == Pass(at, idx[..t], fromBed, toBed, 0)
    {
      ops := ops + [Xfer(fromBed, at[idx[t]], toBed, at[idx[t]])];
    }
    assert idx[..|idx|] == idx;
  }

  /**
   * A forEach over a bucket that moves each listed stitch ofs needles,
   * updating its position and its remaining offset as it goes.  Every
   * stitch is listed once, so each transfer starts where the stitch was
   * before the pass.
   */
  method MovePass(at: seq<int>, offsets: seq<int>, idx: seq<nat>, fromBed: Bed, toBed: Bed, ofs: int)
    returns (ops: seq<Op>, at': seq<int>, offsets': seq<int>)
    requires |at| == |offsets| && Increasing(idx) && forall t :: 0 <= t < |idx| ==> idx[t] < |at|
    ensures ops == Pass(at, idx, fromBed, toBed, ofs)
    ensures at' == Bumped(at, idx, ofs) && offsets' == Bumped(offsets, idx, -ofs)
  {
    ops, at', offsets' := [], at, offsets;
    for t := 0 to |idx|
      invariant ops == Pass(at, idx[..t], fromBed, toBed, ofs)
      invariant at' == Bumped(at, idx[..t], ofs) && offsets' == Bumped(offsets, idx[..t], -ofs)
    {
      var i := idx[t];
      assert i !in idx[..t];
      ops := ops + [Xfer(fromBed, at'[i], toBed, at'[i] + ofs)];
      at' := at'[i := at'[i] + ofs];
      offsets' := offsets'[i := offsets'[i] - ofs];
      assert idx[..t + 1] == idx[..t] + [i];
    }
    assert idx[..|idx|] == idx;
  }

  /** Every assignment of plan a is sound for the round's offsets. */
  predicate PlanIsSound(offsets: seq<int>, minOffset: int, maxOffset: int, a: seq<Assign>)
  {
    |a| == |offsets| && forall k :: 0 <= k < |a| ==> Sound(offsets, minOffset, maxOffset, k, a[k])
  }

  /** Move everything to the back bed, largest offset first. */
  method LiftPhase(at: seq<int>, ghost a: seq<Assign>, minOffset: int, maxOffset: int, b: Buckets) returns (ops: seq<Op>)
    requires |at| == |a| && Filed(a, minOffset, maxOffset, b)
    ensures ops == Lifts(at, a, minOffset, maxOffset, maxOffset)
  {
    ghost var total := Lifts(at, a, minOffset, maxOffset, maxOffset);
    ops := [];
    var ofs := maxOffset;
    while ofs >= minOffset
      invariant minOffset - 1 <= ofs <= maxOffset
      invariant ops + Lifts(at, a, minOffset, maxOffset, ofs) == total
      decreases ofs - minOffset
    {
      ops := LiftPass(at, a, minOffset, maxOffset, b, ofs, ops, total);
      ofs := ofs - 1;
    }
    assert ops + [] == ops;
  }

  /** The lifts of one offset, appended to those already emitted: its regular pass (unless skipped), then its slider pass. */
  method LiftPass(at: seq<int>, ghost a: seq<Assign>, minOffset: int, maxOffset: int, b: Buckets, ofs: int,
                  ops: seq<Op>, ghost total: seq<Op>) returns (ops': seq<Op>)
    requires |at| == |a| && Filed(a, minOffset, maxOffset, b) && minOffset <= ofs <= maxOffset
    requires ops + Lifts(at, a, minOffset, maxOffset, ofs) == total
    ensures ops' + Lifts(at, a, minOffset, maxOffset, ofs - 1) == total
  {
    assert b.regular[ofs - minOffset] == Members(a, RegularAt(ofs));
    assert b.slider[ofs - minOffset] == Members(a, SliderAt(ofs));
    var regular: seq<Op> := [];
    if !(ofs == 0 && ofs == maxOffset) {
      regular := EmitPass(at, b.regular[ofs - minOffset], F, B);
    }
    var sliders := EmitPass(at, b.slider[ofs - minOffset], F, B);
    PickedPassMembers(at, a, RegularAt(ofs), F, B, 0);
    PickedPassMembers(at, a, SliderAt(ofs), F, B, 0);
    OpsAssoc(ops, regular + sliders, Lifts(at, a, minOffset, maxOffset, ofs - 1));
    ops' := ops + (regular + sliders);
  }

  /** Positions once the passes above ofs have dropped. */
  function DroppedAbove(at: seq<int>, a: seq<Assign>, ofs: int): (s: seq<int>)
    requires |at| == |a|
    ensures |s| == |at|
  {
    seq(|at|, k requires 0 <= k < |at| => if a[k].ofs > ofs then at[k] + a[k].ofs else at[k])
  }

  /** Remaining offsets once the passes above ofs have dropped. */
  function LeftAbove(offsets: seq<int>, a: seq<Assign>, ofs: int): (s: seq<int>)
    requires |offsets| == |a|
    ensures |s| == |offsets|
  {
    seq(|offsets|, k requires 0 <= k < |offsets| => if a[k].ofs > ofs then offsets[k] - a[k].ofs else offsets[k])
  }

  /** The drops at one offset: slider stitches to the sliders, then (unless skipped) regular ones to their needles. */
  function DropAt(at: seq<int>, a: seq<Assign>, maxOffset: int, ofs: int): seq<Op>
    requires |at| == |a|
  {
    PickedPass(at, a, SliderAt(ofs), B, FS, ofs)
    + (if Skipped(maxOffset, ofs) then [] else PickedPass(at, a, RegularAt(ofs), B, F, ofs))
  }

  /** The drops of the offsets above ofs, largest first. */
  function DropsAbove(at: seq<int>, a: seq<Assign>, maxOffset: int, ofs: int): seq<Op>
    requires |at| == |a|
    decreases maxOffset - ofs
  {
    if ofs >= maxOffset then [] else DropsAbove(at, a, maxOffset, ofs + 1) + DropAt(at, a, maxOffset, ofs + 1)
  }

  /** The drops above ofs followed by the rest are all the drops. */
  lemma {:induction false} DropsSplit(at: seq<int>, a: seq<Assign>, minOffset: int, maxOffset: int, ofs: int)
    requires |at| == |a| && minOffset - 1 <= ofs <= maxOffset
    ensures DropsAbove(at, a, maxOffset, ofs) + Drops(at, a, minOffset, maxOffset, ofs)
      == Drops(at, a, minOffset, maxOffset, maxOffset)
    decreases maxOffset - ofs
  {
    if ofs == maxOffset {
      assert [] + Drops(at, a, minOffset, maxOffset, ofs) == Drops(at, a, minOffset, maxOffset, ofs);
    } else {
      DropsSplit(at, a, minOffset, maxOffset, ofs + 1);
      OpsAssoc(DropsAbove(at, a, maxOffset, ofs + 1), DropAt(at, a, maxOffset, ofs + 1), Drops(at, a, minOffset, maxOffset, ofs));
    }
  }

  /** The drop loop's state before the passes at ofs: the earlier passes are done and their stitches have dropped. */
  predicate DropState(at: seq<int>, offsets: seq<int>, a: seq<Assign>, minOffset: int, maxOffset: int,
                      ofs: int, done: seq<Op>, cur: seq<int>, left: seq<int>)
  {
    |at| == |offsets| == |a| && minOffset - 1 <= ofs <= maxOffset
    && done == DropsAbove(at, a, maxOffset, ofs)
    && cur == DroppedAbove(at, a, ofs) && left == LeftAbove(offsets, a, ofs)
  }

  /**
   * The drops at one offset, from its slider bucket S and its regular bucket
   * R: slider stitches to the sliders, then (unless skipped) regular ones to
   * their needles.
   */
  method DropStep(at: seq<int>, offsets: seq<int>, ghost a: seq<Assign>, minOffset: int, maxOffset: int,
                  ofs: int, S: seq<nat>, R: seq<nat>, done: seq<Op>, cur: seq<int>, left: seq<int>)
    returns (done': seq<Op>, cur': seq<int>, left': seq<int>)
    requires minOffset <= ofs && DropState(at, offsets, a, minOffset, maxOffset, ofs, done, cur, left)
    requires S == Members(a, SliderAt(ofs)) && R == Members(a, RegularAt(ofs))
    ensures done' == done + DropAt(at, a, maxOffset, ofs)
    ensures DropState(at, offsets, a, minOffset, maxOffset, ofs - 1, done', cur', left')
  {
    forall k ensures k in S <==> 0 <= k < |a| && a[k].Slider? && a[k].ofs == ofs {
      MembersIn(a, SliderAt(ofs), k);
    }
    forall k ensures k in R <==> 0 <= k < |a| && a[k] == Regular(ofs) {
      MembersIn(a, RegularAt(ofs), k);
    }
    MembersIncreasing(a, SliderAt(ofs));
    MembersIncreasing(a, RegularAt(ofs));
    var sliders, cur1, left1 := MovePass(cur, left, S, B, FS, ofs);
    PassSame(cur, at, S, B, FS, ofs);
    PickedPassMembers(at, a, SliderAt(ofs), B, FS, ofs);
    DropLands(at, offsets, a, ofs, S, R);
    var regular: seq<Op> := [];
    cur', left' := cur1, left1;
    if !(ofs == 0 && ofs == maxOffset) {
      regular, cur', left' := MovePass(cur1, left1, R, B, F, ofs);
      PassSame(cur1, at, R, B, F, ofs);
      PickedPassMembers(at, a, RegularAt(ofs), B, F, ofs);
    } else {
      BumpedZero(cur1, R);
      BumpedZero(left1, R);
    }
    done' := done + (sliders + regular);
  }

  lemma BumpedZero(s: seq<int>, idx: seq<nat>)
    ensures Bumped(s, idx, 0) == s
  {
  }

  /** After the slider and regular drops at ofs every stitch assigned ofs has dropped. */
  lemma DropLands(at: seq<int>, offsets: seq<int>, a: seq<Assign>, ofs: int, S: seq<nat>, R: seq<nat>)
    requires |at| == |offsets| == |a|
    requires forall k :: k in S <==> 0 <= k < |a| && a[k].Slider? && a[k].ofs == ofs
    requires forall k :: k in R <==> 0 <= k < |a| && a[k] == Regular(ofs)
    ensures Bumped(Bumped(DroppedAbove(at, a, ofs), S, ofs), R, ofs) == DroppedAbove(at, a, ofs - 1)
    ensures Bumped(Bumped(LeftAbove(offsets, a, ofs), S, -ofs), R, -ofs) == LeftAbove(offsets, a, ofs - 1)
  {
    var c, l := Bumped(Bumped(DroppedAbove(at, a, ofs), S, ofs), R, ofs), Bumped(Bumped(LeftAbove(offsets, a, ofs), S, -ofs), R, -ofs);
    forall k | 0 <= k < |at|
      ensures c[k] == DroppedAbove(at, a, ofs - 1)[k] && l[k] == LeftAbove(offsets, a, ofs - 1)[k]
    {
      if a[k].ofs == ofs {
        assert k in S || k in R;
      } else {
        assert k !in S && k !in R;
      }
    }
  }

  /** Execute the passes in max-to-min order, dropping to the sliders and then to the needles. */
  method DropPhase(at: seq<int>, offsets: seq<int>, ghost a: seq<Assign>, minOffset: int, maxOffset: int, b: Buckets)
    returns (ops: seq<Op>, mid: seq<int>, left: seq<int>)
    requires |at| == |a| && PlanIsSound(offsets, minOffset, maxOffset, a) && Filed(a, minOffset, maxOffset, b)
    ensures ops == Drops(at, a, minOffset, maxOffset, maxOffset)
    ensures mid == Dropped(at, a) && left == LeftAbove(offsets, a, minOffset - 1)
  {
    DropEnds(at, offsets, a, minOffset, maxOffset);
    ops, mid, left := DropLoop(at, offsets, a, minOffset, maxOffset, b);
    DropsSplit(at, a, minOffset, maxOffset, minOffset - 1);
    assert ops + [] == ops;
  }

  /** The loop of the drop phase, from the largest offset down to the smallest. */
  method DropLoop(at: seq<int>, offsets: seq<int>, ghost a: seq<Assign>, minOffset: int, maxOffset: int, b: Buckets)
    returns (ops: seq<Op>, mid: seq<int>, left: seq<int>)
    requires Filed(a, minOffset, maxOffset, b) && DropState(at, offsets, a, minOffset, maxOffset, maxOffset, [], at, offsets)
    ensures DropState(at, offsets, a, minOffset, maxOffset, minOffset - 1, ops, mid, left)
  {
    ops, mid, left := [], at, offsets;
    var ofs := maxOffset;
    while ofs >= minOffset
      invariant DropState(at, offsets, a, minOffset, maxOffset, ofs, ops, mid, left)
      decreases ofs - minOffset
    {
      ops, mid, left := DropStep(at, offsets, a, minOffset, maxOffset, ofs,
                                 b.slider[ofs - minOffset], b.regular[ofs - minOffset], ops, mid, left);
      ofs := ofs - 1;
    }
  }

  /** Before the drops nothing has moved; after the last one every stitch has dropped. */
  lemma DropEnds(at: seq<int>, offsets: seq<int>, a: seq<Assign>, minOffset: int, maxOffset: int)
    requires |at| == |a| && PlanIsSound(offsets, minOffset, maxOffset, a)
    ensures DroppedAbove(at, a, maxOffset) == at && LeftAbove(offsets, a, maxOffset) == offsets
    ensures DroppedAbove(at, a, minOffset - 1) == Dropped(at, a)
  {
    assert forall k :: 0 <= k < |a| ==> Sound(offsets, minOffset, maxOffset, k, a[k]);
  }

  /**
   * The slider returns: every slider stitch back to the back bed, then onto
   * its stack 1 or 2 needles over, where it has reached its target.
   */
  method ReturnPhase(at: seq<int>, offsets: seq<int>, ghost a: seq<Assign>, minOffset: int, maxOffset: int, b: Buckets,
                     mid: seq<int>, left: seq<int>)
    returns (ops: seq<Op>, at': seq<int>, offsets': seq<int>)
    requires |at| == |a| && PlanIsSound(offsets, minOffset, maxOffset, a) && Filed(a, minOffset, maxOffset, b)
    requires mid == Dropped(at, a) && left == LeftAbove(offsets, a, minOffset - 1)
    ensures ops == Returns(mid, a)
    ensures at' == NextAt(at, a) && offsets' == NextOffsets(offsets, a)
  {
    var R1, R2 := b.toReturn[0], b.toReturn[1];
    forall k ensures k in R1 <==> 0 <= k < |a| && a[k].Slider? && a[k].ret == 1 {
      MembersIn(a, ReturnAt(1), k);
    }
    forall k ensures k in R2 <==> 0 <= k < |a| && a[k].Slider? && a[k].ret == 2 {
      MembersIn(a, ReturnAt(2), k);
    }
    MembersIncreasing(a, ReturnAt(1));
    MembersIncreasing(a, ReturnAt(2));
    var up1 := EmitPass(mid, R1, FS, B);
    var up2 := EmitPass(mid, R2, FS, B);
    var stack1, at1, left1 := MovePass(mid, left, R1, B, F, 1);
    var stack2;
    stack2, at', offsets' := MovePass(at1, left1, R2, B, F, 2);
    PassSame(at1, mid, R2, B, F, 2);
    PickedPassMembers(mid, a, ReturnAt(1), FS, B, 0);
    PickedPassMembers(mid, a, ReturnAt(2), FS, B, 0);
    PickedPassMembers(mid, a, ReturnAt(1), B, F, 1);
    PickedPassMembers(mid, a, ReturnAt(2), B, F, 2);
    // the source's assertion that whatever was on the sliders reached its final stack
    forall k | 0 <= k < |a| && a[k].Slider? ensures offsets'[k] == 0 {
      SlidersFinish(offsets, minOffset, maxOffset, a, k);
    }
    ops := up1 + up2 + stack1 + stack2;
    ReturnLands(at, offsets, a, minOffset, maxOffset, R1, R2);
  }

  /** After both stacks every slider stitch has taken its whole move, and every other stitch had already. */
  lemma ReturnLands(at: seq<int>, offsets: seq<int>, a: seq<Assign>, minOffset: int, maxOffset: int, R1: seq<nat>, R2: seq<nat>)
    requires |at| == |a| && PlanIsSound(offsets, minOffset, maxOffset, a)
    requires forall k :: k in R1 <==> 0 <= k < |a| && a[k].Slider? && a[k].ret == 1
    requires forall k :: k in R2 <==> 0 <= k < |a| && a[k].Slider? && a[k].ret == 2
    ensures Bumped(Bumped(Dropped(at, a), R1, 1), R2, 2) == NextAt(at, a)
    ensures Bumped(Bumped(LeftAbove(offsets, a, minOffset - 1), R1, -1), R2, -2) == NextOffsets(offsets, a)
  {
    var c, l := Bumped(Bumped(Dropped(at, a), R1, 1), R2, 2), Bumped(Bumped(LeftAbove(offsets, a, minOffset - 1), R1, -1), R2, -2);
    forall k | 0 <= k < |at|
      ensures c[k] == NextAt(at, a)[k] && l[k] == NextOffsets(offsets, a)[k]
    {
      assert Sound(offsets, minOffset, maxOffset, k, a[k]);
      if a[k].Slider? {
        assert k in R1 || k in R2;
      } else {
        assert k !in R1 && k !in R2;
      }
    }
  }

  /** One round of sliderySchoolbus in the '-' direction, from the current positions. */
  method EmitRound(at: seq<int>, offsets: seq<int>, firsts: seq<bool>) returns (r: Result<Step, string>)
    requires |at| == |offsets| == |firsts| && |offsets| > 0
    ensures r == RoundStep(at, offsets, firsts)
  {
    var ext := Extremes(offsets);
    var minOffset, maxOffset := ext.value.0, ext.value.1;
    assert minOffset <= offsets[0] <= maxOffset;
    var planned := PlanRound(at, offsets, firsts, minOffset, maxOffset);
    if planned.Err? {
      return Err(planned.error);
    }
    ghost var a := PlanFrom(at, offsets, firsts, minOffset, maxOffset, Corrected, 0, None, None).value;
    PlanSound(at, offsets, firsts, minOffset, maxOffset, Corrected, 0, None, None);
    var b := planned.value;
    var lifts := LiftPhase(at, a, minOffset, maxOffset, b);
    var drops, mid, left := DropPhase(at, offsets, a, minOffset, maxOffset, b);
    var rets, at', offsets' := ReturnPhase(at, offsets, a, minOffset, maxOffset, b, mid, left);
    r := Ok(Step(lifts + drops + rets, at', offsets'));
  }

  // ---------------------------------------------------------------------
  // The imperative driver

  /** sliderySchoolbus in the '-' direction: stop when every offset is zero, else one round and recurse. */
  method SchoolbusMinus(at: seq<int>, offsets: seq<int>, firsts: seq<bool>, fuel: nat) returns (r: Result<Rounds, string>)
    requires |at| == |offsets| == |firsts|
    ensures r == SlideryMinus(at, offsets, firsts, fuel)
    decreases fuel
  {
    var done := Finished(offsets);
    if done {
      return Ok(Rounds([], at));
    }
    if fuel == 0 {
      return Err(OutOfRounds);
    }
    var step := EmitRound(at, offsets, firsts);
    if step.Err? {
      return Err(step.error);
    }
    var rest := SchoolbusMinus(step.value.at, step.value.offsets, firsts, fuel - 1);
    if rest.Err? {
      return Err(rest.error);
    }
    r := Ok(Rounds(step.value.ops + rest.value.ops, rest.value.at));
  }

  /** The '+' copy of a position or offset array: reversed, then every entry negated. */
  method MirrorBed(s: seq<int>) returns (m: seq<int>)
    ensures m == Mirror(s)
  {
    m := ReverseCopy(s);
    forall k | 0 <= k < |s| ensures m[k] == s[|s| - 1 - k] {
      ReverseAt(s, k);
    }
    for i := 0 to |m|
      invariant |m| == |s|
      invariant forall k :: 0 <= k < i ==> m[k] == -s[|s| - 1 - k]
      invariant forall k :: i <= k < |m| ==> m[k] == s[|s| - 1 - k]
    {
      m := m[i := -m[i]];
    }
  }

  /** Array reverse() on a copy. */
  method ReverseCopy<T>(s: seq<T>) returns (r: seq<T>)
    ensures r == Reverse(s)
  {
    r := [];
    for i := 0 to |s|
      invariant r == Reverse(s[..i])
    {
      assert s[..i + 1] == s[..i] + [s[i]];
      ReverseSnoc(s[..i], s[i]);
      r := [s[i]] + r;
    }
    assert s[..|s|] == s;
  }

  /** flipXfer applied to every transfer of the mirrored run. */
  method FlipAll(ops: seq<Op>) returns (m: seq<Op>)
    ensures m == MirrorOps(ops)
  {
    m := [];
    for k := 0 to |ops|
      invariant m == MirrorOps(ops[..k])
    {
      m := m + [Xfer(ops[k].fromBed, -ops[k].fromNeedle, ops[k].toBed, -ops[k].toNeedle)];
    }
    assert ops[..|ops|] == ops;
  }

  /** sliderySchoolbus in either direction; '+' runs '-' on the mirrored bed and flips every transfer back. */
  method Schoolbus(dir: Direction, at: seq<int>, offsets: seq<int>, firsts: seq<bool>, fuel: nat)
    returns (r: Result<Rounds, string>)
    requires |at| == |offsets| == |firsts|
    ensures r == Slidery(dir, at, offsets, firsts, fuel)
  {
    if dir == Minus {
      r := SchoolbusMinus(at, offsets, firsts, fuel);
      return;
    }
    var at' := MirrorBed(at);
    var offsets' := MirrorBed(offsets);
    var firsts' := ReverseCopy(firsts);
    var rs := SchoolbusMinus(at', offsets', firsts', fuel);
    if rs.Err? {
      return Err(rs.error);
    }
    var ops := FlipAll(rs.value.ops);
    var landed := MirrorBed(rs.value.at);
    r := Ok(Rounds(ops, landed));
  }

  /**
   * flat_transfers: the input checks, at = [0 .. n-1], then sliderySchoolbus
   * in '+' or '-' when the offsets allow only one, and otherwise in the
   * direction whose dry run needs strictly fewer passes ('+' on a tie).
   */
  method Flat(offsets: seq<int>, firsts: seq<bool>, fuel: nat) returns (r: Result<seq<Op>, string>)
    ensures r == FlatResult(offsets, firsts, fuel)
  {
    if |offsets| != |firsts| {
      return Err(LengthMismatch);
    }
    var i := 0;
    while i + 1 < |offsets|
      invariant 0 <= i <= |offsets|
      invariant forall j :: 0 <= j < i && j + 1 < |offsets| ==> !(offsets[j] == 1 && offsets[j + 1] == -1)
    {
      if offsets[i] == 1 && offsets[i + 1] == -1 {
        return Err(HasCable);
      }
      i := i + 1;
    }
    assert !HasUnitCable(offsets);
    var at := [];
    for k := 0 to |offsets|
      invariant at == Identity(k)
    {
      at := at + [k];
    }
    var ext := Extremes(offsets);
    if ext.Some? && ext.value.0 == 0 {
      var rs := Schoolbus(Plus, at, offsets, firsts, fuel);
      return Outcome(rs);
    } else if ext.Some? && ext.value.1 == 0 {
      var rs := Schoolbus(Minus, at, offsets, firsts, fuel);
      return Outcome(rs);
    }
    var minus := Schoolbus(Minus, at, offsets, firsts, fuel);
    if minus.Err? {
      return Err(minus.error);
    }
    var minusPasses := CountPasses(minus.value.ops);
    var plus := Schoolbus(Plus, at, offsets, firsts, fuel);
    if plus.Err? {
      return Err(plus.error);
    }
    var plusPasses := CountPasses(plus.value.ops);
    var dir := if minusPasses < plusPasses then Minus else Plus;
    var rs := Schoolbus(dir, at, offsets, firsts, fuel);
    r := Outcome(rs);
  }
}
