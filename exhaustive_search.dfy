/**
 * exhaustive_search: the pieces of the best-first search planner that
 * decide what a search state is, which moves it may take, how a move
 * changes it, when it has arrived, and how many carriage passes a transfer
 * list costs. The priority-queue search loop that strings them together is
 * not modelled.
 *
 * A search state records, for every stitch, the bed it is on, the needle
 * it is on ("current") and how far it still has to travel ("offset"), the
 * machine's stacks, the racking of the last move and the transfers so far.
 */
module ExhaustiveSearch {
  import opened Knit
  import TestDriver
  import SearchRules

  datatype SearchState = SearchState(
    currents: seq<int>,
    offsets: seq<int>,
    beds: seq<Bed>,
    machine: TestDriver.Needles,
    rack: int,
    xfers: seq<Op>)

  /** The state's vectors all describe the same stitches. */
  predicate Shaped(s: SearchState)
  {
    |s.offsets| == |s.currents| && |s.beds| == |s.currents|
  }

  // ---------------------------------------------------------------- passes

  /** The front-bed needle of a transfer. */
  function FrontNeedle(x: Op): int
  {
    if x.fromBed == B then x.toNeedle else x.fromNeedle
  }

  /** The back-bed needle of a transfer. */
  function BackNeedle(x: Op): int
  {
    if x.fromBed == B then x.fromNeedle else x.toNeedle
  }

  /** The racking a transfer needs; for a transfer across the main beds it is the racking of the transfer. */
  function NeedsRack(x: Op): (r: int)
    ensures (x.fromBed == F && x.toBed == B) || (x.fromBed == B && x.toBed == F) ==> r == Racking(x)
  {
    FrontNeedle(x) - BackNeedle(x)
  }

  /** The bed a stitch on a main bed goes to. */
  function Opposite(b: Bed): (r: Bed)
    requires b == F || b == B
    ensures (r == F || r == B) && r != b
  {
    if b == F then B else F
  }

  /** Two successive transfers share a pass when they need the same racking and leave the same bed. */
  function PassKey(x: Op): (int, bool)
  {
    (NeedsRack(x), x.fromBed == F)
  }

  /** How many times the pass key changes along the list. */
  function Breaks(xs: seq<Op>): nat
  {
    if |xs| <= 1 then 0
    else Breaks(xs[..|xs| - 1]) + (if PassKey(xs[|xs| - 1]) != PassKey(xs[|xs| - 2]) then 1 else 0)
  }

  /** The passes a transfer list takes: none when empty, else one more than the key changes. */
  function PassCount(xs: seq<Op>): nat
  {
    if xs == [] then 0 else 1 + Breaks(xs)
  }

  /** The rackings a transfer list needs. */
  function Rackings(xs: seq<Op>): set<int>
  {
    set k | 0 <= k < |xs| :: NeedsRack(xs[k])
  }

  lemma RackingsSnoc(xs: seq<Op>)
    requires |xs| > 0
    ensures Rackings(xs) == Rackings(xs[..|xs| - 1]) + {NeedsRack(xs[|xs| - 1])}
  {
    var ys := xs[..|xs| - 1];
    forall r | r in Rackings(xs) ensures r in Rackings(ys) + {NeedsRack(xs[|xs| - 1])} {
      var k :| 0 <= k < |xs| && NeedsRack(xs[k]) == r;
      if k < |ys| { assert ys[k] == xs[k]; }
    }
    forall r | r in Rackings(ys) ensures r in Rackings(xs) {
      var k :| 0 <= k < |ys| && NeedsRack(ys[k]) == r;
      assert xs[k] == ys[k];
    }
  }

  /** Every racking a list needs costs at least one pass of its own. */
  lemma {:induction false} PassesCoverRackings(xs: seq<Op>)
    ensures |Rackings(xs)| <= PassCount(xs)
  {
    if |xs| > 1 {
      var ys := xs[..|xs| - 1];
      var x := xs[|xs| - 1];
      PassesCoverRackings(ys);
      RackingsSnoc(xs);
      if NeedsRack(x) !in Rackings(ys) {
        assert NeedsRack(ys[|ys| - 1]) in Rackings(ys);
        assert PassKey(xs[|xs| - 1]) != PassKey(xs[|xs| - 2]);
      }
    } else if |xs| == 1 {
      assert Rackings(xs) == {NeedsRack(xs[0])};
    } else {
      assert Rackings(xs) == {};
    }
  }

  /** Passes: counts the passes of a transfer list; a transfer within one bed is an error. */
  method Passes(xfers: seq<Op>) returns (r: Result<nat, string>)
    ensures r.Err? <==> exists k :: 0 <= k < |xfers| && xfers[k].fromBed == xfers[k].toBed
    ensures r.Ok? ==> r.value == PassCount(xfers)
  {
    if |xfers| == 0 {
      return Ok(0);
    }
    var p := 1;
    var sourceIsFront := xfers[0].fromBed == F;
    var currentRack := FrontNeedle(xfers[0]) - BackNeedle(xfers[0]);
    for k := 0 to |xfers|
      invariant (currentRack, sourceIsFront) == PassKey(xfers[Max(k, 1) - 1])
      invariant p == 1 + Breaks(xfers[..Max(k, 1)])
      invariant forall j :: 0 <= j < k ==> xfers[j].fromBed != xfers[j].toBed
    {
      var x := xfers[k];
      if x.fromBed == x.toBed {
        return Err("can't xfer between same bed!");
      }
      var needsRack := FrontNeedle(x) - BackNeedle(x);
      var swapping := (x.fromBed != F && sourceIsFront) || (x.fromBed == F && !sourceIsFront);
      if needsRack == currentRack {
        if swapping {
          p := p + 1;
          sourceIsFront := !sourceIsFront;
        }
      } else {
        p := p + 1;
        currentRack := needsRack;
        sourceIsFront := x.fromBed == F;
      }
      if k > 0 {
        assert xfers[..k + 1][..k] == xfers[..k];
      }
    }
    assert xfers[..|xfers|] == xfers;
    return Ok(p);
  }

  // ----------------------------------------------------------- move rules

  /** state_respects_slack: checks every neighbouring pair at the state's racking. */
  method RespectsSlack(offsets: seq<int>, s: SearchState) returns (ok: bool)
    requires Shaped(s) && |s.currents| == |offsets|
    ensures ok <==> SearchRules.SlackRespected(offsets, s.beds, s.currents, s.rack)
  {
    var i := 1;
    while i < |offsets|
      invariant 1 <= i && forall j :: 1 <= j < i && j < |offsets| ==> SearchRules.PairHolds(offsets, s.beds, s.currents, s.rack, j)
    {
      var slack := Max(1, Abs(i + offsets[i] - (i - 1 + offsets[i - 1])));
      assert slack == Slack(offsets, i);
      if s.beds[i] == s.beds[i - 1] {
        var stretch := Abs(s.currents[i - 1] - s.currents[i]);
        if stretch > slack {
          assert !SearchRules.PairHolds(offsets, s.beds, s.currents, s.rack, i);
          return false;
        }
      } else {
        var back := if s.beds[i] == B then s.currents[i] else s.currents[i - 1];
        var front := if s.beds[i] == B then s.currents[i - 1] else s.currents[i];
        var stretch := Abs(back + s.rack - front);
        if stretch > slack {
          assert !SearchRules.PairHolds(offsets, s.beds, s.currents, s.rack, i);
          return false;
        }
      }
      i := i + 1;
    }
    return true;
  }

  /**
   * Stitch idx crosses to the other bed at racking ofs: going to the back
   * it gains ofs of offset and its needle drops by ofs; going to the front
   * the reverse. Only idx moves.
   */
  function Flip(s: SearchState, idx: int, ofs: int): (t: SearchState)
    requires Shaped(s) && 0 <= idx < |s.currents| && SearchRules.MainBeds(s.beds)
    ensures Shaped(t) && |t.currents| == |s.currents| && SearchRules.MainBeds(t.beds) && t.rack == ofs
    ensures t.machine == s.machine && t.xfers == s.xfers
    ensures t.currents[idx] + t.offsets[idx] == s.currents[idx] + s.offsets[idx]
    ensures forall j :: 0 <= j < |s.currents| && j != idx ==>
      t.currents[j] == s.currents[j] && t.offsets[j] == s.offsets[j] && t.beds[j] == s.beds[j]
  {
    var bed := Opposite(s.beds[idx]);
    if bed == F then
      s.(rack := ofs, beds := s.beds[idx := bed],
         offsets := s.offsets[idx := s.offsets[idx] - ofs], currents := s.currents[idx := s.currents[idx] + ofs])
    else
      s.(rack := ofs, beds := s.beds[idx := bed],
         offsets := s.offsets[idx := s.offsets[idx] + ofs], currents := s.currents[idx := s.currents[idx] - ofs])
  }

  /** The nearest stitch at or below j on the bed of stitch idx, or -1. */
  function PrevSame(beds: seq<Bed>, idx: int, j: int): (p: int)
    requires 0 <= idx < |beds| && -1 <= j < |beds|
    ensures -1 <= p <= j && (p >= 0 ==> beds[p] == beds[idx])
    ensures forall k :: p < k <= j ==> beds[k] != beds[idx]
    decreases j + 1
  {
    if j < 0 then -1 else if beds[j] == beds[idx] then j else PrevSame(beds, idx, j - 1)
  }

  /** The nearest stitch at or above j on the bed of stitch idx, or |beds|. */
  function NextSame(beds: seq<Bed>, idx: int, j: int): (q: int)
    requires 0 <= idx < |beds| && 0 <= j <= |beds|
    ensures j <= q <= |beds| && (q < |beds| ==> beds[q] == beds[idx])
    ensures forall k :: j <= k < q ==> beds[k] != beds[idx]
    decreases |beds| - j
  {
    if j == |beds| then |beds| else if beds[j] == beds[idx] then j else NextSame(beds, idx, j + 1)
  }

  /** Stitch idx keeps its order with its nearest neighbours on its bed. */
  predicate Untangled(beds: seq<Bed>, currents: seq<int>, idx: int)
    requires |currents| == |beds| && 0 <= idx < |beds|
  {
    var p := PrevSame(beds, idx, idx - 1);
    var q := NextSame(beds, idx, idx + 1);
    (p >= 0 ==> currents[p] <= currents[idx]) && (q < |beds| ==> currents[idx] <= currents[q])
  }

  /** Every stitch on the needle of stitch idx has the offset of idx. */
  predicate StacksAgree(t: SearchState, idx: int)
    requires Shaped(t) && 0 <= idx < |t.currents|
  {
    forall i :: 0 <= i < |t.currents| && t.currents[i] == t.currents[idx] && t.beds[i] == t.beds[idx] ==>
      t.offsets[i] == t.offsets[idx]
  }

  /**
   * Moving stitch idx at racking ofs is allowed: the state can be racked to
   * ofs, the state with idx crossed over still respects the slack, idx
   * does not tangle with its bed neighbours, and it joins only stitches with
   * its own offset.
   */
  predicate MoveAllowed(offsets: seq<int>, s: SearchState, idx: int, ofs: int)
    requires Shaped(s) && |s.currents| == |offsets| && 0 <= idx < |offsets| && SearchRules.MainBeds(s.beds)
  {
    var t := Flip(s, idx, ofs);
    SearchRules.SlackRespected(offsets, s.beds, s.currents, ofs)
    && SearchRules.SlackRespected(offsets, t.beds, t.currents, ofs)
    && Untangled(t.beds, t.currents, idx)
    && StacksAgree(t, idx)
  }

  /** okay_to_move_index_by_offset. */
  method OkayToMove(offsets: seq<int>, s: SearchState, idx: int, ofs: int) returns (ok: bool)
    requires Shaped(s) && |s.currents| == |offsets| && 0 <= idx < |offsets| && SearchRules.MainBeds(s.beds)
    ensures ok <==> MoveAllowed(offsets, s, idx, ofs)
  {
    var t := s.(rack := ofs);
    var racked := RespectsSlack(offsets, t);
    if !racked {
      return false;
    }
    t := Flip(s, idx, ofs);
    var crossed := RespectsSlack(offsets, t);
    if !crossed {
      return false;
    }
    var prev, next := BedNeighbours(t.beds, idx);
    if prev >= 0 && t.beds[prev] == t.beds[idx] && t.currents[idx] < t.currents[prev] {
      return false;
    }
    if next < |offsets| && t.beds[next] == t.beds[idx] && t.currents[idx] > t.currents[next] {
      return false;
    }
    assert Untangled(t.beds, t.currents, idx);
    ok := StackCheck(t, idx);
  }

  /** The two scans for the nearest stitches on the bed of idx, left and right of it. */
  method BedNeighbours(beds: seq<Bed>, idx: int) returns (prev: int, next: int)
    requires 0 <= idx < |beds|
    ensures prev == PrevSame(beds, idx, idx - 1) && next == NextSame(beds, idx, idx + 1)
  {
    prev := idx - 1;
    next := idx + 1;
    while prev >= 0 && beds[prev] != beds[idx]
      invariant -1 <= prev < idx && PrevSame(beds, idx, prev) == PrevSame(beds, idx, idx - 1)
      decreases prev
    {
      prev := prev - 1;
    }
    while next < |beds| && beds[next] != beds[idx]
      invariant idx < next <= |beds| && NextSame(beds, idx, next) == NextSame(beds, idx, idx + 1)
      decreases |beds| - next
    {
      next := next + 1;
    }
  }

  /** The stacking scan: every stitch on the needle of idx must have the offset of idx. */
  method StackCheck(t: SearchState, idx: int) returns (ok: bool)
    requires Shaped(t) && 0 <= idx < |t.currents|
    ensures ok <==> StacksAgree(t, idx)
  {
    for i := 0 to |t.currents|
      invariant forall j :: 0 <= j < i && t.currents[j] == t.currents[idx] && t.beds[j] == t.beds[idx] ==>
        t.offsets[j] == t.offsets[idx]
    {
      if t.currents[i] == t.currents[idx] && t.beds[i] == t.beds[idx] && t.offsets[i] != t.offsets[idx] {
        return false;
      }
    }
    return true;
  }

  // ---------------------------------------------------------- applying a move

  /** The needle stitch idx sits on. */
  function From(s: SearchState, idx: int): Loc
    requires Shaped(s) && 0 <= idx < |s.currents|
  {
    Loc(s.beds[idx], s.currents[idx])
  }

  /**
   * The state after moving stitch idx at racking ofs: idx crosses over as
   * in Flip, every stitch stacked with it follows it and takes its bed,
   * needle and offset, the whole stack lands reversed on the destination,
   * and the transfer is logged.
   */
  function Applied(s: SearchState, idx: int, ofs: int): (r: SearchState)
    requires Shaped(s) && 0 <= idx < |s.currents| && SearchRules.MainBeds(s.beds)
    requires From(s, idx) in s.machine
    ensures Shaped(r) && |r.currents| == |s.currents|
  {
    var t := Flip(s, idx, ofs);
    var from := From(s, idx);
    var to := From(t, idx);
    var n := |s.currents|;
    var stack := s.machine[from];
    s.(currents := seq(n, j requires 0 <= j < n => if j == idx || j in stack then t.currents[idx] else s.currents[j]),
       beds := seq(n, j requires 0 <= j < n => if j == idx || j in stack then t.beds[idx] else s.beds[j]),
       offsets := seq(n, j requires 0 <= j < n => if j == idx || j in stack then t.offsets[idx] else s.offsets[j]),
       machine := TestDriver.MoveStack(s.machine, from, to),
       rack := ofs,
       xfers := s.xfers + [Xfer(from.bed, from.needle, to.bed, to.needle)])
  }

  /** The stitches of `moved` and idx have taken idx's crossed-over place; the others are where they were. */
  predicate Followed(s: SearchState, t: SearchState, idx: int, moved: seq<nat>, currents: seq<int>, beds: seq<Bed>, offsets: seq<int>)
    requires Shaped(s) && Shaped(t) && |t.currents| == |s.currents| && 0 <= idx < |s.currents|
  {
    var n := |s.currents|;
    |currents| == n && |offsets| == n && |beds| == n
    && forall j :: 0 <= j < n ==>
      currents[j] == (if j == idx || j in moved then t.currents[idx] else s.currents[j]) &&
      beds[j] == (if j == idx || j in moved then t.beds[idx] else s.beds[j]) &&
      offsets[j] == (if j == idx || j in moved then t.offsets[idx] else s.offsets[j])
  }

  /** One more stitch of the stack follows idx. */
  lemma FollowStep(s: SearchState, t: SearchState, idx: int, moved: seq<nat>, stitch: nat,
                   currents: seq<int>, beds: seq<Bed>, offsets: seq<int>)
    requires Shaped(s) && Shaped(t) && |t.currents| == |s.currents| && 0 <= idx < |s.currents| && stitch < |s.currents|
    requires Followed(s, t, idx, moved, currents, beds, offsets)
    ensures Followed(s, t, idx, moved + [stitch], currents[stitch := currents[idx]], beds[stitch := beds[idx]],
                     offsets[stitch := offsets[idx]])
  {
    forall j | 0 <= j < |s.currents| ensures (j in moved + [stitch]) == (j in moved || j == stitch) {
    }
  }

  /** The move-application block of the search loop. */
  method ApplyMove(s: SearchState, idx: int, ofs: int) returns (r: SearchState)
    requires Shaped(s) && 0 <= idx < |s.currents| && SearchRules.MainBeds(s.beds)
    requires From(s, idx) in s.machine
    requires forall k :: 0 <= k < |s.machine[From(s, idx)]| ==> s.machine[From(s, idx)][k] < |s.currents|
    ensures r == Applied(s, idx, ofs)
  {
    var n := |s.currents|;
    var from := Loc(s.beds[idx], s.currents[idx]);
    var currents := s.currents;
    var offsets := s.offsets;
    var beds := s.beds;
    if beds[idx] == F {
      offsets := offsets[idx := offsets[idx] + ofs];
      currents := currents[idx := currents[idx] - ofs];
    } else {
      offsets := offsets[idx := offsets[idx] - ofs];
      currents := currents[idx := currents[idx] + ofs];
    }
    beds := beds[idx := Opposite(beds[idx])];
    var to := Loc(beds[idx], currents[idx]);
    ghost var t := Flip(s, idx, ofs);
    assert beds[idx] == t.beds[idx] && currents[idx] == t.currents[idx] && offsets[idx] == t.offsets[idx];
    var froms := Reverse(s.machine[from]);
    var dest := if to in s.machine then s.machine[to] else [];
    var machine := s.machine[to := dest];
    assert dest + froms[..0] == dest;
    assert Followed(s, t, idx, froms[..0], currents, beds, offsets);
    for k := 0 to |froms|
      invariant machine == s.machine[to := dest + froms[..k]]
      invariant Followed(s, t, idx, froms[..k], currents, beds, offsets)
    {
      var stitch := froms[k];
      ReverseAt(s.machine[from], k);
      assert froms[..k + 1] == froms[..k] + [stitch];
      assert dest + froms[..k + 1] == dest + froms[..k] + [stitch];
      machine := machine[to := machine[to] + [stitch]];
      FollowStep(s, t, idx, froms[..k], stitch, currents, beds, offsets);
      currents := currents[stitch := currents[idx]];
      beds := beds[stitch := beds[idx]];
      offsets := offsets[stitch := offsets[idx]];
    }
    assert froms[..|froms|] == froms;
    ReverseElements(s.machine[from]);
    machine := machine[from := []];
    r := s.(currents := currents, beds := beds, offsets := offsets, machine := machine, rack := ofs,
            xfers := s.xfers + [Xfer(from.bed, from.needle, to.bed, to.needle)]);
  }

  // ---------------------------------------------------------- coherence

  /** The targets i + offsets[i] the stitches travel to. */
  function Targets(offsets: seq<int>): (ts: seq<int>)
    ensures |ts| == |offsets| && forall i :: 0 <= i < |offsets| ==> ts[i] == Target(offsets, i)
  {
    seq(|offsets|, i requires 0 <= i < |offsets| => i + offsets[i])
  }

  /**
   * A search state agrees with the machine it tracks: every stitch sits on
   * the needle the state says, on a main bed, still bound for its target,
   * and stitches sharing a needle share an offset.
   */
  ghost predicate Coherent(targets: seq<int>, s: SearchState)
  {
    var n := |targets|;
    Shaped(s) && |s.currents| == n && SearchRules.MainBeds(s.beds)
    && TestDriver.WellFormed(s.machine, n)
    && (forall j :: 0 <= j < n ==> TestDriver.PosOf(s.machine, n, j) == Loc(s.beds[j], s.currents[j]))
    && (forall j :: 0 <= j < n ==> s.currents[j] + s.offsets[j] == targets[j])
    && (forall i, j :: 0 <= i < n && 0 <= j < n && s.beds[i] == s.beds[j] && s.currents[i] == s.currents[j] ==>
          s.offsets[i] == s.offsets[j])
  }

  /** The search's first state: every stitch on its own front needle with all its offset to go. */
  function Start(offsets: seq<int>): (s: SearchState)
    ensures Shaped(s) && |s.currents| == |offsets| && SearchRules.MainBeds(s.beds)
  {
    var n := |offsets|;
    SearchState(seq(n, i => i), offsets, seq(n, i => F), TestDriver.Initial(n), 0, [])
  }

  lemma StartCoherent(offsets: seq<int>)
    ensures Coherent(Targets(offsets), Start(offsets))
  {
    var n := |offsets|;
    var s := Start(offsets);
    TestDriver.InitialWellFormed(n);
    forall j | 0 <= j < n ensures TestDriver.PosOf(s.machine, n, j) == Loc(s.beds[j], s.currents[j]) {
      assert s.machine[Loc(F, j)] == [j as nat];
      TestDriver.PosOfUnique(s.machine, n, j, Loc(F, j));
    }
  }

  /** A stitch is in the stack of a needle exactly when the machine puts it there. */
  lemma InStackIffAt(targets: seq<int>, s: SearchState, l: Loc, j: int)
    requires Coherent(targets, s) && l in s.machine && 0 <= j < |targets|
    ensures j in s.machine[l] <==> Loc(s.beds[j], s.currents[j]) == l
  {
    if j in s.machine[l] {
      TestDriver.PosOfUnique(s.machine, |targets|, j, l);
    }
  }

  /** An allowed move keeps the state coherent with its machine. */
  lemma AppliedCoherent(targets: seq<int>, s: SearchState, idx: int, ofs: int)
    requires Coherent(targets, s) && 0 <= idx < |targets|
    requires StacksAgree(Flip(s, idx, ofs), idx)
    ensures From(s, idx) in s.machine
    ensures Coherent(targets, Applied(s, idx, ofs))
  {
    var n := |targets|;
    var t := Flip(s, idx, ofs);
    var from := From(s, idx);
    var to := From(t, idx);
    var m := s.machine;
    assert from in m;
    var r := Applied(s, idx, ofs);
    TestDriver.MoveStackWellFormed(m, n, from, to);
    forall j | 0 <= j < n
      ensures (j == idx || j in m[from]) <==> Loc(s.beds[j], s.currents[j]) == from
    {
      InStackIffAt(targets, s, from, j);
    }
    forall j | 0 <= j < n ensures TestDriver.PosOf(r.machine, n, j) == Loc(r.beds[j], r.currents[j]) {
    }
    forall j | 0 <= j < n ensures r.currents[j] + r.offsets[j] == targets[j] {
    }
    AppliedOffsetsAgree(s, idx, ofs);
  }

  /** After a move stitches sharing a needle still share an offset. */
  lemma AppliedOffsetsAgree(s: SearchState, idx: int, ofs: int)
    requires Shaped(s) && 0 <= idx < |s.currents| && SearchRules.MainBeds(s.beds) && From(s, idx) in s.machine
    requires StacksAgree(Flip(s, idx, ofs), idx)
    requires forall i, j :: 0 <= i < |s.currents| && 0 <= j < |s.currents| && s.beds[i] == s.beds[j] && s.currents[i] == s.currents[j] ==>
      s.offsets[i] == s.offsets[j]
    ensures var r := Applied(s, idx, ofs);
      forall i, j :: 0 <= i < |r.currents| && 0 <= j < |r.currents| && r.beds[i] == r.beds[j] && r.currents[i] == r.currents[j] ==>
        r.offsets[i] == r.offsets[j]
  {
    var r := Applied(s, idx, ofs);
    var t := Flip(s, idx, ofs);
    var stack := s.machine[From(s, idx)];
    forall i, j | 0 <= i < |r.currents| && 0 <= j < |r.currents| && r.beds[i] == r.beds[j] && r.currents[i] == r.currents[j]
      ensures r.offsets[i] == r.offsets[j]
    {
      var ci := i == idx || i in stack;
      var cj := j == idx || j in stack;
      if ci && !cj {
        assert t.currents[j] == t.currents[idx] && t.beds[j] == t.beds[idx];
      } else if cj && !ci {
        assert t.currents[i] == t.currents[idx] && t.beds[i] == t.beds[idx];
      }
    }
  }

  // ---------------------------------------------------------- arrival

  /** Every stitch's needle holds something. */
  predicate Consistent(s: SearchState)
    requires Shaped(s)
  {
    forall i :: 0 <= i < |s.currents| ==> Loc(s.beds[i], s.currents[i]) in s.machine && s.machine[Loc(s.beds[i], s.currents[i])] != []
  }

  /** The state is a solution: nothing left to travel, all on the front bed, first stitches at the bottom of their stacks. */
  predicate Arrived(firsts: seq<bool>, s: SearchState)
    requires Shaped(s) && |firsts| == |s.currents| && Consistent(s)
  {
    SumAbs(s.offsets) == 0
    && (forall i :: 0 <= i < |s.beds| ==> s.beds[i] != B)
    && (forall i :: 0 <= i < |firsts| && firsts[i] ==> s.machine[Loc(s.beds[i], s.currents[i])][0] == i)
  }

  /** Reached. */
  method Reached(firsts: seq<bool>, s: SearchState) returns (ok: bool)
    requires Shaped(s) && |firsts| == |s.currents| && Consistent(s)
    ensures ok <==> Arrived(firsts, s)
  {
    var penalty := SearchRules.Penalty(s.offsets);
    if penalty > 0 {
      return false;
    }
    for i := 0 to |s.beds|
      invariant forall j :: 0 <= j < i ==> s.beds[j] != B
    {
      if s.beds[i] == B {
        return false;
      }
    }
    for i := 0 to |firsts|
      invariant forall j :: 0 <= j < i && firsts[j] ==> s.machine[Loc(s.beds[j], s.currents[j])][0] == j
    {
      var bn := Loc(s.beds[i], s.currents[i]);
      if firsts[i] && s.machine[bn][0] != i {
        return false;
      }
    }
    return true;
  }

  /** A coherent state that has arrived has every stitch on its target front needle, first stitches at the bottom. */
  lemma ArrivedDelivers(offsets: seq<int>, firsts: seq<bool>, s: SearchState)
    requires Coherent(Targets(offsets), s) && |firsts| == |offsets|
    ensures Consistent(s)
    ensures Arrived(firsts, s) ==> forall j :: 0 <= j < |offsets| ==>
      TestDriver.PosOf(s.machine, |offsets|, j) == Loc(F, Target(offsets, j))
      && (firsts[j] ==> s.machine[Loc(F, Target(offsets, j))][0] == j)
  {
    var n := |offsets|;
    forall i | 0 <= i < n ensures Loc(s.beds[i], s.currents[i]) in s.machine && s.machine[Loc(s.beds[i], s.currents[i])] != [] {
      assert TestDriver.PosOf(s.machine, n, i) == Loc(s.beds[i], s.currents[i]);
    }
    if Arrived(firsts, s) {
      SumAbsZero(s.offsets);
      forall j | 0 <= j < n ensures Loc(s.beds[j], s.currents[j]) == Loc(F, Target(offsets, j)) {
        assert s.offsets[j] == 0;
      }
    }
  }

  // ---------------------------------------------------------- lower bound

  /** The (bed, offset) groups still to be moved: stitches with offset left, and stitches on the back bed. */
  function Pending(s: SearchState): set<(Bed, int)>
    requires Shaped(s)
  {
    set i | 0 <= i < |s.currents| && (s.offsets[i] != 0 || s.beds[i] == B) :: (s.beds[i], s.offsets[i])
  }

  /** A first stitch still travelling is bound for a needle a settled front stitch already holds. */
  predicate FirstBlocked(firsts: seq<bool>, s: SearchState)
    requires Shaped(s) && |firsts| == |s.currents|
  {
    exists z, f :: 0 <= z < |s.currents| && 0 <= f < |s.currents|
      && s.offsets[z] == 0 && s.beds[z] == F && s.offsets[f] != 0 && firsts[f]
      && s.currents[f] + s.offsets[f] == s.currents[z]
  }

  /** The search's estimate of the passes still to come. */
  function LowerBound(firsts: seq<bool>, ignoreFirsts: bool, s: SearchState): nat
    requires Shaped(s) && |firsts| == |s.currents|
  {
    |Pending(s)| + if !ignoreFirsts && FirstBlocked(firsts, s) then 1 else 0
  }

  /** The estimate is zero exactly when nothing is left to move and every stitch is on the front bed. */
  lemma LowerBoundZero(firsts: seq<bool>, ignoreFirsts: bool, s: SearchState)
    requires Shaped(s) && |firsts| == |s.currents| && SearchRules.MainBeds(s.beds)
    ensures LowerBound(firsts, ignoreFirsts, s) == 0 <==> AllZero(s.offsets) && forall i :: 0 <= i < |s.beds| ==> s.beds[i] == F
  {
    if !(AllZero(s.offsets) && forall i :: 0 <= i < |s.beds| ==> s.beds[i] == F) {
      var i :| 0 <= i < |s.beds| && (s.offsets[i] != 0 || s.beds[i] != F);
      assert (s.beds[i], s.offsets[i]) in Pending(s);
    }
  }

  /** LowerBoundFromHere. */
  method LowerBoundFromHere(firsts: seq<bool>, ignoreFirsts: bool, s: SearchState) returns (lb: nat)
    requires Shaped(s) && |firsts| == |s.currents|
    ensures lb == LowerBound(firsts, ignoreFirsts, s)
  {
    var n := |s.currents|;
    var ofs: set<(Bed, int)> := {};
    var zeros: set<int> := {};
    var fs: set<int> := {};
    for i := 0 to n
      invariant ofs == set j | 0 <= j < i && (s.offsets[j] != 0 || s.beds[j] == B) :: (s.beds[j], s.offsets[j])
      invariant zeros == set j | 0 <= j < i && s.offsets[j] == 0 && s.beds[j] == F
      invariant fs == set j | 0 <= j < i && s.offsets[j] != 0 && firsts[j]
    {
      if s.offsets[i] == 0 && s.beds[i] == B {
        ofs := ofs + {(s.beds[i], s.offsets[i])};
      } else if s.offsets[i] != 0 {
        ofs := ofs + {(s.beds[i], s.offsets[i])};
      }
      if s.offsets[i] == 0 && s.beds[i] == F {
        zeros := zeros + {i};
      }
      if s.offsets[i] != 0 && firsts[i] {
        fs := fs + {i};
      }
    }
    lb := |ofs|;
    if !ignoreFirsts {
      var addOne := false;
      for z := 0 to n
        invariant addOne <==>
          (exists z', f :: 0 <= z' < z && 0 <= f < n && z' in zeros && f in fs && s.currents[f] + s.offsets[f] == s.currents[z'])
      {
        for f := 0 to n
          invariant addOne <==>
            (exists z', f' :: ((0 <= z' < z && 0 <= f' < n) || (z' == z && 0 <= f' < f)) && z' in zeros && f' in fs && s.currents[f'] + s.offsets[f'] == s.currents[z'])
        {
          if z in zeros && f in fs && s.currents[f] + s.offsets[f] == s.currents[z] {
            addOne := true;
          }
        }
      }
      if addOne {
        lb := lb + 1;
      }
    }
  }

  // ---------------------------------------------------------- cables

  predicate NonDecreasing(ts: seq<int>)
  {
    forall i :: 1 <= i < |ts| ==> ts[i - 1] <= ts[i]
  }

  predicate NonIncreasing(ts: seq<int>)
  {
    forall i :: 1 <= i < |ts| ==> ts[i - 1] >= ts[i]
  }

  /** One more target keeps a run monotone exactly when it continues the run's direction. */
  lemma MonotoneSnoc(ts: seq<int>, x: int)
    ensures NonDecreasing(ts + [x]) <==> NonDecreasing(ts) && (|ts| > 0 ==> ts[|ts| - 1] <= x)
    ensures NonIncreasing(ts + [x]) <==> NonIncreasing(ts) && (|ts| > 0 ==> ts[|ts| - 1] >= x)
  {
    var t := ts + [x];
    forall i | 0 <= i < |ts| ensures t[i] == ts[i] {
    }
    assert t[|ts|] == x;
  }

  /**
   * The search refuses cables: the targets must run monotonically one way
   * or the other; a cable-free offset list always passes.
   */
  method CablesAbsent(offsets: seq<int>) returns (ok: bool)
    ensures ok <==> NonDecreasing(Targets(offsets)) || NonIncreasing(Targets(offsets))
    ensures CableFree(offsets) ==> ok
  {
    var targets := Targets(offsets);
    var upOkay, dnOkay := MonotoneScan(targets);
    ok := upOkay || dnOkay;
  }

  /** The scan of the cable check: follows the last rising and the last falling target. */
  method MonotoneScan(targets: seq<int>) returns (upOkay: bool, dnOkay: bool)
    ensures upOkay <==> NonDecreasing(targets)
    ensures dnOkay <==> NonIncreasing(targets)
  {
    var up: Option<int> := None;
    var dn: Option<int> := None;
    upOkay := true;
    dnOkay := true;
    for i := 0 to |targets|
      invariant (i == 0 <==> up.None?) && (i == 0 <==> dn.None?)
      invariant upOkay <==> NonDecreasing(targets[..i])
      invariant dnOkay <==> NonIncreasing(targets[..i])
      invariant upOkay && i > 0 ==> up == Some(targets[i - 1])
      invariant dnOkay && i > 0 ==> dn == Some(targets[i - 1])
    {
      assert targets[..i + 1] == targets[..i] + [targets[i]];
      MonotoneSnoc(targets[..i], targets[i]);
      if up.None? || targets[i] >= up.value {
        up := Some(targets[i]);
      } else {
        upOkay := false;
      }
      if dn.None? || targets[i] <= dn.value {
        dn := Some(targets[i]);
      } else {
        dnOkay := false;
      }
    }
    assert targets[..|targets|] == targets;
  }
}
