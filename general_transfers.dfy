/**
 * general_transfers: the planner for single-bed knitting with cables,
 * stacking order and a racking limit.  It splits the offsets into a flat
 * part and a cable part, resolves the flat part in rounds of at most
 * `limit` racking (each round re-indexed onto the needles the stitches
 * currently occupy and handed to lace_transfers or flat_transfers), then
 * resolves the cables the same way, and checks its own output on a shadow
 * copy of the needle map.
 */
module GeneralTransfers {
  import opened Knit
  import TestDriver
  import SplitCables
  import LimitOffsets
  import LaceTransfers
  import FlatTransfers
  import CableTransfers

  type Needles = TestDriver.Needles

  const LengthMismatch := "Offsets and firsts should be the same length."
  const MissingSource := "must be xferring from something"
  const SelfTransfer := "a stack poured onto its own needle never empties"
  const UnknownNeedle := "should only xfer from a known needle"
  const DifferentDestination := "stacked stitches should have same destination"
  const StackedMoved := "stacked stitches shouldn't be moved"
  const OpenGap := "an empty needle was left without an offset"
  const NotHeld := "target needle has something"
  const NotReached := "stitch didn't get to target"
  const NotFirst := "stitch didn't get to target first, though marked first"

  // ---------------------------------------------------------------------
  // The shadow needle map (the checking xfer)

  /**
   * The checking xfer: the stack on the source needle is popped onto the
   * destination (so it lands reversed on top of what is there) and the
   * source needle is forgotten.  A missing source is an error; pouring a
   * needle onto itself never ends.
   */
  function Shadow(m: Needles, op: Op): (r: Result<Needles, string>)
    ensures var from, to := Loc(op.fromBed, op.fromNeedle), Loc(op.toBed, op.toNeedle);
      (r.Ok? <==> from in m && from != to)
      && (r.Err? && from !in m ==> r.error == MissingSource)
  {
    var from, to := Loc(op.fromBed, op.fromNeedle), Loc(op.toBed, op.toNeedle);
    if from !in m then Err(MissingSource)
    else if from == to then Err(SelfTransfer)
    else Ok(TestDriver.MoveStack(m, from, to) - {from})
  }

  /** What one checking xfer does to every needle. */
  lemma ShadowMoves(m: Needles, op: Op)
    requires Shadow(m, op).Ok?
    ensures var from, to, m' := Loc(op.fromBed, op.fromNeedle), Loc(op.toBed, op.toNeedle), Shadow(m, op).value;
      from !in m' && to in m'
      && m'[to] == (if to in m then m[to] else []) + Reverse(m[from])
      && forall l :: l != from && l != to ==> (l in m' <==> l in m) && (l in m ==> m'[l] == m[l])
  {
  }

  /** The checking xfers of a whole plan, in order. */
  function ShadowRun(m: Needles, ops: seq<Op>): Result<Needles, string>
  {
    if ops == [] then Ok(m)
    else match ShadowRun(m, ops[..|ops| - 1])
      case Err(e) => Err(e)
      case Ok(m') => Shadow(m', ops[|ops| - 1])
  }

  lemma ShadowRunSnoc(m: Needles, ops: seq<Op>, op: Op)
    ensures ShadowRun(m, ops + [op]) == match ShadowRun(m, ops) case Err(e) => Err(e) case Ok(m') => Shadow(m', op)
  {
    assert (ops + [op])[..|ops|] == ops;
  }

  /** Forgetting a needle that holds nothing keeps every stitch where it was. */
  lemma DropEmptyWellFormed(m: Needles, n: nat, l: Loc)
    requires TestDriver.WellFormed(m, n) && l in m && m[l] == []
    ensures TestDriver.WellFormed(m - {l}, n)
  {
    var m' := m - {l};
    forall s | 0 <= s < n ensures TestDriver.Held(m', s) {
      assert TestDriver.Held(m, s);
      var l0, k :| l0 in m && 0 <= k < |m[l0]| && m[l0][k] == s;
      assert l0 != l && l0 in m' && m'[l0][k] == s;
    }
  }

  /** A checking xfer neither loses nor duplicates a stitch: it moves the source's stitches to the destination. */
  lemma ShadowWellFormed(m: Needles, n: nat, op: Op)
    requires TestDriver.WellFormed(m, n) && Shadow(m, op).Ok?
    ensures TestDriver.WellFormed(Shadow(m, op).value, n)
  {
    var from, to := Loc(op.fromBed, op.fromNeedle), Loc(op.toBed, op.toNeedle);
    TestDriver.MoveStackWellFormed(m, n, from, to);
    DropEmptyWellFormed(TestDriver.MoveStack(m, from, to), n, from);
  }

  /** A whole plan of checking xfers from the start keeps stitches 0..n-1 each on exactly one needle. */
  lemma {:induction false} ShadowRunWellFormed(n: nat, ops: seq<Op>)
    requires ShadowRun(TestDriver.Initial(n), ops).Ok?
    ensures TestDriver.WellFormed(ShadowRun(TestDriver.Initial(n), ops).value, n)
  {
    if ops == [] {
      TestDriver.InitialWellFormed(n);
    } else {
      ShadowRunWellFormed(n, ops[..|ops| - 1]);
      ShadowWellFormed(ShadowRun(TestDriver.Initial(n), ops[..|ops| - 1]).value, n, ops[|ops| - 1]);
    }
  }

  /**
   * The final check: every stitch i is on front needle i + offsets[i], and
   * at the bottom of it when marked first.
   */
  predicate Arrived(offsets: seq<int>, firsts: seq<bool>, m: Needles)
    requires |firsts| == |offsets|
  {
    forall i :: 0 <= i < |offsets| ==>
      var dest := Loc(F, i + offsets[i]);
      dest in m && i as nat in m[dest] && (firsts[i] ==> m[dest][0] == i)
  }

  /** A plan the shadow map accepts and that leaves every stitch arrived. */
  predicate Delivers(offsets: seq<int>, firsts: seq<bool>, ops: seq<Op>)
    requires |firsts| == |offsets|
  {
    ShadowRun(TestDriver.Initial(|offsets|), ops).Ok?
    && Arrived(offsets, firsts, ShadowRun(TestDriver.Initial(|offsets|), ops).value)
  }

  /** Since nothing is duplicated, a delivering plan puts each stitch on its target needle and nowhere else. */
  lemma DeliversExactly(offsets: seq<int>, firsts: seq<bool>, ops: seq<Op>)
    requires |firsts| == |offsets| && Delivers(offsets, firsts, ops)
    ensures var m := ShadowRun(TestDriver.Initial(|offsets|), ops).value;
      TestDriver.WellFormed(m, |offsets|)
      && forall i :: 0 <= i < |offsets| ==> TestDriver.PosOf(m, |offsets|, i) == Loc(F, i + offsets[i])
  {
    var n := |offsets|;
    var m := ShadowRun(TestDriver.Initial(n), ops).value;
    ShadowRunWellFormed(n, ops);
    forall i | 0 <= i < n ensures TestDriver.PosOf(m, n, i) == Loc(F, i + offsets[i]) {
      TestDriver.PosOfUnique(m, n, i, Loc(F, i + offsets[i]));
    }
  }

  // ---------------------------------------------------------------------
  // Re-indexing onto the occupied needles (setMapped)

  /**
   * One call of setMapped: for each stitch i, the offset, first mark and
   * order it is to get, and where it already is (i + at[i]).
   */
  datatype Layer = Layer(offsets: seq<int>, firsts: seq<bool>, orders: seq<int>, at: seq<int>)

  predicate Aligned(L: Layer)
  {
    |L.offsets| == |L.at| && |L.firsts| == |L.at| && |L.orders| == |L.at|
  }

  /** The needle stitch i occupies. */
  function Home(L: Layer, i: int): int
    requires 0 <= i < |L.at|
  {
    i + L.at[i]
  }

  function Homes(L: Layer): (h: seq<int>)
    ensures |h| == |L.at| && forall i :: 0 <= i < |L.at| ==> h[i] == Home(L, i)
  {
    seq(|L.at|, i requires 0 <= i < |L.at| => Home(L, i))
  }

  /** The leftmost and rightmost occupied needles. */
  function Lo(L: Layer): int
    requires |L.at| > 0
  {
    FlatTransfers.MinOf(Homes(L))
  }

  function Hi(L: Layer): int
    requires |L.at| > 0
  {
    FlatTransfers.MaxOf(Homes(L))
  }

  /** Every stitch's needle lies in [Lo, Hi], and both ends are occupied. */
  lemma HomeSpan(L: Layer)
    requires |L.at| > 0
    ensures forall i :: 0 <= i < |L.at| ==> Lo(L) <= Home(L, i) <= Hi(L)
    ensures InSpan(L, Lo(L), Hi(L) - Lo(L) + 1)
    ensures exists i :: 0 <= i < |L.at| && Home(L, i) == Lo(L)
    ensures exists i :: 0 <= i < |L.at| && Home(L, i) == Hi(L)
  {
    var h := Homes(L);
    assert Lo(L) in h && Hi(L) in h;
    forall i | 0 <= i < |L.at| ensures Lo(L) <= Home(L, i) <= Hi(L) {
      assert h[i] == Home(L, i);
    }
  }

  /** The contents of one mapped index. */
  datatype Cell = Cell(offset: int, first: bool, order: int)

  /**
   * Placing one stitch: an empty cell takes its offset, mark and order; a
   * stitch landing on an occupied cell must share its offset, and that
   * offset must be 0; the first mark is kept if either has it.
   */
  function PlaceCell(c: Option<Cell>, offset: int, first: bool, order: int): (r: Result<Cell, string>)
    ensures c.None? ==> r == Ok(Cell(offset, first, order))
    ensures c.Some? ==> (r.Ok? <==> c.value.offset == offset && offset == 0)
    ensures c.Some? && r.Ok? ==> r.value == c.value.(first := c.value.first || first)
  {
    match c
    case None => Ok(Cell(offset, first, order))
    case Some(x) =>
      if x.offset != offset then Err(DifferentDestination)
      else if offset != 0 then Err(StackedMoved)
      else Ok(x.(first := x.first || first))
  }

  /** The cells over [Lo, Hi] after placing stitches 0..i-1, in index order. */
  function Placed(L: Layer, i: nat): (r: Result<seq<Option<Cell>>, string>)
    requires Aligned(L) && 0 < |L.at| && i <= |L.at|
    ensures r.Ok? ==> |r.value| == Hi(L) - Lo(L) + 1
  {
    if i == 0 then Ok(seq(Hi(L) - Lo(L) + 1, _ => None))
    else match Placed(L, i - 1)
      case Err(e) => Err(e)
      case Ok(cells) =>
        HomeWithin(L, i - 1);
        var k := Home(L, i - 1) - Lo(L);
        match PlaceCell(cells[k], L.offsets[i - 1], L.firsts[i - 1], L.orders[i - 1])
        case Err(e) => Err(e)
        case Ok(c) => Ok(cells[k := Some(c)])
  }

  /** Stitches that share a needle before the round may only stay where they are together. */
  predicate StackableBelow(L: Layer, i: nat)
    requires Aligned(L) && i <= |L.at|
  {
    forall j1, j2 :: 0 <= j1 < j2 < i && Home(L, j1) == Home(L, j2) ==> L.offsets[j1] == 0 && L.offsets[j2] == 0
  }

  /** Some stitch below i sits on needle h. */
  predicate OccupiedBelow(L: Layer, i: nat, h: int)
    requires Aligned(L) && i <= |L.at|
  {
    exists j :: 0 <= j < i && Home(L, j) == h
  }

  /** Every stitch's needle lies among the size needles from lo. */
  predicate InSpan(L: Layer, lo: int, size: nat)
  {
    forall i :: 0 <= i < |L.at| ==> lo <= Home(L, i) < lo + size
  }

  /** The cell of needle h, for a needle of the span. */
  function CellAt(lo: int, cells: seq<Option<Cell>>, h: int): Option<Cell>
    requires lo <= h < lo + |cells|
  {
    cells[h - lo]
  }

  /** The occupied cells are exactly the needles some stitch below i sits on. */
  predicate CellsOccupied(L: Layer, i: nat, lo: int, cells: seq<Option<Cell>>)
    requires Aligned(L) && i <= |L.at|
  {
    forall h :: lo <= h < lo + |cells| ==> (CellAt(lo, cells, h).Some? <==> OccupiedBelow(L, i, h))
  }

  /** Each stitch below i finds its own offset, and its first mark, on its needle. */
  predicate CellsCarry(L: Layer, i: nat, lo: int, cells: seq<Option<Cell>>)
    requires Aligned(L) && i <= |L.at| && InSpan(L, lo, |cells|)
  {
    forall j :: 0 <= j < i ==>
      CellAt(lo, cells, Home(L, j)).Some?
      && CellAt(lo, cells, Home(L, j)).value.offset == L.offsets[j]
      && (L.firsts[j] ==> CellAt(lo, cells, Home(L, j)).value.first)
  }

  /** A cell's order is that of one of its stitches, and its first mark comes from one of them. */
  predicate CellsFrom(L: Layer, i: nat, lo: int, cells: seq<Option<Cell>>)
    requires Aligned(L) && i <= |L.at|
  {
    forall h :: lo <= h < lo + |cells| && CellAt(lo, cells, h).Some? ==>
      (exists j :: 0 <= j < i && Home(L, j) == h && CellAt(lo, cells, h).value.order == L.orders[j])
      && (CellAt(lo, cells, h).value.first ==> exists j :: 0 <= j < i && Home(L, j) == h && L.firsts[j])
  }

  predicate CellsMean(L: Layer, i: nat, lo: int, cells: seq<Option<Cell>>)
    requires Aligned(L) && i <= |L.at| && InSpan(L, lo, |cells|)
  {
    CellsOccupied(L, i, lo, cells) && CellsCarry(L, i, lo, cells) && CellsFrom(L, i, lo, cells)
  }

  /** After stitch j is placed, the occupied cells are those of stitches 0..j. */
  lemma OccupiedStep(L: Layer, j: nat, lo: int, cells: seq<Option<Cell>>, x: Cell)
    requires Aligned(L) && j < |L.at| && InSpan(L, lo, |cells|)
    requires CellsOccupied(L, j, lo, cells)
    ensures CellsOccupied(L, j + 1, lo, cells[Home(L, j) - lo := Some(x)])
  {
    var h := Home(L, j);
    var cells' := cells[h - lo := Some(x)];
    forall h' | lo <= h' < lo + |cells'| ensures CellAt(lo, cells', h').Some? <==> OccupiedBelow(L, j + 1, h') {
      if h' == h {
        assert Home(L, j) == h';
      } else {
        assert CellAt(lo, cells', h') == CellAt(lo, cells, h');
        if OccupiedBelow(L, j + 1, h') {
          var j' :| 0 <= j' < j + 1 && Home(L, j') == h';
          assert j' < j;
        }
      }
    }
  }

  /**
   * The new cell of stitch j carries its offset and mark, and keeps the
   * offset and mark of any stitch already there.
   */
  lemma CarryStep(L: Layer, j: nat, lo: int, cells: seq<Option<Cell>>, x: Cell)
    requires Aligned(L) && j < |L.at| && InSpan(L, lo, |cells|)
    requires CellsCarry(L, j, lo, cells)
    requires x.offset == L.offsets[j] && (L.firsts[j] ==> x.first)
    requires var c := CellAt(lo, cells, Home(L, j)); c.Some? ==> c.value.offset == x.offset && (c.value.first ==> x.first)
    ensures CellsCarry(L, j + 1, lo, cells[Home(L, j) - lo := Some(x)])
  {
    var h := Home(L, j);
    var cells' := cells[h - lo := Some(x)];
    forall j' | 0 <= j' < j + 1
      ensures CellAt(lo, cells', Home(L, j')).Some?
      ensures CellAt(lo, cells', Home(L, j')).value.offset == L.offsets[j']
      ensures L.firsts[j'] ==> CellAt(lo, cells', Home(L, j')).value.first
    {
      if Home(L, j') != h {
        assert CellAt(lo, cells', Home(L, j')) == CellAt(lo, cells, Home(L, j'));
      } else if j' < j {
        assert CellAt(lo, cells, Home(L, j')).Some?;
      }
    }
  }

  /** The new cell's order and mark come from stitch j or from the cell's earlier stitches. */
  lemma FromStep(L: Layer, j: nat, lo: int, cells: seq<Option<Cell>>, x: Cell)
    requires Aligned(L) && j < |L.at| && InSpan(L, lo, |cells|)
    requires CellsFrom(L, j, lo, cells)
    requires var c := CellAt(lo, cells, Home(L, j));
      (x.order == L.orders[j] || (c.Some? && x.order == c.value.order))
      && (x.first ==> L.firsts[j] || (c.Some? && c.value.first))
    ensures CellsFrom(L, j + 1, lo, cells[Home(L, j) - lo := Some(x)])
  {
    var h := Home(L, j);
    var c := CellAt(lo, cells, h);
    var cells' := cells[h - lo := Some(x)];
    forall h' | lo <= h' < lo + |cells'| && CellAt(lo, cells', h').Some?
      ensures (exists j' :: 0 <= j' < j + 1 && Home(L, j') == h' && CellAt(lo, cells', h').value.order == L.orders[j'])
      ensures (CellAt(lo, cells', h').value.first ==> exists j' :: 0 <= j' < j + 1 && Home(L, j') == h' && L.firsts[j'])
    {
      if h' == h {
        assert CellAt(lo, cells', h') == Some(x);
        if x.order == L.orders[j] {
          assert Home(L, j) == h';
        }
        if x.first && L.firsts[j] {
          assert Home(L, j) == h';
        }
      } else {
        assert CellAt(lo, cells', h') == CellAt(lo, cells, h');
      }
    }
  }

  /** A stitch placed on an empty needle keeps the stacks stackable. */
  lemma FreshStackable(L: Layer, j: nat, lo: int, cells: seq<Option<Cell>>)
    requires Aligned(L) && j < |L.at| && InSpan(L, lo, |cells|)
    requires CellsOccupied(L, j, lo, cells) && StackableBelow(L, j)
    requires CellAt(lo, cells, Home(L, j)).None?
    ensures StackableBelow(L, j + 1)
  {
    assert !OccupiedBelow(L, j, Home(L, j));
    forall j1, j2 | 0 <= j1 < j2 < j + 1 && Home(L, j1) == Home(L, j2)
      ensures L.offsets[j1] == 0 && L.offsets[j2] == 0
    {
      assert j2 < j;
    }
  }

  /** A stitch staying put on a needle whose stitches stay put keeps the stacks stackable. */
  lemma OntoStackable(L: Layer, j: nat, lo: int, cells: seq<Option<Cell>>)
    requires Aligned(L) && j < |L.at| && InSpan(L, lo, |cells|)
    requires CellsCarry(L, j, lo, cells) && StackableBelow(L, j)
    requires CellAt(lo, cells, Home(L, j)).Some?
    requires CellAt(lo, cells, Home(L, j)).value.offset == L.offsets[j] == 0
    ensures StackableBelow(L, j + 1)
  {
    forall j1, j2 | 0 <= j1 < j2 < j + 1 && Home(L, j1) == Home(L, j2)
      ensures L.offsets[j1] == 0 && L.offsets[j2] == 0
    {
      if j2 == j {
        assert CellAt(lo, cells, Home(L, j1)).value.offset == L.offsets[j1];
      }
    }
  }

  /** A stitch landing on an occupied needle with a different or non-zero offset breaks stackability. */
  lemma PlaceClash(L: Layer, j: nat, lo: int, cells: seq<Option<Cell>>)
    requires Aligned(L) && j < |L.at| && InSpan(L, lo, |cells|)
    requires CellsMean(L, j, lo, cells)
    requires CellAt(lo, cells, Home(L, j)).Some?
    requires !(CellAt(lo, cells, Home(L, j)).value.offset == L.offsets[j] == 0)
    ensures !StackableBelow(L, j + 1)
  {
    var h := Home(L, j);
    assert OccupiedBelow(L, j, h);
    var j0 :| 0 <= j0 < j && Home(L, j0) == h;
    assert CellAt(lo, cells, Home(L, j0)).value.offset == L.offsets[j0];
  }

  /** One placement step of Placed, with the span's bounds named. */
  lemma PlacedUnfold(L: Layer, j: nat, lo: int, hi: int, cells: seq<Option<Cell>>)
    requires Aligned(L) && j < |L.at| && lo == Lo(L) && hi == Hi(L) && Placed(L, j).Ok? && Placed(L, j).value == cells
    ensures InSpan(L, lo, |cells|) && |cells| == hi - lo + 1
    ensures var c := CellAt(lo, cells, Home(L, j));
      Placed(L, j + 1) == match PlaceCell(c, L.offsets[j], L.firsts[j], L.orders[j])
        case Err(e) => Err(e)
        case Ok(x) => Ok(cells[Home(L, j) - lo := Some(x)])
  {
    HomeSpan(L);
  }

  /** One placement step keeps the meaning of the cells, and fails exactly on a clash. */
  lemma PlaceStep(L: Layer, j: nat, lo: int, hi: int, cells: seq<Option<Cell>>)
    requires Aligned(L) && j < |L.at| && lo == Lo(L) && hi == Hi(L) && Placed(L, j).Ok? && Placed(L, j).value == cells
    requires InSpan(L, lo, |cells|) && CellsMean(L, j, lo, cells) && StackableBelow(L, j)
    ensures Placed(L, j + 1).Ok? <==> StackableBelow(L, j + 1)
    ensures Placed(L, j + 1).Ok? ==> CellsMean(L, j + 1, lo, Placed(L, j + 1).value)
  {
    PlacedUnfold(L, j, lo, hi, cells);
    var c := CellAt(lo, cells, Home(L, j));
    if c.None? {
      var x := Cell(L.offsets[j], L.firsts[j], L.orders[j]);
      OccupiedStep(L, j, lo, cells, x);
      CarryStep(L, j, lo, cells, x);
      FromStep(L, j, lo, cells, x);
      FreshStackable(L, j, lo, cells);
    } else if c.value.offset == L.offsets[j] == 0 {
      var x := c.value.(first := c.value.first || L.firsts[j]);
      OccupiedStep(L, j, lo, cells, x);
      CarryStep(L, j, lo, cells, x);
      FromStep(L, j, lo, cells, x);
      OntoStackable(L, j, lo, cells);
    } else {
      PlaceClash(L, j, lo, cells);
    }
  }

  /**
   * Placement succeeds exactly when stacked stitches stay put; then each
   * stitch's needle holds its own offset, a cell is marked first exactly
   * when one of its stitches is, and the empty cells are exactly the
   * needles no stitch occupies.
   */
  lemma {:induction false} PlacedMeaning(L: Layer, i: nat, lo: int, hi: int)
    requires Aligned(L) && 0 < |L.at| && i <= |L.at| && lo == Lo(L) && hi == Hi(L)
    ensures InSpan(L, lo, hi - lo + 1)
    ensures Placed(L, i).Ok? <==> StackableBelow(L, i)
    ensures Placed(L, i).Ok? ==> CellsMean(L, i, lo, Placed(L, i).value)
  {
    HomeSpan(L);
    PlacedMeans(L, i, lo, hi);
  }

  /** What Placed(L, i) means, as one fact. */
  predicate Means(L: Layer, i: nat, lo: int)
    requires Aligned(L) && 0 < |L.at| && i <= |L.at| && InSpan(L, lo, Hi(L) - Lo(L) + 1)
  {
    (Placed(L, i).Ok? <==> StackableBelow(L, i))
    && (Placed(L, i).Ok? ==> CellsMean(L, i, lo, Placed(L, i).value))
  }

  lemma {:induction false} PlacedMeans(L: Layer, i: nat, lo: int, hi: int)
    requires Aligned(L) && 0 < |L.at| && i <= |L.at| && lo == Lo(L) && hi == Hi(L)
    requires InSpan(L, lo, hi - lo + 1)
    ensures Means(L, i, lo)
  {
    if i > 0 {
      var j := i - 1;
      PlacedMeans(L, j, lo, hi);
      ghost var m := Means(L, j, lo);
      PlacedInduct(L, j, lo, hi, m);
      assert j + 1 == i;
    }
  }

  /** The induction step of PlacedMeaning. */
  lemma PlacedInduct(L: Layer, j: nat, lo: int, hi: int, m: bool)
    requires Aligned(L) && j < |L.at| && lo == Lo(L) && hi == Hi(L)
    requires InSpan(L, lo, hi - lo + 1)
    requires m == Means(L, j, lo) && m
    ensures Means(L, j + 1, lo)
  {
    if Placed(L, j).Ok? {
      PlaceStep(L, j, lo, hi, Placed(L, j).value);
    } else {
      assert Placed(L, j + 1).Err?;
      assert !StackableBelow(L, j + 1) by {
        assert !StackableBelow(L, j);
      }
    }
  }

  // ---------------------------------------------------------------------
  // Filling the empty needles

  /** JavaScript's null <= 0 and null >= 0 both hold, and Math.abs(null) is 0. */
  predicate NotPositive(x: Option<int>) { x.None? || x.value <= 0 }
  predicate NotNegative(x: Option<int>) { x.None? || x.value >= 0 }
  function Magnitude(x: Option<int>): nat { if x.None? then 0 else Abs(x.value) }

  /**
   * The offset an empty needle gets from its neighbours: 0 when the left
   * one moves left or not at all and the right one right or not at all,
   * otherwise the neighbour's offset of smaller magnitude, the right one
   * on a tie.
   */
  function GapValue(left: Option<int>, right: Option<int>): (r: Option<int>)
    ensures r == Some(0) || r == left || r == right
  {
    if NotPositive(left) && NotNegative(right) then Some(0)
    else if Magnitude(left) < Magnitude(right) then left
    else right
  }

  /** Between two moving neighbours, a gap between a left-mover and a right-mover stays, otherwise it follows the gentler one. */
  lemma GapBetween(left: int, right: int)
    ensures left <= 0 && right >= 0 ==> GapValue(Some(left), Some(right)) == Some(0)
    ensures !(left <= 0 && right >= 0) ==>
      GapValue(Some(left), Some(right)) == if Abs(left) < Abs(right) then Some(left) else Some(right)
  {
  }

  /** An occupied first and last needle, as the span always has. */
  predicate EndsHeld(raw: seq<Option<int>>)
  {
    |raw| > 0 && raw[0].Some? && raw[|raw| - 1].Some?
  }

  /**
   * The offsets after the first k needles of the span are filled: each
   * empty needle takes GapValue of its left neighbour as already filled
   * and its right neighbour as it was.
   */
  function Filled(raw: seq<Option<int>>, k: nat): (r: seq<Option<int>>)
    requires EndsHeld(raw) && k <= |raw|
    ensures |r| == |raw|
    ensures forall j :: k <= j < |raw| ==> r[j] == raw[j]
  {
    if k == 0 then raw
    else
      var f := Filled(raw, k - 1);
      if raw[k - 1].Some? then f
      else f[k - 1 := GapValue(f[k - 2], raw[k])]
  }

  /** Filling keeps the occupied needles' offsets and fills each empty one from its neighbours. */
  lemma {:induction false} FilledMeaning(raw: seq<Option<int>>, k: nat)
    requires EndsHeld(raw) && k <= |raw|
    ensures forall j :: 0 <= j < k && raw[j].Some? ==> Filled(raw, k)[j] == raw[j]
    ensures forall j :: 0 <= j < k && raw[j].None? ==>
      0 < j < |raw| - 1 && Filled(raw, k)[j] == GapValue(Filled(raw, k)[j - 1], raw[j + 1])
  {
    if k > 0 {
      FilledMeaning(raw, k - 1);
    }
  }

  /** With no two empty needles side by side, every empty needle gets an offset. */
  lemma IsolatedGapsFill(raw: seq<Option<int>>)
    requires EndsHeld(raw)
    requires forall j :: 1 <= j < |raw| ==> raw[j - 1].Some? || raw[j].Some?
    ensures forall j :: 0 <= j < |raw| ==> Filled(raw, |raw|)[j].Some?
  {
    var f := Filled(raw, |raw|);
    FilledMeaning(raw, |raw|);
    forall j | 0 <= j < |raw| ensures f[j].Some? {
      if raw[j].None? {
        assert raw[j - 1].Some? && raw[j + 1].Some?;
        assert f[j - 1] == raw[j - 1];
      }
    }
  }

  /** Two empty needles side by side can stay without an offset: the right neighbour read is still null. */
  lemma DoubleGapStaysOpen()
    ensures Filled([Some(1), None, None, Some(-1)], 4) == [Some(1), None, None, Some(-1)]
  {
    var raw := [Some(1), None, None, Some(-1)];
    assert Filled(raw, 1) == raw;
    assert Filled(raw, 2) == raw;
    assert Filled(raw, 3) == raw;
  }

  // ---------------------------------------------------------------------
  // The mapping

  /**
   * The re-indexed problem: index k stands for front needle minNeedle + k;
   * `ignore` marks which needles started out empty.
   */
  datatype Mapping = Mapping(minNeedle: int, offsets: seq<int>, firsts: seq<bool>, orders: seq<int>, ignore: map<Loc, bool>)

  function OffsetsOf(cells: seq<Option<Cell>>): (raw: seq<Option<int>>)
    ensures |raw| == |cells| && forall k :: 0 <= k < |cells| ==> raw[k] == if cells[k].Some? then Some(cells[k].value.offset) else None
  {
    seq(|cells|, k requires 0 <= k < |cells| => if cells[k].Some? then Some(cells[k].value.offset) else None)
  }

  function FirstsOf(cells: seq<Option<Cell>>): (r: seq<bool>)
    ensures |r| == |cells| && forall k :: 0 <= k < |cells| ==> (r[k] <==> cells[k].Some? && cells[k].value.first)
  {
    seq(|cells|, k requires 0 <= k < |cells| => cells[k].Some? && cells[k].value.first)
  }

  function OrdersOf(cells: seq<Option<Cell>>): (r: seq<int>)
    ensures |r| == |cells| && forall k :: 0 <= k < |cells| ==> r[k] == if cells[k].Some? then cells[k].value.order else 0
  {
    seq(|cells|, k requires 0 <= k < |cells| => if cells[k].Some? then cells[k].value.order else 0)
  }

  predicate AllSome(s: seq<Option<int>>)
  {
    forall k :: 0 <= k < |s| ==> s[k].Some?
  }

  function Values(s: seq<Option<int>>): (r: seq<int>)
    requires AllSome(s)
    ensures |r| == |s| && forall k :: 0 <= k < |s| ==> Some(r[k]) == s[k]
  {
    seq(|s|, k requires 0 <= k < |s| => s[k].value)
  }

  /** Front needle lo + k, the needle index k of a mapping stands for. */
  function FrontAt(lo: int, k: int): Loc
  {
    Loc(F, lo + k)
  }

  /** The ignore map: each needle of the span, marked when no stitch started there. */
  function IgnoreOf(lo: int, raw: seq<Option<int>>): (m: map<Loc, bool>)
    ensures forall l :: l in m <==> l.bed == F && lo <= l.needle < lo + |raw|
    ensures forall k :: 0 <= k < |raw| ==> FrontAt(lo, k) in m && m[FrontAt(lo, k)] == raw[k].None?
  {
    if raw == [] then map[]
    else IgnoreOf(lo, raw[..|raw| - 1])[FrontAt(lo, |raw| - 1) := raw[|raw| - 1].None?]
  }

  /** The mapping of placed cells from needle lo: gaps filled, values read off, empty needles ignored. */
  function Assemble(lo: int, cells: seq<Option<Cell>>): Result<Mapping, string>
    requires EndsHeld(OffsetsOf(cells))
  {
    var raw := OffsetsOf(cells);
    var filled := Filled(raw, |raw|);
    if !AllSome(filled) then Err(OpenGap)
    else Ok(Mapping(lo, Values(filled), FirstsOf(cells), OrdersOf(cells), IgnoreOf(lo, raw)))
  }

  /** setMapped as a whole; an empty input maps to nothing. */
  function MappedResult(L: Layer): Result<Mapping, string>
    requires Aligned(L)
  {
    if |L.at| == 0 then Ok(Mapping(0, [], [], [], map[]))
    else match Placed(L, |L.at|)
      case Err(e) => Err(e)
      case Ok(cells) =>
        MappedEnds(L);
        Assemble(Lo(L), cells)
  }

  /** The span's end needles are occupied, so the gap filling never reads outside the span. */
  lemma MappedEnds(L: Layer)
    requires Aligned(L) && 0 < |L.at| && Placed(L, |L.at|).Ok?
    ensures EndsHeld(OffsetsOf(Placed(L, |L.at|).value))
  {
    var lo, hi := Lo(L), Hi(L);
    var cells := Placed(L, |L.at|).value;
    PlacedMeaning(L, |L.at|, lo, hi);
    ghost var occupied := CellsOccupied(L, |L.at|, lo, cells);
    EndsOccupied(L, lo, hi, cells, occupied);
  }

  /** When every stitch's needle holds a cell, so do the span's two end needles. */
  lemma EndsOccupied(L: Layer, lo: int, hi: int, cells: seq<Option<Cell>>, occupied: bool)
    requires Aligned(L) && 0 < |L.at| && lo == Lo(L) && hi == Hi(L) && |cells| == hi - lo + 1
    requires InSpan(L, lo, |cells|)
    requires occupied == CellsOccupied(L, |L.at|, lo, cells) && occupied
    ensures EndsHeld(OffsetsOf(cells))
  {
    HomeSpan(L);
    var a :| 0 <= a < |L.at| && Home(L, a) == lo;
    var b :| 0 <= b < |L.at| && Home(L, b) == hi;
    OccupiedAt(L, lo, cells, a, occupied);
    OccupiedAt(L, lo, cells, b, occupied);
    assert cells[0].Some? && cells[|cells| - 1].Some?;
  }

  /** The needle of each stitch holds a cell once every stitch is placed. */
  lemma OccupiedAt(L: Layer, lo: int, cells: seq<Option<Cell>>, a: nat, occupied: bool)
    requires Aligned(L) && a < |L.at| && InSpan(L, lo, |cells|)
    requires occupied == CellsOccupied(L, |L.at|, lo, cells) && occupied
    ensures cells[Home(L, a) - lo].Some?
  {
    assert OccupiedBelow(L, |L.at|, Home(L, a));
    assert CellAt(lo, cells, Home(L, a)) == cells[Home(L, a) - lo];
  }

  /** Each stitch's index carries its own offset and first mark, and its needle is not ignored. */
  lemma AssembleCarries(L: Layer, lo: int, cells: seq<Option<Cell>>)
    requires Aligned(L) && InSpan(L, lo, |cells|) && EndsHeld(OffsetsOf(cells))
    requires CellsCarry(L, |L.at|, lo, cells) && Assemble(lo, cells).Ok?
    ensures var M := Assemble(lo, cells).value;
      M.minNeedle == lo
      && |M.offsets| == |M.firsts| == |M.orders| == |cells|
      && forall i :: 0 <= i < |L.at| ==>
            M.offsets[Home(L, i) - lo] == L.offsets[i]
            && (L.firsts[i] ==> M.firsts[Home(L, i) - lo])
            && M.ignore[Loc(F, Home(L, i))] == false
  {
    var raw := OffsetsOf(cells);
    FilledMeaning(raw, |raw|);
    var M := Assemble(lo, cells).value;
    forall i | 0 <= i < |L.at|
      ensures M.offsets[Home(L, i) - lo] == L.offsets[i] && M.ignore[Loc(F, Home(L, i))] == false
      ensures L.firsts[i] ==> M.firsts[Home(L, i) - lo]
    {
      var k := Home(L, i) - lo;
      assert CellAt(lo, cells, Home(L, i)) == cells[k];
      assert Some(M.offsets[k]) == Filled(raw, |raw|)[k] == raw[k];
      assert Loc(F, Home(L, i)) == FrontAt(lo, k);
    }
  }

  /** Exactly the needles of the span that no stitch occupies are ignored. */
  lemma AssembleIgnores(L: Layer, lo: int, cells: seq<Option<Cell>>)
    requires Aligned(L) && EndsHeld(OffsetsOf(cells))
    requires CellsOccupied(L, |L.at|, lo, cells) && Assemble(lo, cells).Ok?
    ensures var M := Assemble(lo, cells).value;
      (forall k :: 0 <= k < |cells| ==>
         FrontAt(lo, k) in M.ignore && (M.ignore[FrontAt(lo, k)] <==> !OccupiedBelow(L, |L.at|, lo + k)))
      && (forall l :: l in M.ignore ==> l.bed == F && lo <= l.needle < lo + |cells|)
  {
    forall k | 0 <= k < |cells|
      ensures OffsetsOf(cells)[k].None? <==> !OccupiedBelow(L, |L.at|, lo + k)
    {
      assert CellAt(lo, cells, lo + k) == cells[k];
    }
  }

  /**
   * What setMapped computes: it fails whenever stacked stitches would
   * move (and when a run of empty needles stays without an offset);
   * otherwise index k stands for needle lo + k, every stitch's index
   * carries its own offset (and first mark), and exactly the needles no
   * stitch occupies are marked ignored.
   */
  lemma MappedMeaning(L: Layer, lo: int, hi: int)
    requires Aligned(L) && 0 < |L.at| && lo == Lo(L) && hi == Hi(L)
    ensures !StackableBelow(L, |L.at|) ==> MappedResult(L).Err?
    ensures MappedResult(L).Ok? ==>
      var M := MappedResult(L).value;
      M.minNeedle == lo
      && |M.offsets| == |M.firsts| == |M.orders| == hi - lo + 1
      && (forall i :: 0 <= i < |L.at| ==>
            lo <= Home(L, i) <= hi
            && M.offsets[Home(L, i) - lo] == L.offsets[i]
            && (L.firsts[i] ==> M.firsts[Home(L, i) - lo])
            && M.ignore[Loc(F, Home(L, i))] == false)
      && (forall k :: 0 <= k <= hi - lo ==>
            FrontAt(lo, k) in M.ignore && (M.ignore[FrontAt(lo, k)] <==> !OccupiedBelow(L, |L.at|, lo + k)))
      && (forall l :: l in M.ignore ==> l.bed == F && lo <= l.needle <= hi)
  {
    PlacedMeaning(L, |L.at|, lo, hi);
    HomeSpan(L);
    if MappedResult(L).Ok? {
      var cells := Placed(L, |L.at|).value;
      MappedEnds(L);
      assert MappedResult(L) == Assemble(lo, cells);
      AssembleCarries(L, lo, cells);
      AssembleIgnores(L, lo, cells);
    }
  }

  // ---------------------------------------------------------------------
  // Undoing the mapping (mappedXfer)

  /** The shadow state general_transfers threads through its callbacks. */
  datatype Shadowed = Shadowed(needles: Needles, out: seq<Op>, ignore: map<Loc, bool>)

  /** A mapped transfer moved back onto the real needles. */
  function Unmapped(minNeedle: int, op: Op): Op
  {
    Xfer(op.fromBed, op.fromNeedle + minNeedle, op.toBed, op.toNeedle + minNeedle)
  }

  /**
   * mappedXfer: a transfer from a needle of the ignore map; one from a
   * needle that held something is passed on to the checking xfer and
   * marks its destination as holding something, one from an empty needle
   * is dropped and only marks its destination (if unknown) as empty.
   */
  function MappedStep(st: Shadowed, minNeedle: int, op: Op): (r: Result<Shadowed, string>)
    ensures var from := Loc(op.fromBed, op.fromNeedle + minNeedle);
      from !in st.ignore ==> r == Err(UnknownNeedle)
  {
    var moved := Unmapped(minNeedle, op);
    var from, to := Loc(moved.fromBed, moved.fromNeedle), Loc(moved.toBed, moved.toNeedle);
    if from !in st.ignore then Err(UnknownNeedle)
    else
      var rest := st.ignore - {from};
      if !st.ignore[from] then
        match Shadow(st.needles, moved)
        case Err(e) => Err(e)
        case Ok(m) => Ok(Shadowed(m, st.out + [moved], rest[to := false]))
      else
        Ok(Shadowed(st.needles, st.out, if to in rest then rest else rest[to := true]))
  }

  /** The shadow needles are the replay of the plan emitted so far. */
  predicate Replays(n: nat, st: Shadowed)
  {
    ShadowRun(TestDriver.Initial(n), st.out) == Ok(st.needles)
  }

  /**
   * A transfer from a needle that held something is emitted, unmapped,
   * exactly once; one from an empty needle emits nothing and moves
   * nothing.  Either way the shadow stays the replay of the output.
   */
  lemma MappedStepEmits(n: nat, st: Shadowed, minNeedle: int, op: Op)
    requires Replays(n, st) && MappedStep(st, minNeedle, op).Ok?
    ensures var from, st' := Loc(op.fromBed, op.fromNeedle + minNeedle), MappedStep(st, minNeedle, op).value;
      Replays(n, st')
      && (from !in st'.ignore || from == Loc(op.toBed, op.toNeedle + minNeedle))
      && (st.ignore[from] ==> st'.out == st.out && st'.needles == st.needles)
      && (!st.ignore[from] ==> st'.out == st.out + [Unmapped(minNeedle, op)])
  {
    var moved := Unmapped(minNeedle, op);
    var from := Loc(moved.fromBed, moved.fromNeedle);
    if !st.ignore[from] {
      ShadowRunSnoc(TestDriver.Initial(n), st.out, moved);
    }
  }

  /** mappedXfer over a whole plan, stopping at the first failure. */
  function MappedRun(st: Shadowed, minNeedle: int, ops: seq<Op>): Result<Shadowed, string>
  {
    if ops == [] then Ok(st)
    else match MappedRun(st, minNeedle, ops[..|ops| - 1])
      case Err(e) => Err(e)
      case Ok(st') => MappedStep(st', minNeedle, ops[|ops| - 1])
  }

  /** A whole mapped plan keeps the shadow the replay of the output. */
  lemma {:induction false} MappedRunReplays(n: nat, st: Shadowed, minNeedle: int, ops: seq<Op>)
    requires Replays(n, st) && MappedRun(st, minNeedle, ops).Ok?
    ensures Replays(n, MappedRun(st, minNeedle, ops).value)
  {
    if ops != [] {
      MappedRunReplays(n, st, minNeedle, ops[..|ops| - 1]);
      MappedStepEmits(n, MappedRun(st, minNeedle, ops[..|ops| - 1]).value, minNeedle, ops[|ops| - 1]);
    }
  }

  // ---------------------------------------------------------------------
  // setMapped, step by step

  /** The window [a, b] of the span holds exactly win, and nothing outside it is occupied. */
  predicate Framed(cells: seq<Option<Cell>>, a: int, b: int, win: seq<Option<Cell>>)
  {
    0 <= a <= b < |cells| && win == cells[a..b + 1]
    && forall k :: 0 <= k < |cells| && (k < a || b < k) ==> cells[k].None?
  }

  /**
   * The arrays of setMapped after stitches 0..i-1: nothing yet, or the
   * window [minNeedle, maxNeedle] of the span, whose ends are the least
   * and greatest needle seen so far.
   */
  predicate Window(L: Layer, lo: int, hi: int, i: nat, win: seq<Option<Cell>>, bounds: Option<(int, int)>)
  {
    Aligned(L) && 0 < |L.at| && i <= |L.at| && lo == Lo(L) && hi == Hi(L)
    && Placed(L, i).Ok?
    && (bounds.None? <==> i == 0)
    && (bounds.None? ==> win == [])
    && (bounds.Some? ==>
          Framed(Placed(L, i).value, bounds.value.0 - lo, bounds.value.1 - lo, win)
          && bounds.value == (LeftEnd(L, i), RightEnd(L, i)))
  }

  /** Growing the window by one empty needle on the left. */
  lemma FrameLeft(cells: seq<Option<Cell>>, a: int, b: int, win: seq<Option<Cell>>)
    requires Framed(cells, a, b, win) && 0 < a
    ensures Framed(cells, a - 1, b, [None] + win)
  {
    assert cells[a - 1..b + 1] == [cells[a - 1]] + cells[a..b + 1];
  }

  /** Growing the window by one empty needle on the right. */
  lemma FrameRight(cells: seq<Option<Cell>>, a: int, b: int, win: seq<Option<Cell>>)
    requires Framed(cells, a, b, win) && b + 1 < |cells|
    ensures Framed(cells, a, b + 1, win + [None])
  {
    assert cells[a..b + 2] == cells[a..b + 1] + [cells[b + 1]];
  }

  /** Writing a cell inside the window writes the same cell of the span. */
  lemma FrameWrite(cells: seq<Option<Cell>>, a: int, b: int, win: seq<Option<Cell>>, k: int, x: Option<Cell>)
    requires Framed(cells, a, b, win) && a <= k <= b && x.Some?
    ensures Framed(cells[k := x], a, b, win[k - a := x])
  {
    assert cells[k := x][a..b + 1] == win[k - a := x];
  }

  /** The least needle among stitches 0..i-1. */
  function LeftEnd(L: Layer, i: nat): int
    requires 0 < i <= |L.at|
  {
    if i == 1 then Home(L, 0) else Min(LeftEnd(L, i - 1), Home(L, i - 1))
  }

  /** The greatest needle among stitches 0..i-1. */
  function RightEnd(L: Layer, i: nat): int
    requires 0 < i <= |L.at|
  {
    if i == 1 then Home(L, 0) else Max(RightEnd(L, i - 1), Home(L, i - 1))
  }

  /** After every stitch, the running ends are the span's ends. */
  lemma {:induction false} EndsAreSpan(L: Layer, i: nat)
    requires 0 < i <= |L.at|
    ensures LeftEnd(L, i) == FlatTransfers.MinOf(Homes(L)[..i])
    ensures RightEnd(L, i) == FlatTransfers.MaxOf(Homes(L)[..i])
  {
    if i > 1 {
      EndsAreSpan(L, i - 1);
      assert Homes(L)[..i][..i - 1] == Homes(L)[..i - 1];
    }
  }

  /** The unshift loop of setOffset: grow the window leftwards until it reaches the needle. */
  method GrowLeft(ghost cells: seq<Option<Cell>>, ghost lo: int, needle: int, a: int, b: int, w: seq<Option<Cell>>)
    returns (a': int, w': seq<Option<Cell>>)
    requires Framed(cells, a - lo, b - lo, w) && lo <= needle
    ensures a' == Min(a, needle) && Framed(cells, a' - lo, b - lo, w')
  {
    a', w' := a, w;
    while needle < a'
      invariant a' <= a && (needle < a ==> needle <= a') && (needle >= a ==> a' == a)
      invariant Framed(cells, a' - lo, b - lo, w')
    {
      FrameLeft(cells, a' - lo, b - lo, w');
      a' := a' - 1;
      w' := [None] + w';
    }
  }

  /** The push loop of setOffset: grow the window rightwards until it reaches the needle. */
  method GrowRight(ghost cells: seq<Option<Cell>>, ghost lo: int, needle: int, a: int, b: int, w: seq<Option<Cell>>)
    returns (b': int, w': seq<Option<Cell>>)
    requires Framed(cells, a - lo, b - lo, w) && needle < lo + |cells|
    ensures b' == Max(b, needle) && Framed(cells, a - lo, b' - lo, w')
  {
    b', w' := b, w;
    while needle > b'
      invariant b <= b' && (needle > b ==> b' <= needle) && (needle <= b ==> b' == b)
      invariant Framed(cells, a - lo, b' - lo, w')
    {
      FrameRight(cells, a - lo, b' - lo, w');
      b' := b' + 1;
      w' := w' + [None];
    }
  }

  /** A stitch's needle lies in the span. */
  lemma HomeWithin(L: Layer, i: nat)
    requires i < |L.at|
    ensures Lo(L) <= Home(L, i) <= Hi(L) && Homes(L)[i] == Home(L, i)
  {
    HomeSpan(L);
  }

  /** Placing stitch i writes its cell into the span and the window alike. */
  lemma FramePlaced(L: Layer, lo: int, hi: int, i: nat, cells: seq<Option<Cell>>,
                    a: int, b: int, w: seq<Option<Cell>>, x: Cell)
    requires Aligned(L) && i < |L.at| && lo == Lo(L) && hi == Hi(L)
    requires Placed(L, i).Ok? && Placed(L, i).value == cells
    requires a <= Home(L, i) <= b && Framed(cells, a - lo, b - lo, w)
    requires PlaceCell(CellAt(lo, cells, Home(L, i)), L.offsets[i], L.firsts[i], L.orders[i]) == Ok(x)
    ensures Placed(L, i + 1).Ok? && Framed(Placed(L, i + 1).value, a - lo, b - lo, w[Home(L, i) - a := Some(x)])
  {
    PlacedUnfold(L, i, lo, hi, cells);
    var h := Home(L, i);
    FrameWrite(cells, a - lo, b - lo, w, h - lo, Some(x));
  }

  /** The window stays the matching piece of the span once stitch i is placed in it. */
  lemma WindowPlaced(L: Layer, lo: int, hi: int, i: nat, cells: seq<Option<Cell>>, a0: int, b0: int,
                     a: int, b: int, w: seq<Option<Cell>>, x: Cell)
    requires Aligned(L) && i < |L.at| && lo == Lo(L) && hi == Hi(L)
    requires Placed(L, i).Ok? && Placed(L, i).value == cells
    requires i == 0 ==> a0 == b0 == Home(L, i)
    requires i > 0 ==> (a0, b0) == (LeftEnd(L, i), RightEnd(L, i))
    requires a == Min(a0, Home(L, i)) && b == Max(b0, Home(L, i))
    requires Framed(cells, a - lo, b - lo, w)
    requires PlaceCell(CellAt(lo, cells, Home(L, i)), L.offsets[i], L.firsts[i], L.orders[i]) == Ok(x)
    ensures Window(L, lo, hi, i + 1, w[Home(L, i) - a := Some(x)], Some((a, b)))
  {
    EndsStep(L, i, a0, b0);
    FramePlaced(L, lo, hi, i, cells, a, b, w, x);
    WindowIntro(L, lo, hi, i + 1, w[Home(L, i) - a := Some(x)], a, b);
  }

  /** The running ends after stitch i, from the ends before it. */
  lemma EndsStep(L: Layer, i: nat, a0: int, b0: int)
    requires i < |L.at|
    requires i == 0 ==> a0 == b0 == Home(L, i)
    requires i > 0 ==> (a0, b0) == (LeftEnd(L, i), RightEnd(L, i))
    ensures (Min(a0, Home(L, i)), Max(b0, Home(L, i))) == (LeftEnd(L, i + 1), RightEnd(L, i + 1))
  {
  }

  /** A window after at least one stitch, from its parts. */
  lemma WindowIntro(L: Layer, lo: int, hi: int, i: nat, win: seq<Option<Cell>>, a: int, b: int)
    requires Aligned(L) && 0 < i <= |L.at| && lo == Lo(L) && hi == Hi(L) && Placed(L, i).Ok?
    requires Framed(Placed(L, i).value, a - lo, b - lo, win)
    requires (a, b) == (LeftEnd(L, i), RightEnd(L, i))
    ensures Window(L, lo, hi, i, win, Some((a, b)))
  {
  }

  /**
   * setOffset: the window grows (unshift on the left, push on the right)
   * until it covers the stitch's needle, and the stitch is placed there.
   */
  method SetOffset(L: Layer, ghost lo: int, ghost hi: int, i: nat, win: seq<Option<Cell>>, bounds: Option<(int, int)>)
    returns (r: Result<(seq<Option<Cell>>, (int, int)), string>)
    requires Window(L, lo, hi, i, win, bounds) && i < |L.at|
    ensures r.Ok? <==> Placed(L, i + 1).Ok?
    ensures r.Err? ==> r.error == Placed(L, i + 1).error
    ensures r.Ok? ==> Window(L, lo, hi, i + 1, r.value.0, Some(r.value.1))
  {
    ghost var cells := Placed(L, i).value;
    var needle := i + L.at[i];
    HomeWithin(L, i);
    if bounds.None? {
      PlacedEmpty(L);
    }
    var a, b, w, a0, b0 := Cover(L, cells, lo, i, win, bounds);
    r := PlaceInWindow(L, lo, hi, i, cells, a0, b0, a, b, w);
  }

  /** Places stitch i into the window that covers its needle. */
  method PlaceInWindow(L: Layer, ghost lo: int, ghost hi: int, i: nat, ghost cells: seq<Option<Cell>>,
                       ghost a0: int, ghost b0: int, a: int, b: int, w: seq<Option<Cell>>)
    returns (r: Result<(seq<Option<Cell>>, (int, int)), string>)
    requires Aligned(L) && i < |L.at| && lo == Lo(L) && hi == Hi(L)
    requires Placed(L, i).Ok? && Placed(L, i).value == cells
    requires i == 0 ==> a0 == b0 == Home(L, i)
    requires i > 0 ==> (a0, b0) == (LeftEnd(L, i), RightEnd(L, i))
    requires a == Min(a0, Home(L, i)) && b == Max(b0, Home(L, i))
    requires Framed(cells, a - lo, b - lo, w)
    requires a <= Home(L, i) <= b && w[Home(L, i) - a] == CellAt(lo, cells, Home(L, i))
    ensures r.Ok? <==> Placed(L, i + 1).Ok?
    ensures r.Err? ==> r.error == Placed(L, i + 1).error
    ensures r.Ok? ==> Window(L, lo, hi, i + 1, r.value.0, Some(r.value.1))
  {
    var needle := i + L.at[i];
    var placed := PlaceCell(w[needle - a], L.offsets[i], L.firsts[i], L.orders[i]);
    if placed.Err? {
      PlacedUnfold(L, i, lo, hi, cells);
      return Err(placed.error);
    }
    WindowPlaced(L, lo, hi, i, cells, a0, b0, a, b, w, placed.value);
    r := Ok((w[needle - a := Some(placed.value)], (a, b)));
  }

  /** The window grown until it covers stitch i's needle, and the cell found there. */
  method Cover(L: Layer, ghost cells: seq<Option<Cell>>, ghost lo: int, i: nat, win: seq<Option<Cell>>, bounds: Option<(int, int)>)
    returns (a: int, b: int, w: seq<Option<Cell>>, ghost a0: int, ghost b0: int)
    requires i < |L.at| && lo <= Home(L, i) < lo + |cells|
    requires bounds.None? ==> forall k :: 0 <= k < |cells| ==> cells[k].None?
    requires bounds.Some? ==> Framed(cells, bounds.value.0 - lo, bounds.value.1 - lo, win)
    ensures bounds.None? ==> a0 == b0 == Home(L, i)
    ensures bounds.Some? ==> (a0, b0) == bounds.value
    ensures a == Min(a0, Home(L, i)) && b == Max(b0, Home(L, i))
    ensures Framed(cells, a - lo, b - lo, w)
    ensures a <= Home(L, i) <= b && w[Home(L, i) - a] == CellAt(lo, cells, Home(L, i))
  {
    var needle := i + L.at[i];
    if bounds.None? {
      a, b, w := needle, needle, [None];
      assert Framed(cells, a - lo, b - lo, w);
    } else {
      a, b, w := bounds.value.0, bounds.value.1, win;
    }
    a0, b0 := a, b;
    a, w := GrowLeft(cells, lo, needle, a, b, w);
    b, w := GrowRight(cells, lo, needle, a, b, w);
    FramedAt(cells, a - lo, b - lo, w, needle - lo);
  }

  /** Before any stitch is placed, every cell of the span is empty. */
  lemma PlacedEmpty(L: Layer)
    requires Aligned(L) && 0 < |L.at|
    ensures Placed(L, 0).Ok? && forall k :: 0 <= k < |Placed(L, 0).value| ==> Placed(L, 0).value[k].None?
  {
  }

  /** Inside the window, the window and the span hold the same cell. */
  lemma FramedAt(cells: seq<Option<Cell>>, a: int, b: int, win: seq<Option<Cell>>, k: int)
    requires Framed(cells, a, b, win) && a <= k <= b
    ensures k - a < |win| && win[k - a] == cells[k]
  {
  }

  /** The placement loop of setMapped: every stitch, in index order, on the needle it occupies. */
  method PlaceAll(L: Layer) returns (r: Result<(int, seq<Option<Cell>>), string>)
    requires Aligned(L) && 0 < |L.at|
    ensures r.Ok? <==> Placed(L, |L.at|).Ok?
    ensures r.Err? ==> r.error == Placed(L, |L.at|).error
    ensures r.Ok? ==> r.value == (Lo(L), Placed(L, |L.at|).value)
  {
    ghost var lo, hi := Lo(L), Hi(L);
    var win: seq<Option<Cell>> := [];
    var bounds: Option<(int, int)> := None;
    var i := 0;
    while i < |L.at|
      invariant Window(L, lo, hi, i, win, bounds)
    {
      var step := SetOffset(L, lo, hi, i, win, bounds);
      if step.Err? {
        PlacedErrAtEnd(L, i + 1, step.error);
        return Err(step.error);
      }
      win, bounds := step.value.0, Some(step.value.1);
      i := i + 1;
    }
    WindowWhole(L, lo, hi, win, bounds);
    return Ok((bounds.value.0, win));
  }

  /** Once every stitch is placed, the window is the whole span. */
  lemma WindowWhole(L: Layer, lo: int, hi: int, win: seq<Option<Cell>>, bounds: Option<(int, int)>)
    requires Window(L, lo, hi, |L.at|, win, bounds)
    ensures bounds.Some? && bounds.value.0 == Lo(L) && win == Placed(L, |L.at|).value
  {
    EndsAreSpan(L, |L.at|);
    assert Homes(L)[..|L.at|] == Homes(L);
    var cells := Placed(L, |L.at|).value;
    assert bounds.value.0 - lo == 0 && bounds.value.1 - lo == |cells| - 1;
    assert cells[0..|cells|] == cells;
  }

  lemma PlacedErrAtEnd(L: Layer, i: nat, e: string)
    requires Aligned(L) && 0 < |L.at| && 0 < i <= |L.at| && Placed(L, i) == Err(e)
    ensures Placed(L, |L.at|) == Err(e)
  {
    PlacedStopsAt(L, i);
  }

  /** Once one placement fails, every later prefix fails with the same error. */
  lemma {:induction false} PlacedStopsAt(L: Layer, i: nat)
    requires Aligned(L) && 0 < |L.at| && 0 < i <= |L.at| && Placed(L, i).Err?
    ensures Placed(L, |L.at|) == Placed(L, i)
    decreases |L.at| - i
  {
    if i < |L.at| {
      assert Placed(L, i + 1) == Placed(L, i);
      PlacedStopsAt(L, i + 1);
    }
  }

  /** The ignore map after the first k needles of the span. */
  lemma IgnoreSnoc(lo: int, raw: seq<Option<int>>, k: nat)
    requires k < |raw|
    ensures IgnoreOf(lo, raw[..k + 1]) == IgnoreOf(lo, raw[..k])[FrontAt(lo, k) := raw[k].None?]
  {
    assert raw[..k + 1][..k] == raw[..k];
  }

  /**
   * The gap loop of setMapped: from left to right each empty needle takes
   * its offset from its neighbours, and every needle of the span gets its
   * ignore mark.
   */
  method FillGaps(lo: int, raw: seq<Option<int>>) returns (filled: seq<Option<int>>, ignore: map<Loc, bool>)
    requires EndsHeld(raw)
    ensures filled == Filled(raw, |raw|)
    ensures ignore == IgnoreOf(lo, raw)
  {
    filled := raw;
    ignore := map[];
    assert IgnoreOf(lo, raw[..0]) == map[];
    for k := 0 to |raw|
      invariant filled == Filled(raw, k)
      invariant ignore == IgnoreOf(lo, raw[..k])
    {
      IgnoreSnoc(lo, raw, k);
      if filled[k].None? {
        filled := filled[k := GapValue(filled[k - 1], filled[k + 1])];
        ignore := ignore[FrontAt(lo, k) := true];
      } else {
        ignore := ignore[FrontAt(lo, k) := false];
      }
    }
    assert raw[..|raw|] == raw;
  }

  /** The every() test that picks lace_transfers: no mapped offset beyond one needle. */
  method SmallOffsets(offsets: seq<int>) returns (small: bool)
    ensures small <==> forall k :: 0 <= k < |offsets| ==> Abs(offsets[k]) <= 1
  {
    small := true;
    for k := 0 to |offsets|
      invariant small <==> forall j :: 0 <= j < k ==> Abs(offsets[j]) <= 1
    {
      if Abs(offsets[k]) > 1 {
        small := false;
      }
    }
  }

  /** indexOf on a needle's stack: the first position of x, or -1. */
  method IndexOf(s: TestDriver.Stack, x: nat) returns (k: int)
    ensures k == -1 <==> x !in s
    ensures k != -1 ==> 0 <= k < |s| && s[k] == x && x !in s[..k]
  {
    k := 0;
    while k < |s| && s[k] != x
      invariant 0 <= k <= |s| && x !in s[..k]
    {
      assert s[..k + 1] == s[..k] + [s[k]];
      k := k + 1;
    }
    if k == |s| {
      assert s[..k] == s;
      k := -1;
    }
  }

  /** The closing check of general_transfers on the shadow needles. */
  method CheckArrival(offsets: seq<int>, firsts: seq<bool>, m: Needles) returns (r: Result<(), string>)
    requires |firsts| == |offsets|
    ensures r.Ok? <==> Arrived(offsets, firsts, m)
  {
    for i := 0 to |offsets|
      invariant forall j :: 0 <= j < i ==>
        var dest := Loc(F, j + offsets[j]);
        dest in m && j as nat in m[dest] && (firsts[j] ==> m[dest][0] == j)
    {
      var dest := Loc(F, i + offsets[i]);
      if dest !in m {
        return Err(NotHeld);
      }
      var at := IndexOf(m[dest], i);
      if at == -1 {
        return Err(NotReached);
      }
      if firsts[i] && at != 0 {
        return Err(NotFirst);
      }
    }
    return Ok(());
  }

  // ---------------------------------------------------------------------
  // The state of one general_transfers call

  /** What can stop general_transfers, by the stage that raised it. */
  datatype Failure =
    | InputFailed(message: string)
    | SplitFailed(message: string)
    | LimitFailed(message: string)
    | NoProgress
    | MappingFailed(message: string)
    | PlannerFailed(message: string)
    | TransferFailed(message: string)
    | CheckFailed(message: string)

  /**
   * The variables the callbacks of one general_transfers call share: the
   * checking needle map, the plan passed on so far, and the current
   * mapping's minNeedle and ignore map.
   */
  class Transfers {
    const count: nat
    var needles: Needles
    var out: seq<Op>
    var minNeedle: int
    var ignore: map<Loc, bool>

    function State(): Shadowed
      reads this
    {
      Shadowed(needles, out, ignore)
    }

    /** The checking needles are the replay of the plan passed on so far. */
    predicate Valid()
      reads this
    {
      Replays(count, State())
    }

    /** Stitch i alone on front needle i, nothing passed on yet. */
    constructor (n: nat)
      ensures count == n && needles == TestDriver.Initial(n) && out == [] && ignore == map[] && minNeedle == 0
      ensures Valid()
    {
      count := n;
      needles := TestDriver.Initial(n);
      out := [];
      minNeedle := 0;
      ignore := map[];
    }

    /** The checking xfer: pour the source stack onto the destination, forget the source, pass the transfer on. */
    method Xfer(op: Op) returns (r: Result<(), string>)
      requires Valid()
      modifies this
      ensures Valid() && minNeedle == old(minNeedle) && ignore == old(ignore)
      ensures r.Ok? <==> Shadow(old(needles), op).Ok?
      ensures r.Err? ==> r.error == Shadow(old(needles), op).error && needles == old(needles) && out == old(out)
      ensures r.Ok? ==> needles == Shadow(old(needles), op).value && out == old(out) + [op]
    {
      var from, to := Loc(op.fromBed, op.fromNeedle), Loc(op.toBed, op.toNeedle);
      if from !in needles {
        return Err(MissingSource);
      }
      if from == to {
        return Err(SelfTransfer);
      }
      var dest := if to in needles then needles[to] else [];
      var poured := TestDriver.Pour(needles[from], dest);
      ghost var m := needles;
      needles := needles[to := poured] - {from};
      assert needles == TestDriver.MoveStack(m, from, to) - {from};
      ShadowRunSnoc(TestDriver.Initial(count), out, op);
      out := out + [op];
      r := Ok(());
    }

    /** mappedXfer: undo the mapping, drop transfers from needles that started empty. */
    method MappedXfer(op: Op) returns (r: Result<(), string>)
      requires Valid()
      modifies this
      ensures Valid() && minNeedle == old(minNeedle)
      ensures r.Ok? <==> MappedStep(old(State()), minNeedle, op).Ok?
      ensures r.Err? ==> r.error == MappedStep(old(State()), minNeedle, op).error
      ensures r.Ok? ==> State() == MappedStep(old(State()), minNeedle, op).value
    {
      var fromNeedle, toNeedle := op.fromNeedle + minNeedle, op.toNeedle + minNeedle;
      var from, to := Loc(op.fromBed, fromNeedle), Loc(op.toBed, toNeedle);
      if from !in ignore {
        return Err(UnknownNeedle);
      }
      var skip := ignore[from];
      ignore := ignore - {from};
      if !skip {
        ignore := ignore[to := false];
        r := Xfer(Unmapped(minNeedle, op));
      } else {
        if to !in ignore {
          ignore := ignore[to := true];
        }
        r := Ok(());
      }
    }

    /** A planner's whole output, each transfer through mappedXfer. */
    method Replay(ops: seq<Op>) returns (r: Result<(), string>)
      requires Valid()
      modifies this
      ensures Valid() && minNeedle == old(minNeedle)
      ensures r.Ok? <==> MappedRun(old(State()), minNeedle, ops).Ok?
      ensures r.Err? ==> r.error == MappedRun(old(State()), minNeedle, ops).error
      ensures r.Ok? ==> State() == MappedRun(old(State()), minNeedle, ops).value
    {
      ghost var st0 := State();
      for k := 0 to |ops|
        invariant Valid() && minNeedle == old(minNeedle)
        invariant MappedRun(st0, minNeedle, ops[..k]) == Ok(State())
      {
        assert ops[..k + 1][..k] == ops[..k];
        var step := MappedXfer(ops[k]);
        if step.Err? {
          MappedRunStops(st0, minNeedle, ops, k + 1);
          return Err(step.error);
        }
      }
      assert ops[..|ops|] == ops;
      r := Ok(());
    }

    /** setMapped: the mapping of one layer, which also sets minNeedle and the ignore map. */
    method SetMapped(L: Layer) returns (r: Result<Mapping, string>)
      requires Aligned(L) && Valid()
      modifies this
      ensures Valid() && needles == old(needles) && out == old(out)
      ensures r == MappedResult(L)
      ensures r.Ok? ==> minNeedle == r.value.minNeedle && ignore == r.value.ignore
    {
      r := MapLayer(L);
      if r.Ok? {
        minNeedle := r.value.minNeedle;
        ignore := r.value.ignore;
      }
    }
  }

  /** The computation behind setMapped, before the mapping is stored. */
  method MapLayer(L: Layer) returns (r: Result<Mapping, string>)
    requires Aligned(L)
    ensures r == MappedResult(L)
  {
    if |L.at| == 0 {
      return Ok(Mapping(0, [], [], [], map[]));
    }
    var placed := PlaceAll(L);
    if placed.Err? {
      return Err(placed.error);
    }
    var lo, cells := placed.value.0, placed.value.1;
    MappedEnds(L);
    var raw := OffsetsOf(cells);
    var filled, ign := FillGaps(lo, raw);
    if !AllSome(filled) {
      return Err(OpenGap);
    }
    r := Ok(Mapping(lo, Values(filled), FirstsOf(cells), OrdersOf(cells), ign));
  }

  /** Once one mapped transfer fails, the whole run fails with the same error. */
  lemma {:induction false} MappedRunStops(st: Shadowed, minNeedle: int, ops: seq<Op>, k: nat)
    requires 0 < k <= |ops| && MappedRun(st, minNeedle, ops[..k]).Err?
    ensures MappedRun(st, minNeedle, ops) == MappedRun(st, minNeedle, ops[..k])
    decreases |ops| - k
  {
    if k < |ops| {
      assert ops[..k + 1][..k] == ops[..k];
      MappedRunStops(st, minNeedle, ops, k + 1);
    } else {
      assert ops[..k] == ops;
    }
  }

  // ---------------------------------------------------------------------
  // Progress of the flat loop

  /** A movement cut to at most one needle either way. */
  function Clamp(x: int): (c: int)
    ensures -1 <= c <= 1 && Abs(x - c) <= Abs(x)
    ensures x != 0 ==> Abs(x - c) < Abs(x)
  {
    Max(-1, Min(1, x))
  }

  function ClampAll(s: seq<int>): (c: seq<int>)
    ensures |c| == |s| && forall i :: 0 <= i < |s| ==> c[i] == Clamp(s[i])
  {
    seq(|s|, i requires 0 <= i < |s| => Clamp(s[i]))
  }

  /** Moving every stitch by at most one needle towards its target is a valid short part. */
  lemma ClampValid(offsets: seq<int>, limit: int)
    requires CableFree(offsets) && limit >= 1
    ensures LimitOffsets.ValidShort(offsets, limit, ClampAll(offsets))
  {
    var c := ClampAll(offsets);
    forall i | 1 <= i < |offsets| ensures LimitOffsets.LimitEdge(offsets, i, c[i - 1], c[i]) {
      assert offsets[i - 1] <= 1 + offsets[i];
    }
  }

  /** A pointwise smaller sequence has a smaller total, strictly so when one entry is strictly smaller. */
  lemma {:induction false} SumAbsShrinks(s: seq<int>, t: seq<int>)
    requires |s| == |t| && forall i :: 0 <= i < |s| ==> Abs(s[i]) <= Abs(t[i])
    ensures SumAbs(s) <= SumAbs(t)
    ensures (exists i :: 0 <= i < |s| && Abs(s[i]) < Abs(t[i])) ==> SumAbs(s) < SumAbs(t)
  {
    if s != [] {
      assert forall i :: 0 <= i < |s| - 1 ==> s[1..][i] == s[i + 1] && t[1..][i] == t[i + 1];
      SumAbsShrinks(s[1..], t[1..]);
      if exists i :: 0 <= i < |s| && Abs(s[i]) < Abs(t[i]) {
        var i :| 0 <= i < |s| && Abs(s[i]) < Abs(t[i]);
        if i > 0 {
          assert Abs(s[1..][i - 1]) < Abs(t[1..][i - 1]);
        }
      }
    }
  }

  /**
   * With a racking limit of at least one, limit_offsets always leaves
   * strictly less long movement than it was given, so the flat loop of
   * general_transfers ends.
   */
  lemma Progress(offsets: seq<int>, limit: int, long: seq<int>)
    requires CableFree(offsets) && !AllZero(offsets) && limit >= 1
    requires forall s :: LimitOffsets.ValidShort(offsets, limit, s) ==> SumAbs(long) <= SumAbs(LimitOffsets.LongOf(offsets, s))
    ensures SumAbs(long) < SumAbs(offsets)
  {
    var c := ClampAll(offsets);
    ClampValid(offsets, limit);
    var rest := LimitOffsets.LongOf(offsets, c);
    var i :| 0 <= i < |offsets| && offsets[i] != 0;
    assert rest[i] == offsets[i] - Clamp(offsets[i]);
    SumAbsShrinks(rest, offsets);
  }

  // ---------------------------------------------------------------------
  // general_transfers

  /** The shifted stitch positions atOffsets: how far each stitch has already moved. */
  method AtOffsets(flat: seq<int>, remaining: seq<int>) returns (at: seq<int>)
    requires |remaining| == |flat|
    ensures |at| == |flat| && forall i :: 0 <= i < |flat| ==> at[i] == flat[i] - remaining[i]
  {
    at := [];
    for i := 0 to |flat|
      invariant |at| == i && forall j :: 0 <= j < i ==> at[j] == flat[j] - remaining[j]
    {
      at := at + [flat[i] - remaining[i]];
    }
  }

  /**
   * general_transfers: split off the cables, move the flat part round by
   * round within the racking limit (lace_transfers when every mapped
   * offset is at most one needle, flat_transfers otherwise), then the
   * cables, every transfer going through mappedXfer onto the checking
   * needles.  A plan it returns delivers every stitch to its target, and
   * first-marked stitches first; a non-negative limit never fails in the
   * limit step, and a positive one always makes progress.
   */
  method GeneralTransfers(offsets: seq<int>, firsts: seq<bool>, orders: seq<int>, limit: int, fuel: nat)
    returns (r: Result<seq<Op>, Failure>)
    requires |orders| == |offsets|
    ensures |offsets| != |firsts| ==> r == Err(InputFailed(LengthMismatch))
    ensures r.Ok? ==> |firsts| == |offsets| && Delivers(offsets, firsts, r.value)
    ensures limit >= 0 ==> !(r.Err? && r.error.LimitFailed?)
    ensures limit >= 1 ==> r != Err(NoProgress)
  {
    if |offsets| != |firsts| {
      return Err(InputFailed(LengthMismatch));
    }
    var n := |offsets|;
    var t := new Transfers(n);
    var fc := SplitCables.SplitCables(offsets);
    if fc.Err? {
      return Err(SplitFailed(fc.error));
    }
    var flat, cable := fc.value.flat, fc.value.cable;
    SplitCables.ValidCablesMeaning(offsets, cable);
    var remaining := flat;
    var done := FlatTransfers.Finished(remaining);
    while !done
      invariant t.Valid() && t.count == n
      invariant |remaining| == n && CableFree(remaining)
      invariant done <==> AllZero(remaining)
      decreases SumAbs(remaining)
    {
      var sl := LimitOffsets.Limit(remaining, limit);
      if sl.Err? {
        return Err(LimitFailed(sl.error));
      }
      var short, long := sl.value.short, sl.value.long;
      if SumAbs(long) >= SumAbs(remaining) {
        if limit >= 1 {
          Progress(remaining, limit, long);
        }
        return Err(NoProgress);
      }
      LimitOffsets.ValidShortMeaning(remaining, limit, short);
      var at := AtOffsets(flat, remaining);
      var mapped := t.SetMapped(Layer(short, firsts, orders, at));
      if mapped.Err? {
        return Err(MappingFailed(mapped.error));
      }
      var useLace := SmallOffsets(mapped.value.offsets);
      var plan;
      if useLace {
        plan := LaceTransfers.Lace(mapped.value.offsets, mapped.value.firsts);
      } else {
        plan := FlatTransfers.Flat(mapped.value.offsets, mapped.value.firsts, fuel);
      }
      if plan.Err? {
        return Err(PlannerFailed(plan.error));
      }
      var moved := t.Replay(plan.value);
      if moved.Err? {
        return Err(TransferFailed(moved.error));
      }
      remaining := long;
      done := FlatTransfers.Finished(remaining);
    }
    var mapped := t.SetMapped(Layer(cable, firsts, orders, flat));
    if mapped.Err? {
      return Err(MappingFailed(mapped.error));
    }
    var plan := CableTransfers.Cables(mapped.value.offsets, mapped.value.orders);
    if plan.Err? {
      return Err(PlannerFailed(plan.error));
    }
    var moved := t.Replay(plan.value);
    if moved.Err? {
      return Err(TransferFailed(moved.error));
    }
    var check := CheckArrival(offsets, firsts, t.needles);
    if check.Err? {
      return Err(CheckFailed(check.error));
    }
    return Ok(t.out);
  }

  // ---------------------------------------------------------------------
  // The lace callbacks as written

  /**
   * The key mappedXfer looks up for a lace transfer, with the callbacks as
   * general_transfers passes them: lace_transfers calls its one xfer
   * callback with the source bed's name where the first callback expects a
   * needle index, so the lookup glues 'f', that bed name and minNeedle.
   */
  function AsWrittenLaceKey(op: Op, minNeedle: int): (key: string)
    ensures |key| >= 2 && key[0] == 'f' && key[1] == BedName(op.fromBed)[0]
  {
    "f" + BedName(op.fromBed) + NumberText(minNeedle)
  }

  /** That key is no needle's key: its second letter is a bed letter, never a digit, sign or 's'. */
  lemma AsWrittenLaceKeyUnknown(op: Op, minNeedle: int, l: Loc)
    ensures AsWrittenLaceKey(op, minNeedle) != KeyText(l)
  {
    var key, text := AsWrittenLaceKey(op, minNeedle), KeyText(l);
    assert key[1] != text[1];
  }

  /** One lace transfer through the callbacks as written: found under its key, or dropped (the assertion only logs). */
  function AsWrittenLaceStep(st: Shadowed, minNeedle: int, op: Op): Result<Shadowed, string>
  {
    if exists l :: l in st.ignore && KeyText(l) == AsWrittenLaceKey(op, minNeedle) then MappedStep(st, minNeedle, op)
    else Ok(st)
  }

  function AsWrittenLaceRun(st: Shadowed, minNeedle: int, ops: seq<Op>): Result<Shadowed, string>
  {
    if ops == [] then Ok(st)
    else match AsWrittenLaceRun(st, minNeedle, ops[..|ops| - 1])
      case Err(e) => Err(e)
      case Ok(st') => AsWrittenLaceStep(st', minNeedle, ops[|ops| - 1])
  }

  /** As written, a lace round changes neither the checking needles nor the plan: every transfer is dropped. */
  lemma {:induction false} AsWrittenLaceDrops(st: Shadowed, minNeedle: int, ops: seq<Op>)
    ensures AsWrittenLaceRun(st, minNeedle, ops) == Ok(st)
  {
    if ops != [] {
      AsWrittenLaceDrops(st, minNeedle, ops[..|ops| - 1]);
      forall l | l in st.ignore ensures KeyText(l) != AsWrittenLaceKey(ops[|ops| - 1], minNeedle) {
        AsWrittenLaceKeyUnknown(ops[|ops| - 1], minNeedle, l);
      }
    }
  }

  /**
   * Offsets [0, -1] need one lace round (stitch 1 onto needle 0); as
   * written that round leaves the needles as they started, where stitch 1
   * has not arrived.
   */
  lemma AsWrittenLaceStalls(ignore: map<Loc, bool>, ops: seq<Op>)
    ensures var st := Shadowed(TestDriver.Initial(2), [], ignore);
      AsWrittenLaceRun(st, 0, ops) == Ok(st)
      && !Arrived([0, -1], [false, false], AsWrittenLaceRun(st, 0, ops).value.needles)
  {
    AsWrittenLaceDrops(Shadowed(TestDriver.Initial(2), [], ignore), 0, ops);
    var m := TestDriver.Initial(2);
    var offsets: seq<int> := [0, -1];
    assert Loc(F, 1 + offsets[1]) == Loc(F, 0);
    assert m[Loc(F, 0)] == [0] && 1 !in m[Loc(F, 0)];
  }

  // ---------------------------------------------------------------------
  // A flat_transfers plan replayed on the checking map

  /** The two lifts of the scenario below. */
  lemma FlatScenarioLifts()
    ensures Shadow(TestDriver.Initial(2), Xfer(F, 1, B, 1)) == Ok(map[Loc(F, 0) := [0], Loc(B, 1) := [1]])
    ensures Shadow(map[Loc(F, 0) := [0], Loc(B, 1) := [1]], Xfer(F, 0, B, 0)) == Ok(map[Loc(B, 0) := [0], Loc(B, 1) := [1]])
  {
    var m0 := TestDriver.Initial(2);
    assert m0 == map[Loc(F, 0) := [0], Loc(F, 1) := [1]];
    assert Reverse([0]) == [0] && Reverse([1]) == [1];
    var mv := TestDriver.MoveStack(m0, Loc(F, 1), Loc(B, 1));
    assert mv == map[Loc(F, 0) := [0], Loc(F, 1) := [], Loc(B, 1) := [1]];
    assert mv - {Loc(F, 1)} == map[Loc(F, 0) := [0], Loc(B, 1) := [1]];
    var m1 := map[Loc(F, 0) := [0], Loc(B, 1) := [1]];
    mv := TestDriver.MoveStack(m1, Loc(F, 0), Loc(B, 0));
    assert mv == map[Loc(F, 0) := [], Loc(B, 0) := [0], Loc(B, 1) := [1]];
    assert mv - {Loc(F, 0)} == map[Loc(B, 0) := [0], Loc(B, 1) := [1]];
  }

  /** Stitch 0 parks on a slider and stitch 1 drops onto needle 0. */
  lemma FlatScenarioPark()
    ensures Shadow(map[Loc(B, 0) := [0], Loc(B, 1) := [1]], Xfer(B, 0, FS, -1)) == Ok(map[Loc(FS, -1) := [0], Loc(B, 1) := [1]])
    ensures Shadow(map[Loc(FS, -1) := [0], Loc(B, 1) := [1]], Xfer(B, 1, F, 0)) == Ok(map[Loc(FS, -1) := [0], Loc(F, 0) := [1]])
  {
    assert Reverse([0]) == [0] && Reverse([1]) == [1];
    var m2 := map[Loc(B, 0) := [0], Loc(B, 1) := [1]];
    var mv := TestDriver.MoveStack(m2, Loc(B, 0), Loc(FS, -1));
    assert mv == map[Loc(B, 0) := [], Loc(FS, -1) := [0], Loc(B, 1) := [1]];
    assert mv - {Loc(B, 0)} == map[Loc(FS, -1) := [0], Loc(B, 1) := [1]];
    var m3 := map[Loc(FS, -1) := [0], Loc(B, 1) := [1]];
    mv := TestDriver.MoveStack(m3, Loc(B, 1), Loc(F, 0));
    assert mv == map[Loc(FS, -1) := [0], Loc(B, 1) := [], Loc(F, 0) := [1]];
    assert mv - {Loc(B, 1)} == map[Loc(FS, -1) := [0], Loc(F, 0) := [1]];
  }

  /** Stitch 0 comes back from the slider and lands on top of stitch 1. */
  lemma FlatScenarioReturn()
    ensures Shadow(map[Loc(FS, -1) := [0], Loc(F, 0) := [1]], Xfer(FS, -1, B, -1)) == Ok(map[Loc(B, -1) := [0], Loc(F, 0) := [1]])
    ensures Shadow(map[Loc(B, -1) := [0], Loc(F, 0) := [1]], Xfer(B, -1, F, 0)) == Ok(map[Loc(F, 0) := [1, 0]])
  {
    assert Reverse([0]) == [0];
    var m4 := map[Loc(FS, -1) := [0], Loc(F, 0) := [1]];
    var mv := TestDriver.MoveStack(m4, Loc(FS, -1), Loc(B, -1));
    assert mv == map[Loc(FS, -1) := [], Loc(B, -1) := [0], Loc(F, 0) := [1]];
    assert mv - {Loc(FS, -1)} == map[Loc(B, -1) := [0], Loc(F, 0) := [1]];
    var m5 := map[Loc(B, -1) := [0], Loc(F, 0) := [1]];
    mv := TestDriver.MoveStack(m5, Loc(B, -1), Loc(F, 0));
    var stack: seq<nat> := [1];
    assert stack + Reverse([0]) == [1, 0];
    assert mv == map[Loc(B, -1) := [], Loc(F, 0) := [1, 0]];
    assert mv - {Loc(B, -1)} == map[Loc(F, 0) := [1, 0]];
  }

  /** The first half of the scenario's plan, replayed from the start. */
  lemma FlatScenarioFirstHalf()
    ensures ShadowRun(TestDriver.Initial(2), [Xfer(F, 1, B, 1), Xfer(F, 0, B, 0), Xfer(B, 0, FS, -1)])
      == Ok(map[Loc(FS, -1) := [0], Loc(B, 1) := [1]])
  {
    FlatScenarioLifts();
    FlatScenarioPark();
    var o1, o2, o3 := Xfer(F, 1, B, 1), Xfer(F, 0, B, 0), Xfer(B, 0, FS, -1);
    var m0 := TestDriver.Initial(2);
    ShadowRunSnoc(m0, [], o1);
    ShadowRunSnoc(m0, [o1], o2);
    ShadowRunSnoc(m0, [o1, o2], o3);
    assert [] + [o1] == [o1] && [o1] + [o2] == [o1, o2] && [o1, o2] + [o3] == [o1, o2, o3];
  }

  /** The whole plan of the scenario, replayed from the start. */
  lemma FlatScenarioRun()
    ensures ShadowRun(TestDriver.Initial(2), [Xfer(F, 1, B, 1), Xfer(F, 0, B, 0), Xfer(B, 0, FS, -1),
                                              Xfer(B, 1, F, 0), Xfer(FS, -1, B, -1), Xfer(B, -1, F, 0)])
      == Ok(map[Loc(F, 0) := [1, 0]])
  {
    FlatScenarioFirstHalf();
    FlatScenarioPark();
    FlatScenarioReturn();
    var o1, o2, o3 := Xfer(F, 1, B, 1), Xfer(F, 0, B, 0), Xfer(B, 0, FS, -1);
    var o4, o5, o6 := Xfer(B, 1, F, 0), Xfer(FS, -1, B, -1), Xfer(B, -1, F, 0);
    var m0 := TestDriver.Initial(2);
    ShadowRunSnoc(m0, [o1, o2, o3], o4);
    ShadowRunSnoc(m0, [o1, o2, o3, o4], o5);
    ShadowRunSnoc(m0, [o1, o2, o3, o4, o5], o6);
    assert [o1, o2, o3] + [o4] == [o1, o2, o3, o4] && [o1, o2, o3, o4] + [o5] == [o1, o2, o3, o4, o5];
    assert [o1, o2, o3, o4, o5] + [o6] == [o1, o2, o3, o4, o5, o6];
  }

  /**
   * Offsets [0, -1] with stitch 1 marked first: the plan flat_transfers
   * emits, replayed from the start, leaves both stitches on needle 0 with
   * stitch 1 at the bottom, because stitch 0 waits on a slider while
   * stitch 1 drops.
   */
  lemma FlatScenarioDelivers()
    ensures FlatTransfers.FlatResult([0, -1], [false, true], 1).Ok?
    ensures ShadowRun(TestDriver.Initial(2), FlatTransfers.FlatResult([0, -1], [false, true], 1).value)
      == Ok(map[Loc(F, 0) := [1, 0]])
    ensures Delivers([0, -1], [false, true], FlatTransfers.FlatResult([0, -1], [false, true], 1).value)
  {
    FlatTransfers.SliderScenario();
    FlatScenarioRun();
    var offsets: seq<int> := [0, -1];
    assert Loc(F, 1 + offsets[1]) == Loc(F, 0);
  }
}
