/**
 * cable_transfers: transfers for offsets that are only simple cables.  A
 * cable is a run of l stitches of offset L, then m of offset M, then r of
 * offset R with L = m + r, M = r - l and R = -(l + m): the three groups go to
 * the back and return in the order their crossing orders ask for.
 */
module CableTransfers {
  import opened Knit

  /** A cable starting at stitch l0 with groups of l, m and r stitches. */
  datatype Cable = Cable(l0: nat, l: nat, m: nat, r: nat)

  function MidStart(c: Cable): nat { c.l0 + c.l }

  function RightStart(c: Cable): nat { c.l0 + c.l + c.m }

  function End(c: Cable): nat { c.l0 + c.l + c.m + c.r }

  /** The len stitches from start all have the offset of the first. */
  predicate Run(offsets: seq<int>, start: nat, len: nat)
  {
    start + len <= |offsets| && forall k :: start <= k < start + len ==> offsets[k] == offsets[start]
  }

  /** The offsets the three groups need: L = m+r, M = r-l, R = -(l+m). */
  predicate Shifts(offsets: seq<int>, c: Cable)
    requires RightStart(c) < |offsets|
  {
    offsets[c.l0] == c.m + c.r
    && (c.m == 0 || offsets[MidStart(c)] == c.r - c.l)
    && offsets[RightStart(c)] == -(c.l + c.m)
  }

  /** The stitches from c.l0 form the cable c. */
  predicate IsMatch(offsets: seq<int>, c: Cable)
  {
    c.l >= 1 && c.r >= 1 && End(c) <= |offsets|
    && Run(offsets, c.l0, c.l) && Run(offsets, MidStart(c), c.m) && Run(offsets, RightStart(c), c.r)
    && Shifts(offsets, c)
  }

  /** The search order of the source: by l, then m, then r. */
  predicate Earlier(a: Cable, b: Cable)
  {
    a.l < b.l || (a.l == b.l && (a.m < b.m || (a.m == b.m && a.r < b.r)))
  }

  // ---------------------------------------------------------------------
  // The search at one starting stitch, loop by loop

  /** The r loop: the first r' >= r whose group is a run and whose shifts fit. */
  function FirstR(offsets: seq<int>, l0: nat, l: nat, m: nat, r: nat): (c: Option<Cable>)
    requires 1 <= l && 1 <= r && l0 + l + m <= |offsets|
    ensures c.Some? ==> c.value.l0 == l0 && c.value.l == l && c.value.m == m && r <= c.value.r && End(c.value) <= |offsets|
    decreases |offsets| + 1 - (l0 + l + m + r)
  {
    var r0 := l0 + l + m;
    if r0 + r > |offsets| || offsets[r0 + r - 1] != offsets[r0] then None
    else if Shifts(offsets, Cable(l0, l, m, r)) then Some(Cable(l0, l, m, r))
    else FirstR(offsets, l0, l, m, r + 1)
  }

  /** The m loop. */
  function FirstM(offsets: seq<int>, l0: nat, l: nat, m: nat): (c: Option<Cable>)
    requires 1 <= l && l0 + l <= |offsets|
    ensures c.Some? ==> c.value.l0 == l0 && c.value.l == l && m <= c.value.m && c.value.r >= 1 && End(c.value) <= |offsets|
    decreases |offsets| + 1 - (l0 + l + m)
  {
    var m0 := l0 + l;
    if m0 + m > |offsets| || (m > 0 && offsets[m0 + m - 1] != offsets[m0]) then None
    else match FirstR(offsets, l0, l, m, 1)
      case Some(c) => Some(c)
      case None => FirstM(offsets, l0, l, m + 1)
  }

  /** The l loop. */
  function FirstL(offsets: seq<int>, l0: nat, l: nat): (c: Option<Cable>)
    requires 1 <= l
    ensures c.Some? ==> c.value.l0 == l0 && l <= c.value.l && c.value.r >= 1 && End(c.value) <= |offsets|
    decreases |offsets| + 1 - (l0 + l)
  {
    if l0 + l > |offsets| || offsets[l0 + l - 1] != offsets[l0] then None
    else match FirstM(offsets, l0, l, 0)
      case Some(c) => Some(c)
      case None => FirstL(offsets, l0, l + 1)
  }

  /** The cable the source finds at l0, if any. */
  function FirstMatch(offsets: seq<int>, l0: nat): (c: Option<Cable>)
    ensures c.Some? ==> c.value.l0 == l0 && c.value.l >= 1 && c.value.r >= 1 && End(c.value) <= |offsets|
  {
    FirstL(offsets, l0, 1)
  }

  /** The right group of c is a run and its shifts fit. */
  predicate RightFits(offsets: seq<int>, c: Cable)
  {
    c.r >= 1 && End(c) <= |offsets| && Run(offsets, RightStart(c), c.r) && Shifts(offsets, c)
  }

  lemma {:induction false} FirstRFound(offsets: seq<int>, l0: nat, l: nat, m: nat, r: nat)
    requires 1 <= l && 1 <= r && l0 + l + m <= |offsets|
    requires Run(offsets, l0 + l + m, r - 1)
    ensures FirstR(offsets, l0, l, m, r).Some? ==> RightFits(offsets, FirstR(offsets, l0, l, m, r).value)
    decreases |offsets| + 1 - (l0 + l + m + r)
  {
    var r0 := l0 + l + m;
    if r0 + r <= |offsets| && offsets[r0 + r - 1] == offsets[r0] {
      assert Run(offsets, r0, r);
      if !Shifts(offsets, Cable(l0, l, m, r)) {
        FirstRFound(offsets, l0, l, m, r + 1);
      }
    }
  }

  /** The r loop reaches any fitting right group at or after r. */
  lemma {:induction false} FirstRLeast(offsets: seq<int>, l0: nat, l: nat, m: nat, r: nat, c: Cable)
    requires 1 <= l && 1 <= r && l0 + l + m <= |offsets|
    requires c.l0 == l0 && c.l == l && c.m == m && r <= c.r && RightFits(offsets, c)
    ensures FirstR(offsets, l0, l, m, r).Some? && FirstR(offsets, l0, l, m, r).value.r <= c.r
    decreases |offsets| + 1 - (l0 + l + m + r)
  {
    var r0 := l0 + l + m;
    assert r0 + r <= |offsets|;
    assert offsets[r0 + r - 1] == offsets[r0];
    if !Shifts(offsets, Cable(l0, l, m, r)) {
      assert r < c.r;
      FirstRLeast(offsets, l0, l, m, r + 1, c);
    }
  }

  lemma {:induction false} FirstMFound(offsets: seq<int>, l0: nat, l: nat, m: nat)
    requires 1 <= l && l0 + l <= |offsets|
    requires m == 0 || Run(offsets, l0 + l, m - 1)
    ensures FirstM(offsets, l0, l, m).Some? ==>
      Run(offsets, MidStart(FirstM(offsets, l0, l, m).value), FirstM(offsets, l0, l, m).value.m)
      && RightFits(offsets, FirstM(offsets, l0, l, m).value)
    decreases |offsets| + 1 - (l0 + l + m)
  {
    var m0 := l0 + l;
    if m0 + m <= |offsets| && (m == 0 || offsets[m0 + m - 1] == offsets[m0]) {
      assert Run(offsets, m0, m);
      FirstRFound(offsets, l0, l, m, 1);
      if FirstR(offsets, l0, l, m, 1).None? {
        FirstMFound(offsets, l0, l, m + 1);
      }
    }
  }

  /** The m loop reaches any cable whose middle group has at least m stitches, or an earlier one. */
  lemma {:induction false} FirstMLeast(offsets: seq<int>, l0: nat, l: nat, m: nat, c: Cable)
    requires 1 <= l && l0 + l <= |offsets|
    requires c.l0 == l0 && c.l == l && m <= c.m && IsMatch(offsets, c)
    ensures FirstM(offsets, l0, l, m).Some? && !Earlier(c, FirstM(offsets, l0, l, m).value)
    decreases |offsets| + 1 - (l0 + l + m)
  {
    var m0 := l0 + l;
    assert m0 + m <= |offsets|;
    assert m > 0 ==> offsets[m0 + m - 1] == offsets[m0];
    if m == c.m {
      FirstRLeast(offsets, l0, l, m, 1, c);
    } else if FirstR(offsets, l0, l, m, 1).None? {
      FirstMLeast(offsets, l0, l, m + 1, c);
    }
  }

  lemma {:induction false} FirstLFound(offsets: seq<int>, l0: nat, l: nat)
    requires 1 <= l && (l == 1 || Run(offsets, l0, l - 1))
    ensures FirstL(offsets, l0, l).Some? ==> IsMatch(offsets, FirstL(offsets, l0, l).value)
    decreases |offsets| + 1 - (l0 + l)
  {
    if l0 + l <= |offsets| && offsets[l0 + l - 1] == offsets[l0] {
      assert Run(offsets, l0, l);
      FirstMFound(offsets, l0, l, 0);
      if FirstM(offsets, l0, l, 0).None? {
        FirstLFound(offsets, l0, l + 1);
      }
    }
  }

  /** The l loop reaches any cable whose left group has at least l stitches, or an earlier one. */
  lemma {:induction false} FirstLLeast(offsets: seq<int>, l0: nat, l: nat, c: Cable)
    requires 1 <= l <= c.l && c.l0 == l0 && IsMatch(offsets, c)
    ensures FirstL(offsets, l0, l).Some? && !Earlier(c, FirstL(offsets, l0, l).value)
    decreases |offsets| + 1 - (l0 + l)
  {
    assert l0 + l <= |offsets|;
    assert offsets[l0 + l - 1] == offsets[l0];
    if l == c.l {
      FirstMLeast(offsets, l0, l, 0, c);
    } else if FirstM(offsets, l0, l, 0).None? {
      FirstLLeast(offsets, l0, l + 1, c);
    }
  }

  /**
   * The cable found at l0 is a cable, and no cable at l0 comes earlier in
   * the search order; when none is found there is no cable at l0.
   */
  lemma FirstMatchLeast(offsets: seq<int>, l0: nat)
    ensures FirstMatch(offsets, l0).Some? ==>
      IsMatch(offsets, FirstMatch(offsets, l0).value)
      && forall c: Cable :: c.l0 == l0 && IsMatch(offsets, c) ==> !Earlier(c, FirstMatch(offsets, l0).value)
    ensures FirstMatch(offsets, l0).None? ==> forall c: Cable :: c.l0 == l0 ==> !IsMatch(offsets, c)
  {
    FirstLFound(offsets, l0, 1);
    forall c: Cable | c.l0 == l0 && IsMatch(offsets, c)
      ensures FirstMatch(offsets, l0).Some? && !Earlier(c, FirstMatch(offsets, l0).value)
    {
      FirstLLeast(offsets, l0, 1, c);
    }
  }

  // ---------------------------------------------------------------------
  // The scan over starting stitches

  /** The cables found scanning from l0: after a cable the scan resumes past it. */
  function Scan(offsets: seq<int>, l0: nat): (cables: seq<Cable>)
    ensures AllFit(|offsets|, cables)
    decreases |offsets| - l0
  {
    if l0 >= |offsets| then []
    else match FirstMatch(offsets, l0)
      case Some(c) => [c] + Scan(offsets, End(c))
      case None => Scan(offsets, l0 + 1)
  }

  /** Stitch i belongs to one of the cables. */
  predicate Covered(cables: seq<Cable>, i: int)
  {
    exists k :: 0 <= k < |cables| && cables[k].l0 <= i < End(cables[k])
  }

  /** Each cable starts at or after from, fits, and is what the search finds at its start. */
  predicate FoundFrom(offsets: seq<int>, from: nat, cables: seq<Cable>)
  {
    forall k :: 0 <= k < |cables| ==>
      from <= cables[k].l0 && End(cables[k]) <= |offsets| && Some(cables[k]) == FirstMatch(offsets, cables[k].l0)
  }

  /** The cables come left to right without overlapping. */
  predicate Disjoint(cables: seq<Cable>)
  {
    forall j, k :: 0 <= j < k < |cables| ==> End(cables[j]) <= cables[k].l0
  }

  /** No stitch from `from` on outside the cables starts a cable. */
  predicate NoGaps(offsets: seq<int>, from: nat, cables: seq<Cable>)
  {
    forall p :: from <= p < |offsets| && !Covered(cables, p) ==> FirstMatch(offsets, p).None?
  }

  /**
   * The scan's cables: each is the cable the search finds at its start, they
   * come left to right without overlapping, and no stitch outside them
   * starts a cable.
   */
  lemma ScanShape(offsets: seq<int>, l0: nat)
    ensures FoundFrom(offsets, l0, Scan(offsets, l0))
    ensures Disjoint(Scan(offsets, l0))
    ensures NoGaps(offsets, l0, Scan(offsets, l0))
  {
    ScanStarts(offsets, l0);
    ScanGaps(offsets, l0);
  }

  lemma {:induction false} ScanStarts(offsets: seq<int>, l0: nat)
    ensures FoundFrom(offsets, l0, Scan(offsets, l0)) && Disjoint(Scan(offsets, l0))
    decreases |offsets| - l0
  {
    if l0 < |offsets| {
      var cs := Scan(offsets, l0);
      var found := FirstMatch(offsets, l0);
      if found.Some? {
        var c := found.value;
        ScanStarts(offsets, End(c));
        var rest := Scan(offsets, End(c));
        assert cs == [c] + rest;
        forall k | 0 <= k < |cs|
          ensures l0 <= cs[k].l0 && End(cs[k]) <= |offsets| && Some(cs[k]) == FirstMatch(offsets, cs[k].l0)
        {
          if k > 0 {
            assert cs[k] == rest[k - 1];
          }
        }
        forall j, k | 0 <= j < k < |cs| ensures End(cs[j]) <= cs[k].l0 {
          assert cs[k] == rest[k - 1];
          if j > 0 { assert cs[j] == rest[j - 1]; }
        }
      } else {
        ScanStarts(offsets, l0 + 1);
        assert cs == Scan(offsets, l0 + 1);
      }
    }
  }

  /** A stitch is covered by a cable list with c in front exactly when c or the rest covers it. */
  lemma CoveredCons(c: Cable, rest: seq<Cable>, p: int)
    ensures Covered([c] + rest, p) <==> (c.l0 <= p < End(c)) || Covered(rest, p)
  {
    var cs := [c] + rest;
    if Covered(cs, p) {
      var k :| 0 <= k < |cs| && cs[k].l0 <= p < End(cs[k]);
      if k > 0 { assert cs[k] == rest[k - 1]; }
    }
    if c.l0 <= p < End(c) {
      assert cs[0] == c;
    }
    if Covered(rest, p) {
      var k :| 0 <= k < |rest| && rest[k].l0 <= p < End(rest[k]);
      assert cs[k + 1] == rest[k];
    }
  }

  lemma GapsCons(offsets: seq<int>, l0: nat, c: Cable, rest: seq<Cable>)
    requires FirstMatch(offsets, l0) == Some(c)
    requires NoGaps(offsets, End(c), rest)
    ensures NoGaps(offsets, l0, [c] + rest)
  {
    forall p | l0 <= p < |offsets| && !Covered([c] + rest, p) ensures FirstMatch(offsets, p).None? {
      CoveredCons(c, rest, p);
    }
  }

  lemma {:induction false} ScanGaps(offsets: seq<int>, l0: nat)
    ensures NoGaps(offsets, l0, Scan(offsets, l0))
    decreases |offsets| - l0
  {
    if l0 < |offsets| {
      var found := FirstMatch(offsets, l0);
      if found.Some? {
        var c := found.value;
        ScanGaps(offsets, End(c));
        assert Scan(offsets, l0) == [c] + Scan(offsets, End(c));
        GapsCons(offsets, l0, c, Scan(offsets, End(c)));
      } else {
        ScanGaps(offsets, l0 + 1);
        assert Scan(offsets, l0) == Scan(offsets, l0 + 1);
      }
    }
  }

  // ---------------------------------------------------------------------
  // The transfers of one cable

  datatype Group = Left | Middle | Right

  function GroupStart(c: Cable, g: Group): nat
  {
    match g
    case Left => c.l0
    case Middle => MidStart(c)
    case Right => RightStart(c)
  }

  function GroupSize(c: Cable, g: Group): nat
  {
    match g
    case Left => c.l
    case Middle => c.m
    case Right => c.r
  }

  /** L, M and R. */
  function Shift(c: Cable, g: Group): int
  {
    match g
    case Left => c.m + c.r
    case Middle => c.r - c.l
    case Right => -(c.l + c.m)
  }

  /** Stitches lo .. lo+len-1 to the back. */
  function Lifts(lo: nat, len: nat): (ops: seq<Op>)
    ensures |ops| == len
  {
    seq(len, k => ToBack(lo + k))
  }

  /** Stitches lo .. lo+len-1 back to the front, shifted by ofs. */
  function Drops(lo: nat, len: nat, ofs: int): (ops: seq<Op>)
    ensures |ops| == len
  {
    seq(len, k => ToFront(lo + k, ofs))
  }

  function GroupDrops(c: Cable, g: Group): seq<Op>
  {
    Drops(GroupStart(c, g), GroupSize(c, g), Shift(c, g))
  }

  /** A crossing order, where an empty middle group counts as minus infinity. */
  predicate AtLeast(a: Option<int>, b: Option<int>)
  {
    b.None? || (a.Some? && a.value >= b.value)
  }

  /** The source's choice of drop order from the groups' crossing orders. */
  function DropOrder(ol: int, om: Option<int>, or: int): seq<Group>
  {
    if AtLeast(Some(ol), Some(or)) && AtLeast(Some(ol), om) then
      if AtLeast(Some(or), om) then [Left, Right, Middle] else [Left, Middle, Right]
    else if AtLeast(Some(or), om) then
      if AtLeast(Some(ol), om) then [Right, Left, Middle] else [Right, Middle, Left]
    else
      if AtLeast(Some(ol), Some(or)) then [Middle, Left, Right] else [Middle, Right, Left]
  }

  function Key(g: Group, ol: int, om: Option<int>, or: int): Option<int>
  {
    match g
    case Left => Some(ol)
    case Middle => om
    case Right => Some(or)
  }

  /** Ties go to the left group, then the right, then the middle. */
  function Rank(g: Group): nat
  {
    match g
    case Left => 0
    case Right => 1
    case Middle => 2
  }

  /** g drops before h: a larger crossing order, or an equal one and a better rank. */
  predicate Ahead(g: Group, h: Group, ol: int, om: Option<int>, or: int)
  {
    var a, b := Key(g, ol, om, or), Key(h, ol, om, or);
    (AtLeast(a, b) && a != b) || (a == b && Rank(g) < Rank(h))
  }

  /** The drop order is the three groups sorted by descending crossing order, ties by rank. */
  lemma DropOrderSorted(ol: int, om: Option<int>, or: int)
    ensures |DropOrder(ol, om, or)| == 3
    ensures Ahead(DropOrder(ol, om, or)[0], DropOrder(ol, om, or)[1], ol, om, or)
    ensures Ahead(DropOrder(ol, om, or)[1], DropOrder(ol, om, or)[2], ol, om, or)
  {
  }

  /** Every group is dropped exactly once. */
  lemma DropOrderPermutes(ol: int, om: Option<int>, or: int)
    ensures multiset(DropOrder(ol, om, or)) == multiset{Left, Middle, Right}
  {
    DropOrderCases(ol, om, or);
    GroupsPermute(DropOrder(ol, om, or));
  }

  /** Each of the six orders of the three groups holds each group once. */
  lemma GroupsPermute(d: seq<Group>)
    requires d == [Left, Right, Middle] || d == [Left, Middle, Right] || d == [Right, Left, Middle]
      || d == [Right, Middle, Left] || d == [Middle, Left, Right] || d == [Middle, Right, Left]
    ensures multiset(d) == multiset{Left, Middle, Right}
  {
    if d == [Left, Right, Middle] {
      assert multiset(d) == multiset{Left, Middle, Right};
    } else if d == [Left, Middle, Right] {
      assert multiset(d) == multiset{Left, Middle, Right};
    } else if d == [Right, Left, Middle] {
      assert multiset(d) == multiset{Left, Middle, Right};
    } else if d == [Right, Middle, Left] {
      assert multiset(d) == multiset{Left, Middle, Right};
    } else if d == [Middle, Left, Right] {
      assert multiset(d) == multiset{Left, Middle, Right};
    } else {
      assert multiset(d) == multiset{Left, Middle, Right};
    }
  }

  /** The drop order from the crossing orders of the left group's last stitch and the other groups' first. */
  function CableOrder(orders: seq<int>, c: Cable): seq<Group>
    requires End(c) <= |orders| && c.l >= 1 && c.r >= 1
  {
    DropOrder(orders[c.l0 + c.l - 1], if c.m > 0 then Some(orders[MidStart(c)]) else None, orders[RightStart(c)])
  }

  /** All of a cable to the back, then its groups back to the front in drop order. */
  function CableOps(orders: seq<int>, c: Cable): seq<Op>
    requires End(c) <= |orders| && c.l >= 1 && c.r >= 1
  {
    var d := CableOrder(orders, c);
    Lifts(c.l0, c.l + c.m + c.r) + GroupDrops(c, d[0]) + GroupDrops(c, d[1]) + GroupDrops(c, d[2])
  }

  predicate AllFit(n: nat, cables: seq<Cable>)
  {
    forall k :: 0 <= k < |cables| ==> End(cables[k]) <= n && cables[k].l >= 1 && cables[k].r >= 1
  }

  function PlanOf(orders: seq<int>, cables: seq<Cable>): seq<Op>
    requires AllFit(|orders|, cables)
  {
    if cables == [] then [] else PlanOf(orders, cables[..|cables| - 1]) + CableOps(orders, cables[|cables| - 1])
  }

  const LengthError := "Offsets and firsts should be the same length."
  const CoverError := "cable_transfers failed to find a complete cable plan with its limited vocabulary"

  /** Every stitch that moves lies in one of the cables. */
  predicate AllCovered(offsets: seq<int>, cables: seq<Cable>)
  {
    forall i :: 0 <= i < |offsets| && offsets[i] != 0 ==> Covered(cables, i)
  }

  /** What cable_transfers does with offsets and orders. */
  function CableResult(offsets: seq<int>, orders: seq<int>): Result<seq<Op>, string>
  {
    if |offsets| != |orders| then Err(LengthError)
    else if !AllCovered(offsets, Scan(offsets, 0)) then Err(CoverError)
    else Ok(PlanOf(orders, Scan(offsets, 0)))
  }

  // ---------------------------------------------------------------------
  // Properties

  /** A cable's stitches land on its own needles, one on each: R, then M, then L. */
  lemma CableLands(offsets: seq<int>, c: Cable)
    requires IsMatch(offsets, c)
    ensures forall i :: c.l0 <= i < End(c) ==> c.l0 <= i + offsets[i] < End(c)
    ensures forall i, j :: c.l0 <= i < j < End(c) && i + offsets[i] == j + offsets[j] ==> false
  {
    assert forall i :: c.l0 <= i < MidStart(c) ==> offsets[i] == c.m + c.r;
    assert forall i :: MidStart(c) <= i < RightStart(c) ==> offsets[i] == c.r - c.l;
    assert forall i :: RightStart(c) <= i < End(c) ==> offsets[i] == -(c.l + c.m);
  }

  lemma LiftsCount(lo: nat, len: nat, i: int)
    ensures multiset(Lifts(lo, len))[ToBack(i)] == if lo <= i < lo + len then 1 else 0
    ensures forall o :: o in Lifts(lo, len) ==> o.fromBed == F
  {
    if len > 0 {
      LiftsCount(lo, len - 1, i);
      assert Lifts(lo, len) == Lifts(lo, len - 1) + [ToBack(lo + len - 1)];
    }
  }

  lemma DropsCount(lo: nat, len: nat, ofs: int, i: int, target: int)
    ensures multiset(Drops(lo, len, ofs))[ToFront(i, target)] == if lo <= i < lo + len && target == ofs then 1 else 0
    ensures forall o :: o in Drops(lo, len, ofs) ==> o.fromBed == B
  {
    if len > 0 {
      DropsCount(lo, len - 1, ofs, i, target);
      assert Drops(lo, len, ofs) == Drops(lo, len - 1, ofs) + [ToFront(lo + len - 1, ofs)];
    }
  }

  /** Stitch i's offset within a cable is its group's shift. */
  lemma GroupShift(offsets: seq<int>, c: Cable, g: Group, i: int)
    requires IsMatch(offsets, c) && GroupStart(c, g) <= i < GroupStart(c, g) + GroupSize(c, g)
    ensures offsets[i] == Shift(c, g)
  {
  }

  lemma DropOrderDistinct(ol: int, om: Option<int>, or: int)
    ensures var d := DropOrder(ol, om, or);
      |d| == 3 && d[0] != d[1] && d[1] != d[2] && d[0] != d[2]
  {
  }

  lemma CableOrderDistinct(orders: seq<int>, c: Cable)
    requires End(c) <= |orders| && c.l >= 1 && c.r >= 1
    ensures var d := CableOrder(orders, c);
      |d| == 3 && d[0] != d[1] && d[1] != d[2] && d[0] != d[2]
  {
    DropOrderDistinct(orders[c.l0 + c.l - 1], if c.m > 0 then Some(orders[MidStart(c)]) else None, orders[RightStart(c)]);
  }

  lemma DropOrderCases(ol: int, om: Option<int>, or: int)
    ensures var d := DropOrder(ol, om, or);
      d == [Left, Right, Middle] || d == [Left, Middle, Right] || d == [Right, Left, Middle]
      || d == [Right, Middle, Left] || d == [Middle, Left, Right] || d == [Middle, Right, Left]
  {
  }

  /** A group's drops return exactly the group's own stitches, each to its target. */
  lemma GroupDropsCount(offsets: seq<int>, c: Cable, g: Group, i: int)
    requires IsMatch(offsets, c) && 0 <= i < |offsets|
    ensures multiset(GroupDrops(c, g))[ToBack(i)] == 0
    ensures multiset(GroupDrops(c, g))[ToFront(i, offsets[i])]
      == if GroupStart(c, g) <= i < GroupStart(c, g) + GroupSize(c, g) then 1 else 0
  {
    DropsCount(GroupStart(c, g), GroupSize(c, g), Shift(c, g), i, offsets[i]);
    assert ToBack(i) !in GroupDrops(c, g);
    if GroupStart(c, g) <= i < GroupStart(c, g) + GroupSize(c, g) {
      GroupShift(offsets, c, g, i);
    }
  }

  lemma FourCount(a: seq<Op>, b: seq<Op>, c: seq<Op>, e: seq<Op>, x: Op)
    ensures multiset(a + b + c + e)[x] == multiset(a)[x] + multiset(b)[x] + multiset(c)[x] + multiset(e)[x]
  {
    assert multiset(a + b + c + e) == multiset(a) + multiset(b) + multiset(c) + multiset(e);
  }

  /** Counting over the groups in any of their six orders counts over each group once. */
  lemma OrderedGroupsCount(c: Cable, d: seq<Group>, x: Op)
    requires |d| == 3 && d[0] != d[1] && d[1] != d[2] && d[0] != d[2]
    ensures multiset(GroupDrops(c, d[0]))[x] + multiset(GroupDrops(c, d[1]))[x] + multiset(GroupDrops(c, d[2]))[x]
      == multiset(GroupDrops(c, Left))[x] + multiset(GroupDrops(c, Middle))[x] + multiset(GroupDrops(c, Right))[x]
  {
  }

  /** A cable's transfers are its lifts and the drops of its three groups, in whatever order. */
  lemma CableOpsSplit(orders: seq<int>, c: Cable, x: Op)
    requires End(c) <= |orders| && c.l >= 1 && c.r >= 1
    ensures multiset(CableOps(orders, c))[x]
      == multiset(Lifts(c.l0, c.l + c.m + c.r))[x] + multiset(GroupDrops(c, Left))[x]
         + multiset(GroupDrops(c, Middle))[x] + multiset(GroupDrops(c, Right))[x]
  {
    var d := CableOrder(orders, c);
    CableOrderDistinct(orders, c);
    FourCount(Lifts(c.l0, c.l + c.m + c.r), GroupDrops(c, d[0]), GroupDrops(c, d[1]), GroupDrops(c, d[2]), x);
    OrderedGroupsCount(c, d, x);
  }

  lemma {:induction false} LiftsNoFront(lo: nat, len: nat, i: int, ofs: int)
    ensures multiset(Lifts(lo, len))[ToFront(i, ofs)] == 0
  {
    LiftsCount(lo, len, i);
    assert ToFront(i, ofs) !in Lifts(lo, len);
  }

  /** The three groups together drop each of the cable's stitches once and lift none. */
  lemma GroupsCount(offsets: seq<int>, c: Cable, i: int)
    requires IsMatch(offsets, c) && 0 <= i < |offsets|
    ensures multiset(GroupDrops(c, Left))[ToBack(i)] + multiset(GroupDrops(c, Middle))[ToBack(i)]
      + multiset(GroupDrops(c, Right))[ToBack(i)] == 0
    ensures multiset(GroupDrops(c, Left))[ToFront(i, offsets[i])] + multiset(GroupDrops(c, Middle))[ToFront(i, offsets[i])]
      + multiset(GroupDrops(c, Right))[ToFront(i, offsets[i])] == if c.l0 <= i < End(c) then 1 else 0
  {
    GroupDropsCount(offsets, c, Left, i);
    GroupDropsCount(offsets, c, Middle, i);
    GroupDropsCount(offsets, c, Right, i);
  }

  /** A cable sends each of its own stitches to the back once. */
  lemma CableBackCount(offsets: seq<int>, orders: seq<int>, c: Cable, i: int)
    requires IsMatch(offsets, c) && |orders| == |offsets| && 0 <= i < |offsets|
    ensures multiset(CableOps(orders, c))[ToBack(i)] == if c.l0 <= i < End(c) then 1 else 0
  {
    CableOpsSplit(orders, c, ToBack(i));
    LiftsCount(c.l0, c.l + c.m + c.r, i);
    GroupsCount(offsets, c, i);
  }

  /** A cable returns each of its own stitches to its target once. */
  lemma CableFrontCount(offsets: seq<int>, orders: seq<int>, c: Cable, i: int)
    requires IsMatch(offsets, c) && |orders| == |offsets| && 0 <= i < |offsets|
    ensures multiset(CableOps(orders, c))[ToFront(i, offsets[i])] == if c.l0 <= i < End(c) then 1 else 0
  {
    CableOpsSplit(orders, c, ToFront(i, offsets[i]));
    LiftsNoFront(c.l0, c.l + c.m + c.r, i, offsets[i]);
    GroupsCount(offsets, c, i);
  }

  /** A cable sends each of its stitches to the back once and returns it to its target once. */
  lemma CableOpsCount(offsets: seq<int>, orders: seq<int>, c: Cable, i: int)
    requires IsMatch(offsets, c) && |orders| == |offsets| && 0 <= i < |offsets|
    ensures multiset(CableOps(orders, c))[ToBack(i)] == if c.l0 <= i < End(c) then 1 else 0
    ensures multiset(CableOps(orders, c))[ToFront(i, offsets[i])] == if c.l0 <= i < End(c) then 1 else 0
  {
    CableBackCount(offsets, orders, c, i);
    CableFrontCount(offsets, orders, c, i);
  }

  /** Dropping the last cable keeps the prefix's facts, and the last cable lies past the others. */
  lemma CablesPrefix(offsets: seq<int>, cables: seq<Cable>)
    requires cables != []
    requires forall k :: 0 <= k < |cables| ==> IsMatch(offsets, cables[k])
    requires Disjoint(cables)
    ensures var front := cables[..|cables| - 1];
      (forall k :: 0 <= k < |front| ==> IsMatch(offsets, front[k]))
      && Disjoint(front) && IsMatch(offsets, cables[|cables| - 1])
      && forall k :: 0 <= k < |front| ==> End(front[k]) <= cables[|cables| - 1].l0
  {
    var front := cables[..|cables| - 1];
    forall k | 0 <= k < |front| ensures front[k] == cables[k] {
    }
  }

  /** The counts of a plan with one more cable, from the counts of the shorter plan and of the cable. */
  lemma PlanCountStep(orders: seq<int>, front: seq<Cable>, last: Cable, x: Op, covered: bool)
    requires AllFit(|orders|, front) && End(last) <= |orders| && last.l >= 1 && last.r >= 1
    requires multiset(PlanOf(orders, front))[x] + multiset(CableOps(orders, last))[x] == if covered then 1 else 0
    ensures AllFit(|orders|, front + [last])
    ensures multiset(PlanOf(orders, front + [last]))[x] == if covered then 1 else 0
  {
    PlanSnoc(orders, front, last);
    assert multiset(PlanOf(orders, front) + CableOps(orders, last))
      == multiset(PlanOf(orders, front)) + multiset(CableOps(orders, last));
  }

  /** A stitch inside an earlier cable is not inside a cable that starts after all of them. */
  lemma CoveredBefore(front: seq<Cable>, last: Cable, i: int)
    requires forall k :: 0 <= k < |front| ==> End(front[k]) <= last.l0
    requires Covered(front, i)
    ensures !(last.l0 <= i < End(last))
  {
    var k :| 0 <= k < |front| && front[k].l0 <= i < End(front[k]);
  }

  /** The counts for stitch i over a plan with one more cable. */
  lemma CountsJoin(orders: seq<int>, front: seq<Cable>, last: Cable, i: int, ofs: int)
    requires AllFit(|orders|, front) && End(last) <= |orders| && last.l >= 1 && last.r >= 1
    requires forall k :: 0 <= k < |front| ==> End(front[k]) <= last.l0
    requires multiset(PlanOf(orders, front))[ToBack(i)] == if Covered(front, i) then 1 else 0
    requires multiset(PlanOf(orders, front))[ToFront(i, ofs)] == if Covered(front, i) then 1 else 0
    requires multiset(CableOps(orders, last))[ToBack(i)] == if last.l0 <= i < End(last) then 1 else 0
    requires multiset(CableOps(orders, last))[ToFront(i, ofs)] == if last.l0 <= i < End(last) then 1 else 0
    ensures AllFit(|orders|, front + [last])
    ensures multiset(PlanOf(orders, front + [last]))[ToBack(i)] == if Covered(front + [last], i) then 1 else 0
    ensures multiset(PlanOf(orders, front + [last]))[ToFront(i, ofs)] == if Covered(front + [last], i) then 1 else 0
  {
    CoveredSnoc(front, last, i);
    if Covered(front, i) {
      CoveredBefore(front, last, i);
    }
    var covered := Covered(front + [last], i);
    PlanCountStep(orders, front, last, ToBack(i), covered);
    PlanCountStep(orders, front, last, ToFront(i, ofs), covered);
  }

  lemma {:induction false} PlanCount(offsets: seq<int>, orders: seq<int>, cables: seq<Cable>, i: int)
    requires |orders| == |offsets| && 0 <= i < |offsets|
    requires forall k :: 0 <= k < |cables| ==> IsMatch(offsets, cables[k])
    requires Disjoint(cables)
    ensures AllFit(|orders|, cables)
    ensures multiset(PlanOf(orders, cables))[ToBack(i)] == if Covered(cables, i) then 1 else 0
    ensures multiset(PlanOf(orders, cables))[ToFront(i, offsets[i])] == if Covered(cables, i) then 1 else 0
  {
    if cables != [] {
      var front, last := cables[..|cables| - 1], cables[|cables| - 1];
      assert cables == front + [last];
      CablesPrefix(offsets, cables);
      PlanCount(offsets, orders, front, i);
      CableOpsCount(offsets, orders, last, i);
      CountsJoin(orders, front, last, i, offsets[i]);
    }
  }

  /**
   * cable_transfers sends every stitch of a cable to the back exactly once
   * and returns it to its target exactly once; other stitches get no
   * transfer (and must have offset zero).
   */
  lemma CableMoves(offsets: seq<int>, orders: seq<int>, i: nat)
    requires CableResult(offsets, orders).Ok? && i < |offsets|
    ensures var plan := CableResult(offsets, orders).value; var moved := Covered(Scan(offsets, 0), i);
      multiset(plan)[ToBack(i)] == (if moved then 1 else 0)
      && multiset(plan)[ToFront(i, offsets[i])] == (if moved then 1 else 0)
      && (!moved ==> offsets[i] == 0)
  {
    var cables := Scan(offsets, 0);
    ScanShape(offsets, 0);
    forall k | 0 <= k < |cables| ensures IsMatch(offsets, cables[k]) {
      FirstMatchLeast(offsets, cables[k].l0);
    }
    PlanCount(offsets, orders, cables, i);
  }

  lemma {:induction false} ScanNothing(offsets: seq<int>, l0: nat)
    requires AllZero(offsets)
    ensures Scan(offsets, l0) == []
    decreases |offsets| - l0
  {
    if l0 < |offsets| {
      FirstMatchLeast(offsets, l0);
      ScanNothing(offsets, l0 + 1);
    }
  }

  /** Offsets that move nothing find no cable and give an empty plan. */
  lemma NothingToMove(offsets: seq<int>, orders: seq<int>)
    requires AllZero(offsets) && |orders| == |offsets|
    ensures CableResult(offsets, orders) == Ok([])
  {
    ScanNothing(offsets, 0);
  }

  // ---------------------------------------------------------------------
  // The procedure

  /** The r loop: a non-fitting shift moves on to the next r, a broken run ends the loop. */
  method SearchR(offsets: seq<int>, l0: nat, l: nat, m: nat) returns (found: Option<Cable>)
    requires 1 <= l && l0 + l + m <= |offsets|
    ensures found == FirstR(offsets, l0, l, m, 1)
  {
    var n := |offsets|;
    var m0, r0 := l0 + l, l0 + l + m;
    var r := 1;
    while r0 + r <= n
      invariant 1 <= r
      invariant FirstR(offsets, l0, l, m, r) == FirstR(offsets, l0, l, m, 1)
      decreases n + 1 - (r0 + r)
    {
      if offsets[r0 + r - 1] != offsets[r0] {
        return None;
      }
      var shiftL, shiftM, shiftR := m + r, r - l, -(l + m);
      if offsets[l0] == shiftL && (m == 0 || offsets[m0] == shiftM) && offsets[r0] == shiftR {
        assert Shifts(offsets, Cable(l0, l, m, r));
        return Some(Cable(l0, l, m, r));
      }
      r := r + 1;
    }
    return None;
  }

  /** The m loop around the r loop. */
  method SearchM(offsets: seq<int>, l0: nat, l: nat) returns (found: Option<Cable>)
    requires 1 <= l && l0 + l <= |offsets|
    ensures found == FirstM(offsets, l0, l, 0)
  {
    var n := |offsets|;
    var m0 := l0 + l;
    var m := 0;
    while m0 + m <= n
      invariant FirstM(offsets, l0, l, m) == FirstM(offsets, l0, l, 0)
      decreases n + 1 - (m0 + m)
    {
      if m > 0 && offsets[m0 + m - 1] != offsets[m0] {
        return None;
      }
      found := SearchR(offsets, l0, l, m);
      if found.Some? {
        return found;
      }
      m := m + 1;
    }
    return None;
  }

  /** The search at l0: the l loop around the m loop. */
  method MatchAt(offsets: seq<int>, l0: nat) returns (found: Option<Cable>)
    requires l0 < |offsets|
    ensures found == FirstMatch(offsets, l0)
  {
    var n := |offsets|;
    var L := offsets[l0];
    var l := 1;
    while l0 + l <= n
      invariant 1 <= l
      invariant FirstL(offsets, l0, l) == FirstMatch(offsets, l0)
      decreases n + 1 - (l0 + l)
    {
      if offsets[l0 + l - 1] != L {
        return None;
      }
      found := SearchM(offsets, l0, l);
      if found.Some? {
        return found;
      }
      l := l + 1;
    }
    return None;
  }

  /** The stitches lo .. hi-1 go to the back; none of them was done before. */
  method LiftGroup(plan: seq<Op>, done: seq<bool>, lo: nat, hi: nat) returns (plan': seq<Op>, done': seq<bool>)
    requires lo <= hi <= |done|
    requires forall i :: lo <= i < hi ==> !done[i]
    ensures plan' == plan + Lifts(lo, hi - lo)
    ensures |done'| == |done| && forall i :: 0 <= i < |done| ==> done'[i] == (done[i] || lo <= i < hi)
  {
    plan', done' := plan, done;
    for i := lo to hi
      invariant plan' == plan + Lifts(lo, i - lo)
      invariant |done'| == |done| && forall k :: 0 <= k < |done| ==> done'[k] == (done[k] || lo <= k < i)
    {
      assert !done'[i];
      done' := done'[i := true];
      assert Lifts(lo, i + 1 - lo) == Lifts(lo, i - lo) + [ToBack(i)];
      plan' := plan' + [ToBack(i)];
    }
  }

  /** do_l, do_m, do_r: one group back to the front. */
  method DropGroup(plan: seq<Op>, c: Cable, g: Group) returns (plan': seq<Op>)
    ensures plan' == plan + GroupDrops(c, g)
  {
    var lo := GroupStart(c, g);
    var ofs := Shift(c, g);
    plan' := plan;
    for i := lo to lo + GroupSize(c, g)
      invariant plan' == plan + Drops(lo, i - lo, ofs)
    {
      assert Drops(lo, i + 1 - lo, ofs) == Drops(lo, i - lo, ofs) + [ToFront(i, ofs)];
      plan' := plan' + [ToFront(i, ofs)];
    }
  }

  /** The three lifting loops: the whole cable to the back, marking it done. */
  method LiftCable(plan: seq<Op>, done: seq<bool>, c: Cable) returns (plan': seq<Op>, done': seq<bool>)
    requires End(c) <= |done|
    requires forall i :: c.l0 <= i < |done| ==> !done[i]
    ensures plan' == plan + Lifts(c.l0, c.l + c.m + c.r)
    ensures |done'| == |done| && forall i :: 0 <= i < |done| ==> done'[i] == (done[i] || c.l0 <= i < End(c))
  {
    plan', done' := LiftGroup(plan, done, c.l0, MidStart(c));
    plan', done' := LiftGroup(plan', done', MidStart(c), RightStart(c));
    plan', done' := LiftGroup(plan', done', RightStart(c), End(c));
    LiftsSplit(c.l0, c.l, c.m);
    LiftsSplit(c.l0, c.l + c.m, c.r);
  }

  /** The transfers of one found cable, marking its stitches done. */
  method DoCable(orders: seq<int>, plan: seq<Op>, done: seq<bool>, c: Cable) returns (plan': seq<Op>, done': seq<bool>)
    requires End(c) <= |orders| == |done| && c.l >= 1 && c.r >= 1
    requires forall i :: c.l0 <= i < |done| ==> !done[i]
    ensures plan' == plan + CableOps(orders, c)
    ensures |done'| == |done| && forall i :: 0 <= i < |done| ==> done'[i] == (done[i] || c.l0 <= i < End(c))
  {
    plan', done' := LiftCable(plan, done, c);
    var d := CableOrder(orders, c);
    var lifted := plan';
    plan' := DropGroup(plan', c, d[0]);
    plan' := DropGroup(plan', c, d[1]);
    plan' := DropGroup(plan', c, d[2]);
    var lifts, a, b, e := Lifts(c.l0, c.l + c.m + c.r), GroupDrops(c, d[0]), GroupDrops(c, d[1]), GroupDrops(c, d[2]);
    assert plan' == plan + lifts + a + b + e;
    assert plan + lifts + a + b + e == plan + (lifts + a + b + e);
  }

  lemma LiftsSplit(lo: nat, a: nat, b: nat)
    ensures Lifts(lo, a + b) == Lifts(lo, a) + Lifts(lo + a, b)
  {
  }

  /** Whether a list of cables marks exactly the stitches of its cables. */
  predicate DoneBy(done: seq<bool>, cables: seq<Cable>)
  {
    forall i :: 0 <= i < |done| ==> (done[i] <==> Covered(cables, i))
  }

  lemma CoveredSnoc(cables: seq<Cable>, c: Cable, i: int)
    ensures Covered(cables + [c], i) <==> Covered(cables, i) || c.l0 <= i < End(c)
  {
    var cs := cables + [c];
    if Covered(cables, i) {
      var k :| 0 <= k < |cables| && cables[k].l0 <= i < End(cables[k]);
      assert cs[k] == cables[k];
    }
    if c.l0 <= i < End(c) {
      assert cs[|cables|] == c;
    }
    if Covered(cs, i) {
      var k :| 0 <= k < |cs| && cs[k].l0 <= i < End(cs[k]);
      if k < |cables| { assert cables[k] == cs[k]; }
    }
  }

  lemma PlanSnoc(orders: seq<int>, cables: seq<Cable>, c: Cable)
    requires AllFit(|orders|, cables) && End(c) <= |orders| && c.l >= 1 && c.r >= 1
    ensures AllFit(|orders|, cables + [c]) && PlanOf(orders, cables + [c]) == PlanOf(orders, cables) + CableOps(orders, c)
  {
    assert (cables + [c])[..|cables|] == cables;
  }

  lemma CablesAssoc(a: seq<Cable>, b: seq<Cable>, c: seq<Cable>)
    ensures a + (b + c) == (a + b) + c
  {
  }

  /** The state of the scan when it reaches l0 having found cables. */
  ghost predicate ScanState(offsets: seq<int>, orders: seq<int>, l0: nat, cables: seq<Cable>, plan: seq<Op>, done: seq<bool>)
  {
    |offsets| == |orders| == |done| && l0 <= |offsets|
    && cables + Scan(offsets, l0) == Scan(offsets, 0)
    && AllFit(|offsets|, cables) && plan == PlanOf(orders, cables)
    && (forall k :: 0 <= k < |cables| ==> End(cables[k]) <= l0)
    && DoneBy(done, cables)
  }

  /** At the scan position, no stitch from l0 on is done yet. */
  lemma NotDoneFrom(offsets: seq<int>, orders: seq<int>, l0: nat, cables: seq<Cable>, plan: seq<Op>, done: seq<bool>)
    requires ScanState(offsets, orders, l0, cables, plan, done)
    ensures forall i :: l0 <= i < |done| ==> !done[i]
  {
    forall i | l0 <= i < |done| ensures !done[i] {
      assert !Covered(cables, i);
    }
  }

  /** The scan state after the transfers of the cable found at l0. */
  lemma ScanFound(offsets: seq<int>, orders: seq<int>, l0: nat, cables: seq<Cable>, plan: seq<Op>, done: seq<bool>,
                  c: Cable, plan': seq<Op>, done': seq<bool>)
    requires l0 < |offsets| && ScanState(offsets, orders, l0, cables, plan, done)
    requires FirstMatch(offsets, l0) == Some(c)
    requires plan' == plan + CableOps(orders, c)
    requires |done'| == |done| && forall i :: 0 <= i < |done| ==> done'[i] == (done[i] || c.l0 <= i < End(c))
    ensures l0 < End(c) && ScanState(offsets, orders, End(c), cables + [c], plan', done')
  {
    var n := |offsets|;
    PlanSnoc(orders, cables, c);
    forall i | 0 <= i < n ensures done'[i] <==> Covered(cables + [c], i) {
      CoveredSnoc(cables, c, i);
    }
    assert Scan(offsets, l0) == [c] + Scan(offsets, End(c));
    CablesAssoc(cables, [c], Scan(offsets, End(c)));
    var cs := cables + [c];
    forall k | 0 <= k < |cs| ensures End(cs[k]) <= End(c) {
      if k < |cables| {
        assert cs[k] == cables[k];
      }
    }
  }

  /** The scan state when nothing is found at l0. */
  lemma ScanSkip(offsets: seq<int>, orders: seq<int>, l0: nat, cables: seq<Cable>, plan: seq<Op>, done: seq<bool>)
    requires l0 < |offsets| && ScanState(offsets, orders, l0, cables, plan, done)
    requires FirstMatch(offsets, l0) == None
    ensures ScanState(offsets, orders, l0 + 1, cables, plan, done)
  {
    assert Scan(offsets, l0) == Scan(offsets, l0 + 1);
  }

  /** One pass of the l0 loop: the search at l0, and the found cable's transfers. */
  method ScanStep(offsets: seq<int>, orders: seq<int>, l0: nat, ghost cables: seq<Cable>, plan: seq<Op>, done: seq<bool>)
    returns (l0': nat, ghost cables': seq<Cable>, plan': seq<Op>, done': seq<bool>)
    requires l0 < |offsets| && ScanState(offsets, orders, l0, cables, plan, done)
    ensures l0 < l0' && ScanState(offsets, orders, l0', cables', plan', done')
  {
    var found := MatchAt(offsets, l0);
    if found.Some? {
      var c := found.value;
      NotDoneFrom(offsets, orders, l0, cables, plan, done);
      plan', done' := DoCable(orders, plan, done, c);
      ScanFound(offsets, orders, l0, cables, plan, done, c, plan', done');
      cables' := cables + [c];
      l0' := End(c);
    } else {
      ScanSkip(offsets, orders, l0, cables, plan, done);
      l0', cables', plan', done' := l0 + 1, cables, plan, done;
    }
  }

  /** The scan over l0 with the transfers of every cable found; done marks exactly the cables' stitches. */
  method TransferCables(offsets: seq<int>, orders: seq<int>) returns (plan: seq<Op>, done: seq<bool>)
    requires |offsets| == |orders|
    ensures plan == PlanOf(orders, Scan(offsets, 0))
    ensures |done| == |offsets| && DoneBy(done, Scan(offsets, 0))
  {
    var n := |offsets|;
    done := [];
    for i := 0 to n
      invariant |done| == i && forall k :: 0 <= k < i ==> !done[k]
    {
      done := done + [false];
    }
    plan := [];
    ghost var cables := [];
    var l0 := 0;
    while l0 < n
      invariant ScanState(offsets, orders, l0, cables, plan, done)
      decreases n - l0
    {
      l0, cables, plan, done := ScanStep(offsets, orders, l0, cables, plan, done);
    }
    assert cables == Scan(offsets, 0);
  }

  /** The closing check: every moving stitch was transferred as part of a cable. */
  method CheckCovered(offsets: seq<int>, done: seq<bool>, ghost cables: seq<Cable>) returns (ok: bool)
    requires |done| == |offsets| && DoneBy(done, cables)
    ensures ok <==> AllCovered(offsets, cables)
  {
    for i := 0 to |offsets|
      invariant forall k :: 0 <= k < i ==> offsets[k] == 0 || Covered(cables, k)
    {
      if offsets[i] != 0 && !done[i] {
        return false;
      }
    }
    return true;
  }

  /** cable_transfers: scans for cables, transfers each, then checks that every moving stitch was covered. */
  method Cables(offsets: seq<int>, orders: seq<int>) returns (res: Result<seq<Op>, string>)
    ensures res == CableResult(offsets, orders)
  {
    if |offsets| != |orders| {
      return Err(LengthError);
    }
    var plan, done := TransferCables(offsets, orders);
    var ok := CheckCovered(offsets, done, Scan(offsets, 0));
    if !ok {
      return Err(CoverError);
    }
    return Ok(plan);
  }
}
