/**
 * The dynamic program shared by split_cables and limit_offsets: one layer
 * per stitch, one state per candidate value in [lo, hi].  Layer 0 costs
 * first(v); a state v of layer i >= 1 is usable only when node(i, v) holds,
 * and is reached from a state p of layer i-1 when edge(i, p, v) holds, at
 * cost step(i, v).  The cost table is filled forwards, keeping for every
 * state the cheapest predecessor (the first one on ties); the cheapest final
 * state (again the first on ties) is traced back along the predecessors.
 * Unreachable states, which the source marks with 0xffffffff costs and an
 * invalid back link, are None here.
 */
module LayeredDp {
  import opened Knit

  datatype Problem = Problem(
    layers: nat, lo: int, hi: int,
    first: int -> nat,
    node: (nat, int) -> bool,
    edge: (nat, int, int) -> bool,
    step: (nat, int) -> nat)

  /** The number of candidate values. */
  function Width(P: Problem): nat
  {
    if P.hi < P.lo then 0 else P.hi - P.lo + 1
  }

  /** A choice of one value per layer for the first |path| layers that respects node and edge. */
  predicate IsPath(P: Problem, path: seq<int>)
  {
    1 <= |path| <= P.layers
    && (forall k :: 0 <= k < |path| ==> P.lo <= path[k] <= P.hi)
    && (forall k :: 1 <= k < |path| ==> P.node(k, path[k]) && P.edge(k, path[k - 1], path[k]))
  }

  /** The cost of a choice: first on layer 0, then step on every later layer. */
  function PathCost(P: Problem, path: seq<int>): nat
    requires |path| >= 1
  {
    if |path| == 1 then P.first(path[0])
    else PathCost(P, path[..|path| - 1]) + P.step(|path| - 1, path[|path| - 1])
  }

  /** The best cost found so far and the value it came from. */
  datatype Choice = Choice(best: Option<nat>, from: Option<int>)

  /** The table entry for value v at layer i: the least cost of a path ending there, if any. */
  function Cell(P: Problem, i: nat, v: int): Option<nat>
    decreases i, Width(P) + 1
  {
    if i == 0 then Some(P.first(v))
    else if !P.node(i, v) then None
    else Choose(P, i, v, Width(P)).best
  }

  /** The scan over the first k predecessors of value v at layer i, keeping the first strictly cheaper one. */
  function Choose(P: Problem, i: nat, v: int, k: nat): Choice
    requires i >= 1
    decreases i, k
  {
    if k == 0 then Choice(None, None)
    else
      var c := Choose(P, i, v, k - 1);
      var p := P.lo + k - 1;
      var prev := Cell(P, i - 1, p);
      if P.edge(i, p, v) && prev.Some? && (c.best.None? || prev.value + P.step(i, v) < c.best.value)
      then Choice(Some(prev.value + P.step(i, v)), Some(p))
      else c
  }

  /** The back link stored for value v at layer i. */
  function FromOf(P: Problem, i: nat, v: int): Option<int>
  {
    if i == 0 || !P.node(i, v) then None else Choose(P, i, v, Width(P)).from
  }

  /** The scan over the first k values of the last layer, keeping the first strictly cheaper one. */
  function Pick(P: Problem, k: nat): Choice
    requires P.layers >= 1
  {
    if k == 0 then Choice(None, None)
    else
      var c := Pick(P, k - 1);
      var v := P.lo + k - 1;
      var cell := Cell(P, P.layers - 1, v);
      if cell.Some? && (c.best.None? || cell.value < c.best.value) then Choice(cell, Some(v)) else c
  }

  lemma {:induction false} ChooseSound(P: Problem, i: nat, v: int, k: nat)
    requires i >= 1
    ensures var c := Choose(P, i, v, k);
      (c.best.Some? <==> c.from.Some?)
      && (c.from.Some? ==>
            P.lo <= c.from.value < P.lo + k && P.edge(i, c.from.value, v)
            && Cell(P, i - 1, c.from.value).Some?
            && c.best.value == Cell(P, i - 1, c.from.value).value + P.step(i, v))
  {
    if k > 0 {
      ChooseSound(P, i, v, k - 1);
    }
  }

  /** No considered predecessor gives a cheaper cost than the one chosen. */
  lemma {:induction false} ChooseMin(P: Problem, i: nat, v: int, k: nat, p: int)
    requires i >= 1 && P.lo <= p < P.lo + k
    requires P.edge(i, p, v) && Cell(P, i - 1, p).Some?
    ensures Choose(P, i, v, k).best.Some?
    ensures Choose(P, i, v, k).best.value <= Cell(P, i - 1, p).value + P.step(i, v)
  {
    if p < P.lo + k - 1 {
      ChooseMin(P, i, v, k - 1, p);
    } else if k > 1 {
      ChooseSound(P, i, v, k - 1);
    }
  }

  /** Ties go to the first predecessor: every earlier usable predecessor costs strictly more. */
  lemma {:induction false} ChooseFirst(P: Problem, i: nat, v: int, k: nat, p: int)
    requires i >= 1 && Choose(P, i, v, k).best.Some? && Choose(P, i, v, k).from.Some?
    requires P.lo <= p < Choose(P, i, v, k).from.value
    requires P.edge(i, p, v) && Cell(P, i - 1, p).Some?
    ensures Cell(P, i - 1, p).value + P.step(i, v) > Choose(P, i, v, k).best.value
  {
    var c := Choose(P, i, v, k - 1);
    ChooseSound(P, i, v, k);
    if Choose(P, i, v, k) == c {
      ChooseFirst(P, i, v, k - 1, p);
    } else {
      ChooseMin(P, i, v, k - 1, p);
    }
  }

  lemma {:induction false} PickSound(P: Problem, k: nat)
    requires P.layers >= 1
    ensures var c := Pick(P, k);
      (c.best.Some? <==> c.from.Some?)
      && (c.from.Some? ==>
            P.lo <= c.from.value < P.lo + k && c.best == Cell(P, P.layers - 1, c.from.value))
  {
    if k > 0 {
      PickSound(P, k - 1);
    }
  }

  lemma {:induction false} PickMin(P: Problem, k: nat, v: int)
    requires P.layers >= 1 && P.lo <= v < P.lo + k && Cell(P, P.layers - 1, v).Some?
    ensures Pick(P, k).best.Some? && Pick(P, k).best.value <= Cell(P, P.layers - 1, v).value
  {
    if v < P.lo + k - 1 {
      PickMin(P, k - 1, v);
    } else if k > 1 {
      PickSound(P, k - 1);
    }
  }

  /** The path traced back from value v at layer i along the stored back links. */
  function Trace(P: Problem, i: nat, v: int): (path: seq<int>)
    requires Cell(P, i, v).Some?
    ensures |path| == i + 1 && path[i] == v
  {
    if i == 0 then [v]
    else
      ChooseSound(P, i, v, Width(P));
      Trace(P, i - 1, Choose(P, i, v, Width(P)).from.value) + [v]
  }

  /** The traced path is a real path of the table's cost. */
  lemma {:induction false} TraceSound(P: Problem, i: nat, v: int)
    requires Cell(P, i, v).Some? && i < P.layers && P.lo <= v <= P.hi
    ensures IsPath(P, Trace(P, i, v))
    ensures PathCost(P, Trace(P, i, v)) == Cell(P, i, v).value
  {
    if i > 0 {
      ChooseSound(P, i, v, Width(P));
      var p := Choose(P, i, v, Width(P)).from.value;
      TraceSound(P, i - 1, p);
      var front := Trace(P, i - 1, p);
      var t := Trace(P, i, v);
      assert t == front + [v];
      assert t[..i] == front;
      ghost var ok := IsPath(P, front);
      PathExtendKnown(P, front, v, ok);
    }
  }

  /** A path extended by a value the edge and node allow is a path one layer longer. */
  lemma PathExtend(P: Problem, front: seq<int>, v: int)
    requires IsPath(P, front) && |front| < P.layers && P.lo <= v <= P.hi
    requires P.node(|front|, v) && P.edge(|front|, front[|front| - 1], v)
    ensures IsPath(P, front + [v])
    ensures PathCost(P, front + [v]) == PathCost(P, front) + P.step(|front|, v)
  {
    PathExtendIsPath(P, front, v);
    PathExtendCost(P, front, v);
  }

  /** PathExtend, with the path property of the front passed as a known fact. */
  lemma PathExtendKnown(P: Problem, front: seq<int>, v: int, ok: bool)
    requires ok == IsPath(P, front) && ok && |front| < P.layers && P.lo <= v <= P.hi
    requires P.node(|front|, v) && P.edge(|front|, front[|front| - 1], v)
    ensures IsPath(P, front + [v])
    ensures PathCost(P, front + [v]) == PathCost(P, front) + P.step(|front|, v)
  {
    PathExtend(P, front, v);
  }

  lemma PathExtendIsPath(P: Problem, front: seq<int>, v: int)
    requires IsPath(P, front) && |front| < P.layers && P.lo <= v <= P.hi
    requires P.node(|front|, v) && P.edge(|front|, front[|front| - 1], v)
    ensures IsPath(P, front + [v])
  {
    var t := front + [v];
    forall k | 0 <= k < |t| ensures P.lo <= t[k] <= P.hi {
      if k < |front| {
        assert t[k] == front[k];
      }
    }
    forall k | 1 <= k < |t| ensures P.node(k, t[k]) && P.edge(k, t[k - 1], t[k]) {
      if k < |front| {
        assert t[k] == front[k] && t[k - 1] == front[k - 1];
      }
    }
  }

  lemma PathExtendCost(P: Problem, front: seq<int>, v: int)
    requires |front| >= 1
    ensures PathCost(P, front + [v]) == PathCost(P, front) + P.step(|front|, v)
  {
    var t := front + [v];
    assert t[..|front|] == front;
  }

  /** The table is a lower bound: every path ending at v on layer i costs at least Cell(i, v). */
  lemma {:induction false} CellOptimal(P: Problem, path: seq<int>)
    requires IsPath(P, path)
    ensures Cell(P, |path| - 1, path[|path| - 1]).Some?
    ensures Cell(P, |path| - 1, path[|path| - 1]).value <= PathCost(P, path)
  {
    var i := |path| - 1;
    if i > 0 {
      var front := path[..i];
      assert IsPath(P, front);
      CellOptimal(P, front);
      ChooseMin(P, i, path[i], Width(P), path[i - 1]);
    }
  }

  /** What the dynamic program returns: the traced path of the first cheapest final state. */
  function Solution(P: Problem): Option<seq<int>>
  {
    if P.layers == 0 then None
    else
      var c := Pick(P, Width(P));
      PickSound(P, Width(P));
      if c.from.None? then None else Some(Trace(P, P.layers - 1, c.from.value))
  }

  /**
   * The solution is a path through every layer, no path is cheaper, and
   * there is no solution exactly when no path reaches the last layer.
   */
  lemma SolutionOptimal(P: Problem)
    ensures Solution(P).Some? ==>
      IsPath(P, Solution(P).value) && |Solution(P).value| == P.layers
      && forall path :: IsPath(P, path) && |path| == P.layers ==> PathCost(P, Solution(P).value) <= PathCost(P, path)
    ensures Solution(P).None? ==> forall path :: IsPath(P, path) ==> |path| < P.layers
  {
    if P.layers > 0 {
      PickSound(P, Width(P));
      var c := Pick(P, Width(P));
      forall path | IsPath(P, path) && |path| == P.layers
        ensures c.from.Some? && c.best.value <= PathCost(P, path)
      {
        CellOptimal(P, path);
        PickMin(P, Width(P), path[|path| - 1]);
      }
      if c.from.Some? {
        var t := Trace(P, P.layers - 1, c.from.value);
        assert Solution(P) == Some(t);
        TraceSound(P, P.layers - 1, c.from.value);
      }
    }
  }

  /** Rows below `rows` of the tables hold the table entries and back links. */
  ghost predicate Filled(P: Problem, costs: array2<Option<nat>>, froms: array2<Option<int>>, rows: nat)
    reads costs, froms
  {
    costs.Length0 == froms.Length0 == P.layers && costs.Length1 == froms.Length1 == Width(P) && rows <= P.layers
    && forall i, k :: 0 <= i < rows && 0 <= k < Width(P) ==>
         costs[i, k] == Cell(P, i, P.lo + k) && froms[i, k] == FromOf(P, i, P.lo + k)
  }

  /** One table entry: the scan over the predecessors of value v at layer i. */
  method BestFrom(P: Problem, costs: array2<Option<nat>>, froms: array2<Option<int>>, i: nat, v: int)
    returns (best: Option<nat>, from: Option<int>)
    requires 1 <= i && Filled(P, costs, froms, i)
    ensures Choice(best, from) == Choose(P, i, v, Width(P))
  {
    best, from := None, None;
    for j := 0 to Width(P)
      invariant Choice(best, from) == Choose(P, i, v, j)
    {
      var p := P.lo + j;
      if P.edge(i, p, v) && costs[i - 1, j].Some? {
        var cost := costs[i - 1, j].value + P.step(i, v);
        if best.None? || cost < best.value {
          best := Some(cost);
          from := Some(p);
        }
      }
    }
  }

  /** Fills layer i from layer i-1. */
  method FillLayer(P: Problem, costs: array2<Option<nat>>, froms: array2<Option<int>>, i: nat)
    requires 1 <= i < P.layers && Filled(P, costs, froms, i)
    modifies costs, froms
    ensures Filled(P, costs, froms, i + 1)
  {
    for k := 0 to Width(P)
      invariant Filled(P, costs, froms, i)
      invariant forall k' :: 0 <= k' < k ==>
        costs[i, k'] == Cell(P, i, P.lo + k') && froms[i, k'] == FromOf(P, i, P.lo + k')
    {
      var v := P.lo + k;
      var best: Option<nat> := None;
      var from: Option<int> := None;
      if P.node(i, v) {
        best, from := BestFrom(P, costs, froms, i, v);
      }
      costs[i, k] := best;
      froms[i, k] := from;
    }
  }

  /** Reads the back links from the last layer down to layer 0. */
  method TraceBack(P: Problem, costs: array2<Option<nat>>, froms: array2<Option<int>>, last: int)
    returns (path: seq<int>)
    requires Filled(P, costs, froms, P.layers) && P.layers >= 1
    requires P.lo <= last <= P.hi && Cell(P, P.layers - 1, last).Some?
    ensures path == Trace(P, P.layers - 1, last)
  {
    path := [last];
    var i := P.layers - 1;
    while i > 0
      invariant 0 <= i <= P.layers - 1 && |path| == P.layers - i
      invariant P.lo <= path[0] <= P.hi && Cell(P, i, path[0]).Some?
      invariant Trace(P, P.layers - 1, last) == Trace(P, i, path[0]) + path[1..]
    {
      var f := froms[i, path[0] - P.lo];
      ChooseSound(P, i, path[0], Width(P));
      assert f.Some?;
      assert Trace(P, i, path[0]) == Trace(P, i - 1, f.value) + [path[0]];
      path := [f.value] + path;
      i := i - 1;
    }
    assert path == [path[0]] + path[1..];
  }

  /** The dynamic program over a layers-by-width table, as the source fills and reads it. */
  method Solve(P: Problem) returns (r: Option<seq<int>>)
    ensures r == Solution(P)
  {
    var W := Width(P);
    var costs := new Option<nat>[P.layers, W]((_, _) => None);
    var froms := new Option<int>[P.layers, W]((_, _) => None);
    if P.layers == 0 {
      return None;
    }
    for k := 0 to W
      invariant forall k' :: 0 <= k' < k ==> costs[0, k'] == Cell(P, 0, P.lo + k') && froms[0, k'] == None
    {
      costs[0, k] := Some(P.first(P.lo + k));
      froms[0, k] := None;
    }
    for i := 1 to P.layers
      invariant Filled(P, costs, froms, i)
    {
      FillLayer(P, costs, froms, i);
    }
    var best: Option<nat> := None;
    var last: Option<int> := None;
    for k := 0 to W
      invariant Choice(best, last) == Pick(P, k)
    {
      var cell := costs[P.layers - 1, k];
      if cell.Some? && (best.None? || cell.value < best.value) {
        best := cell;
        last := Some(P.lo + k);
      }
    }
    PickSound(P, W);
    if last.None? {
      return None;
    }
    var path := TraceBack(P, costs, froms, last.value);
    r := Some(path);
  }
}
