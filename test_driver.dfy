/**
 * The reference simulator every planner is judged against: it keeps the
 * machine's needle map, checks each transfer for bed pair, racking window
 * and stack rules, moves whole stacks, and finally checks that every
 * stitch reached its target needle (first, when it is marked).
 */
module TestDriver {
  import opened Knit

  /** The stitches held on one needle, bottom first. */
  type Stack = seq<nat>

  /** The needle map: every needle that ever held something. */
  type Needles = map<Loc, Stack>

  datatype Options = Options(ignoreFirsts: bool, ignoreStacks: bool, ignoreEmpty: bool)

  datatype Failure =
    | BadLimit
    | FirstsLengthMismatch
    | OrdersLengthMismatch
    | BadBedPair(op: Op)
    | NoValidRacking(op: Op)
    | RackingOutOfRange(op: Op)
    | MissingSource(op: Op)
    | EmptySource(op: Op)
    | StackedSource(op: Op)
    | NotReached(stitch: nat)
    | NotFirst(stitch: nat)

  /** What a successful run returns. */
  datatype Report = Report(invalidFirsts: nat, xferredStacks: nat, xferredEmpty: nat, log: seq<Op>)

  /** The simulator's whole state between transfers. */
  datatype Machine = Machine(needles: Needles, log: seq<Op>, xferredStacks: nat, xferredEmpty: nat)

  /** The machine before any transfer: stitch i alone on front needle i. */
  function Initial(n: nat): Needles
  {
    map i | 0 <= i < n :: Loc(F, i) := [i as nat]
  }

  /**
   * Each of the stitches 0..n-1 appears exactly once, on exactly one needle,
   * and nothing else is held.
   */
  ghost predicate WellFormed(m: Needles, n: nat)
  {
    Bounded(m, n) && Unique(m) && (forall s :: 0 <= s < n ==> Held(m, s))
  }

  /** Only stitches 0..n-1 are held. */
  ghost predicate Bounded(m: Needles, n: nat)
  {
    forall l, k :: l in m && 0 <= k < |m[l]| ==> m[l][k] < n
  }

  /** No stitch is held twice. */
  ghost predicate Unique(m: Needles)
  {
    forall l1, k1, l2, k2 ::
      l1 in m && l2 in m && 0 <= k1 < |m[l1]| && 0 <= k2 < |m[l2]| && m[l1][k1] == m[l2][k2]
      ==> l1 == l2 && k1 == k2
  }

  /** Some needle holds stitch s. */
  ghost predicate Held(m: Needles, s: nat)
  {
    exists l, k :: l in m && 0 <= k < |m[l]| && m[l][k] == s
  }

  lemma InitialWellFormed(n: nat)
    ensures WellFormed(Initial(n), n)
  {
    var m := Initial(n);
    forall l | l in m ensures l.bed == F && 0 <= l.needle < n && m[l] == [l.needle as nat] {
      var i :| 0 <= i < n && Loc(F, i) == l;
    }
    forall s | 0 <= s < n ensures Held(m, s) {
      assert Loc(F, s) in m && m[Loc(F, s)][0] == s;
    }
  }

  /** The needle holding stitch s. */
  ghost function PosOf(m: Needles, n: nat, s: nat): (l: Loc)
    requires WellFormed(m, n) && s < n
    ensures l in m && s in m[l]
  {
    assert Held(m, s);
    var l, k :| l in m && 0 <= k < |m[l]| && m[l][k] == s; l
  }

  lemma PosOfUnique(m: Needles, n: nat, s: nat, l: Loc)
    requires WellFormed(m, n) && s < n && l in m && s in m[l]
    ensures PosOf(m, n, s) == l
  {
    var p := PosOf(m, n, s);
    var k :| 0 <= k < |m[l]| && m[l][k] == s;
    var j :| 0 <= j < |m[p]| && m[p][j] == s;
  }

  /** Where every stitch currently is. */
  ghost function Positions(m: Needles, n: nat): (at: seq<Loc>)
    requires WellFormed(m, n)
    ensures |at| == n
  {
    seq(n, s requires 0 <= s < n => PosOf(m, n, s))
  }

  /**
   * Whether racking r keeps stitches i-1 and i within their slack: pairs on
   * the same side of the machine do not constrain the racking.
   */
  predicate PairAllows(offsets: seq<int>, at: seq<Loc>, i: int, r: int)
    requires |at| == |offsets| && 1 <= i < |offsets|
  {
    OnFront(at[i - 1].bed) == OnFront(at[i].bed)
    || (var back := if OnFront(at[i].bed) then at[i - 1].needle else at[i].needle;
        var front := if OnFront(at[i].bed) then at[i].needle else at[i - 1].needle;
        var slack: int := Slack(offsets, i);
        -slack <= back + r - front <= slack)
  }

  /** Racking r is legal for the stitch configuration at. */
  predicate RackingLegal(offsets: seq<int>, at: seq<Loc>, r: int)
    requires |at| == |offsets|
  {
    forall i :: 1 <= i < |offsets| ==> PairAllows(offsets, at, i, r)
  }

  /** Racking r is legal for the pairs (j-1, j) with j < i. */
  ghost predicate LegalBelow(offsets: seq<int>, at: seq<Loc>, i: int, r: int)
    requires |at| == |offsets|
  {
    forall j :: 1 <= j < i && j < |offsets| ==> PairAllows(offsets, at, j, r)
  }

  /** A racking window; None stands for an infinite bound. */
  predicate InWindow(lo: Option<int>, hi: Option<int>, r: int)
  {
    (lo.None? || lo.value <= r) && (hi.None? || r <= hi.value)
  }

  lemma WindowEmptiness(lo: Option<int>, hi: Option<int>)
    ensures (lo.Some? && hi.Some? && lo.value > hi.value) <==> !(exists r :: InWindow(lo, hi, r))
  {
    if !(lo.Some? && hi.Some? && lo.value > hi.value) {
      var r := if lo.Some? then lo.value else if hi.Some? then hi.value else 0;
      assert InWindow(lo, hi, r);
    }
  }

  /** The interval of legal rackings for the configuration at, computed pair by pair. */
  method RackingWindow(offsets: seq<int>, at: seq<Loc>) returns (lo: Option<int>, hi: Option<int>)
    requires |at| == |offsets|
    ensures forall r :: InWindow(lo, hi, r) <==> RackingLegal(offsets, at, r)
  {
    lo, hi := None, None;
    var i := 1;
    while i < |offsets|
      invariant 1 <= i <= Max(1, |offsets|)
      invariant forall r :: InWindow(lo, hi, r) <==> LegalBelow(offsets, at, i, r)
    {
      assert forall r :: LegalBelow(offsets, at, i + 1, r) <==> LegalBelow(offsets, at, i, r) && PairAllows(offsets, at, i, r);
      if OnFront(at[i - 1].bed) != OnFront(at[i].bed) {
        var slack := Max(1, Abs(i + offsets[i] - (i - 1 + offsets[i - 1])));
        var back := if OnFront(at[i].bed) then at[i - 1].needle else at[i].needle;
        var front := if OnFront(at[i].bed) then at[i].needle else at[i - 1].needle;
        assert forall r :: PairAllows(offsets, at, i, r) <==> -slack - back + front <= r <= slack - back + front;
        ghost var lo0, hi0 := lo, hi;
        lo := Some(if lo.None? then -slack - back + front else Max(lo.value, -slack - back + front));
        hi := Some(if hi.None? then slack - back + front else Min(hi.value, slack - back + front));
        assert forall r :: InWindow(lo, hi, r) <==> InWindow(lo0, hi0, r) && PairAllows(offsets, at, i, r);
      }
      i := i + 1;
    }
  }

  /** Finds every stitch by scanning the needle map, needle by needle. */
  method Locate(m: Needles, n: nat) returns (at: seq<Loc>)
    requires WellFormed(m, n)
    ensures at == Positions(m, n)
  {
    var slots := new Option<Loc>[n](_ => None);
    var pending := m.Keys;
    ghost var done: set<Loc> := {};
    while pending != {}
      invariant pending !! done && pending + done == m.Keys
      invariant forall s :: 0 <= s < n && slots[s].Some? ==> slots[s].value in done && s in m[slots[s].value]
      invariant forall l, k :: l in done && 0 <= k < |m[l]| ==> slots[m[l][k]] == Some(l)
      decreases pending
    {
      var key :| key in pending;
      var stack := m[key];
      var j := 0;
      while j < |stack|
        invariant 0 <= j <= |stack|
        invariant forall s :: 0 <= s < n && slots[s].Some? ==>
          (slots[s].value in done && s in m[slots[s].value]) || (slots[s].value == key && s in stack[..j])
        invariant forall l, k :: l in done && 0 <= k < |m[l]| ==> slots[m[l][k]] == Some(l)
        invariant forall k :: 0 <= k < j ==> slots[stack[k]] == Some(key)
      {
        var s := stack[j];
        // each stitch can only be in one place
        assert slots[s].None?;
        slots[s] := Some(key);
        j := j + 1;
      }
      pending := pending - {key};
      done := done + {key};
    }
    var found := slots[..];
    at := [];
    while |at| < n
      invariant |at| <= n
      invariant forall s :: 0 <= s < |at| ==> at[s] == PosOf(m, n, s)
    {
      var s := |at|;
      assert Held(m, s);
      var l, k :| l in m && 0 <= k < |m[l]| && m[l][k] == s;
      assert found[s] == Some(l);
      PosOfUnique(m, n, s, l);
      at := at + [found[s].value];
    }
  }

  /** Moves the whole stack on from onto to, popping from the top, so it lands reversed. */
  function MoveStack(m: Needles, from: Loc, to: Loc): Needles
    requires from in m
  {
    var dest := if to in m then m[to] else [];
    m[to := dest + Reverse(m[from])][from := []]
  }

  /** Where entry k of needle l came from before the move. */
  function MovedFrom(m: Needles, from: Loc, to: Loc, l: Loc, k: int): (Loc, int)
    requires from in m
  {
    var d := if to in m then |m[to]| else 0;
    if l == to && k >= d then (from, |m[from]| - 1 - (k - d)) else (l, k)
  }

  lemma MoveStackEntry(m: Needles, from: Loc, to: Loc, l: Loc, k: int)
    requires from in m && from != to
    requires l in MoveStack(m, from, to) && 0 <= k < |MoveStack(m, from, to)[l]|
    ensures var (l0, k0) := MovedFrom(m, from, to, l, k);
      l != from && l0 in m && 0 <= k0 < |m[l0]| && MoveStack(m, from, to)[l][k] == m[l0][k0]
  {
    var D := if to in m then m[to] else [];
    if l == to && k >= |D| {
      ReverseAt(m[from], k - |D|);
    }
  }

  lemma MoveStackUnique(m: Needles, from: Loc, to: Loc)
    requires Unique(m) && from in m && from != to
    ensures Unique(MoveStack(m, from, to))
  {
    var m' := MoveStack(m, from, to);
    forall l1, k1, l2, k2 |
      l1 in m' && l2 in m' && 0 <= k1 < |m'[l1]| && 0 <= k2 < |m'[l2]| && m'[l1][k1] == m'[l2][k2]
      ensures l1 == l2 && k1 == k2
    {
      MoveStackEntry(m, from, to, l1, k1);
      MoveStackEntry(m, from, to, l2, k2);
    }
  }

  lemma MoveStackBounded(m: Needles, n: nat, from: Loc, to: Loc)
    requires Bounded(m, n) && from in m && from != to
    ensures Bounded(MoveStack(m, from, to), n)
  {
    var m' := MoveStack(m, from, to);
    forall l, k | l in m' && 0 <= k < |m'[l]| ensures m'[l][k] < n {
      MoveStackEntry(m, from, to, l, k);
    }
  }

  /** After the move, stitch s sits on to if it sat on from, and where it was otherwise. */
  lemma MoveStackHolds(m: Needles, from: Loc, to: Loc, s: nat, l: Loc, k: int)
    requires from in m && from != to && l in m && 0 <= k < |m[l]| && m[l][k] == s
    ensures var l' := if l == from then to else l;
      l' in MoveStack(m, from, to) && s in MoveStack(m, from, to)[l']
  {
    var m' := MoveStack(m, from, to);
    var D := if to in m then m[to] else [];
    var S := m[from];
    assert m'[to] == D + Reverse(S);
    if l == from {
      ReverseAt(S, |S| - 1 - k);
      assert m'[to][|D| + |S| - 1 - k] == s;
    } else if l == to {
      assert m'[to][k] == s;
    } else {
      assert m'[l][k] == s;
    }
  }

  lemma MoveStackWellFormed(m: Needles, n: nat, from: Loc, to: Loc)
    requires WellFormed(m, n) && from in m && from != to
    ensures WellFormed(MoveStack(m, from, to), n)
    ensures forall s :: 0 <= s < n ==>
      PosOf(MoveStack(m, from, to), n, s) == if PosOf(m, n, s) == from then to else PosOf(m, n, s)
  {
    var m' := MoveStack(m, from, to);
    MoveStackUnique(m, from, to);
    MoveStackBounded(m, n, from, to);
    forall s | 0 <= s < n ensures Held(m', s) {
      assert Held(m, s);
      var l, k :| l in m && 0 <= k < |m[l]| && m[l][k] == s;
      MoveStackHolds(m, from, to, s, l, k);
      var l' := if l == from then to else l;
      var k' :| 0 <= k' < |m'[l']| && m'[l'][k'] == s;
    }
    assert WellFormed(m', n);
    forall s | 0 <= s < n
      ensures PosOf(m', n, s) == if PosOf(m, n, s) == from then to else PosOf(m, n, s)
    {
      var p := PosOf(m, n, s);
      var k :| 0 <= k < |m[p]| && m[p][k] == s;
      MoveStackHolds(m, from, to, s, p, k);
      PosOfUnique(m', n, s, if p == from then to else p);
    }
  }

  /**
   * One transfer as the simulator checks it: an allowed bed pair, a
   * non-empty racking window containing the racking the transfer needs, a
   * source needle that exists, and (unless ignored) a source holding
   * exactly one stitch. The whole source stack moves.
   */
  ghost function Step(offsets: seq<int>, opts: Options, st: Machine, op: Op): (r: Result<Machine, Failure>)
    requires WellFormed(st.needles, |offsets|)
    ensures r.Ok? ==> WellFormed(r.value.needles, |offsets|)
  {
    var from := Loc(op.fromBed, op.fromNeedle);
    var to := Loc(op.toBed, op.toNeedle);
    var at := Positions(st.needles, |offsets|);
    if !AllowedPair(op) then Err(BadBedPair(op))
    else if !(exists r :: RackingLegal(offsets, at, r)) then Err(NoValidRacking(op))
    else if !RackingLegal(offsets, at, Racking(op)) then Err(RackingOutOfRange(op))
    else if from !in st.needles then Err(MissingSource(op))
    else if |st.needles[from]| == 0 && !opts.ignoreEmpty then Err(EmptySource(op))
    else if |st.needles[from]| > 1 && !opts.ignoreStacks then Err(StackedSource(op))
    else
      AllowedPairCrosses(op);
      MoveStackWellFormed(st.needles, |offsets|, from, to);
      Ok(Machine(MoveStack(st.needles, from, to), st.log + [op],
                 st.xferredStacks + (if |st.needles[from]| > 1 then 1 else 0),
                 st.xferredEmpty + (if |st.needles[from]| == 0 then 1 else 0)))
  }

  /** A successful transfer moves exactly the stitches of its source needle, and only those. */
  lemma StepMoves(offsets: seq<int>, opts: Options, st: Machine, op: Op)
    requires WellFormed(st.needles, |offsets|)
    requires Step(offsets, opts, st, op).Ok?
    ensures var next := Step(offsets, opts, st, op).value;
      var from := Loc(op.fromBed, op.fromNeedle);
      var to := Loc(op.toBed, op.toNeedle);
      && AllowedPair(op)
      && RackingLegal(offsets, Positions(st.needles, |offsets|), Racking(op))
      && (opts.ignoreStacks || |st.needles[from]| <= 1)
      && (opts.ignoreEmpty || |st.needles[from]| != 0)
      && next.log == st.log + [op]
      && (forall s :: 0 <= s < |offsets| ==>
            PosOf(next.needles, |offsets|, s)
            == if PosOf(st.needles, |offsets|, s) == from then to else PosOf(st.needles, |offsets|, s))
  {
    AllowedPairCrosses(op);
    MoveStackWellFormed(st.needles, |offsets|, Loc(op.fromBed, op.fromNeedle), Loc(op.toBed, op.toNeedle));
  }

  /** Replays a plan transfer by transfer, stopping at the first failure. */
  ghost function Replay(offsets: seq<int>, opts: Options, st: Machine, plan: seq<Op>): (r: Result<Machine, Failure>)
    requires WellFormed(st.needles, |offsets|)
    ensures r.Ok? ==> WellFormed(r.value.needles, |offsets|)
    decreases |plan|
  {
    if plan == [] then Ok(st)
    else match Step(offsets, opts, st, plan[0])
      case Err(e) => Err(e)
      case Ok(next) => Replay(offsets, opts, next, plan[1..])
  }

  /** A successful replay logs the plan and keeps the counters at zero unless told to ignore. */
  lemma {:induction false} ReplayLog(offsets: seq<int>, opts: Options, st: Machine, plan: seq<Op>)
    requires WellFormed(st.needles, |offsets|)
    requires Replay(offsets, opts, st, plan).Ok?
    ensures Replay(offsets, opts, st, plan).value.log == st.log + plan
    ensures !opts.ignoreStacks ==> Replay(offsets, opts, st, plan).value.xferredStacks == st.xferredStacks
    ensures !opts.ignoreEmpty ==> Replay(offsets, opts, st, plan).value.xferredEmpty == st.xferredEmpty
    decreases |plan|
  {
    if plan != [] {
      var next := Step(offsets, opts, st, plan[0]).value;
      ReplayLog(offsets, opts, next, plan[1..]);
      assert st.log + [plan[0]] + plan[1..] == st.log + plan;
    }
  }

  /**
   * The final check, from stitch i on: each stitch must be on front needle
   * i + offsets[i], and a marked stitch must be at the bottom of that stack.
   * Returns the number of marked stitches that are not at the bottom.
   */
  function FinalCheck(offsets: seq<int>, firsts: seq<bool>, opts: Options, m: Needles, i: nat, invalid: nat)
    : Result<nat, Failure>
    requires |firsts| == |offsets| && i <= |offsets|
    decreases |offsets| - i
  {
    if i == |offsets| then Ok(invalid)
    else
      var key := Loc(F, i + offsets[i]);
      if key !in m || i !in m[key] then Err(NotReached(i))
      else if firsts[i] && m[key][0] != i then
        if opts.ignoreFirsts then FinalCheck(offsets, firsts, opts, m, i + 1, invalid + 1)
        else Err(NotFirst(i))
      else FinalCheck(offsets, firsts, opts, m, i + 1, invalid)
  }

  /** Stitches from i on that are marked first but are not at the bottom of their target stack. */
  function Misplaced(offsets: seq<int>, firsts: seq<bool>, m: Needles, i: nat): nat
    requires |firsts| == |offsets| && i <= |offsets|
    decreases |offsets| - i
  {
    if i == |offsets| then 0
    else
      var key := Loc(F, i + offsets[i]);
      (if firsts[i] && key in m && |m[key]| > 0 && m[key][0] != i then 1 else 0)
      + Misplaced(offsets, firsts, m, i + 1)
  }

  /** What the final check promises: every stitch reached, marked ones first unless ignored. */
  lemma {:induction false} FinalCheckOk(offsets: seq<int>, firsts: seq<bool>, opts: Options, m: Needles, i: nat, invalid: nat)
    requires |firsts| == |offsets| && i <= |offsets|
    requires FinalCheck(offsets, firsts, opts, m, i, invalid).Ok?
    ensures forall j :: i <= j < |offsets| ==> Loc(F, j + offsets[j]) in m && j in m[Loc(F, j + offsets[j])]
    ensures !opts.ignoreFirsts ==>
      forall j :: i <= j < |offsets| && firsts[j] ==> m[Loc(F, j + offsets[j])][0] == j
    ensures FinalCheck(offsets, firsts, opts, m, i, invalid).value == invalid + Misplaced(offsets, firsts, m, i)
    decreases |offsets| - i
  {
    if i < |offsets| {
      var key := Loc(F, i + offsets[i]);
      if firsts[i] && m[key][0] != i {
        FinalCheckOk(offsets, firsts, opts, m, i + 1, invalid + 1);
      } else {
        FinalCheckOk(offsets, firsts, opts, m, i + 1, invalid);
      }
    }
  }

  /** The final check fails exactly at the first stitch that missed its target. */
  lemma {:induction false} FinalCheckNotReached(offsets: seq<int>, firsts: seq<bool>, opts: Options, m: Needles, i: nat, invalid: nat, j: nat)
    requires |firsts| == |offsets| && i <= |offsets|
    requires FinalCheck(offsets, firsts, opts, m, i, invalid) == Err(NotReached(j))
    ensures i <= j < |offsets|
    ensures Loc(F, j + offsets[j]) !in m || j !in m[Loc(F, j + offsets[j])]
    ensures forall k :: i <= k < j ==> Loc(F, k + offsets[k]) in m && k in m[Loc(F, k + offsets[k])]
    decreases |offsets| - i
  {
    var key := Loc(F, i + offsets[i]);
    if key in m && i in m[key] {
      if firsts[i] && m[key][0] != i {
        FinalCheckNotReached(offsets, firsts, opts, m, i + 1, invalid + 1, j);
      } else {
        FinalCheckNotReached(offsets, firsts, opts, m, i + 1, invalid, j);
      }
    }
  }

  function Start(n: nat): (st: Machine)
    ensures WellFormed(st.needles, n)
  {
    InitialWellFormed(n);
    Machine(Initial(n), [], 0, 0)
  }

  /** The whole test of one plan: validate, replay, check the end state. */
  ghost function Run(offsets: seq<int>, firsts: seq<bool>, orders: seq<int>, limit: int, plan: seq<Op>, opts: Options)
    : Result<Report, Failure>
  {
    if limit <= 0 then Err(BadLimit)
    else if |offsets| != |firsts| then Err(FirstsLengthMismatch)
    else if |offsets| != |orders| then Err(OrdersLengthMismatch)
    else
      match Replay(offsets, opts, Start(|offsets|), plan)
      case Err(e) => Err(e)
      case Ok(st) =>
        match FinalCheck(offsets, firsts, opts, st.needles, 0, 0)
        case Err(e) => Err(e)
        case Ok(k) => Ok(Report(k, st.xferredStacks, st.xferredEmpty, st.log))
  }

  /**
   * What a passing test guarantees: the log is the plan, every stitch sits
   * on its target front needle, and each counter is zero unless its option
   * asked to ignore it.
   */
  lemma RunOk(offsets: seq<int>, firsts: seq<bool>, orders: seq<int>, limit: int, plan: seq<Op>, opts: Options)
    requires Run(offsets, firsts, orders, limit, plan, opts).Ok?
    ensures var rep := Run(offsets, firsts, orders, limit, plan, opts).value;
      && rep.log == plan
      && (!opts.ignoreFirsts ==> rep.invalidFirsts == 0)
      && (!opts.ignoreStacks ==> rep.xferredStacks == 0)
      && (!opts.ignoreEmpty ==> rep.xferredEmpty == 0)
    ensures var st := Replay(offsets, opts, Start(|offsets|), plan).value;
      forall j :: 0 <= j < |offsets| ==>
        Loc(F, j + offsets[j]) in st.needles && j in st.needles[Loc(F, j + offsets[j])]
        && (firsts[j] && !opts.ignoreFirsts ==> st.needles[Loc(F, j + offsets[j])][0] == j)
  {
    InitialWellFormed(|offsets|);
    var st := Replay(offsets, opts, Start(|offsets|), plan).value;
    ReplayLog(offsets, opts, Start(|offsets|), plan);
    FinalCheckOk(offsets, firsts, opts, st.needles, 0, 0);
    if !opts.ignoreFirsts {
      FinalCheckNoMisplaced(offsets, firsts, opts, st.needles, 0, 0);
    }
  }

  lemma {:induction false} FinalCheckNoMisplaced(offsets: seq<int>, firsts: seq<bool>, opts: Options, m: Needles, i: nat, invalid: nat)
    requires |firsts| == |offsets| && i <= |offsets| && !opts.ignoreFirsts
    requires FinalCheck(offsets, firsts, opts, m, i, invalid).Ok?
    ensures FinalCheck(offsets, firsts, opts, m, i, invalid).value == invalid
    decreases |offsets| - i
  {
    if i < |offsets| {
      FinalCheckNoMisplaced(offsets, firsts, opts, m, i + 1, invalid);
    }
  }

  /** Pops the source stack onto the destination one stitch at a time, so it lands reversed on top. */
  method Pour(from: Stack, to: Stack) returns (r: Stack)
    ensures r == to + Reverse(from)
  {
    var rest := from;
    r := to;
    while |rest| > 0
      invariant r + Reverse(rest) == to + Reverse(from)
    {
      ReverseSnoc(rest[..|rest| - 1], rest[|rest| - 1]);
      assert rest == rest[..|rest| - 1] + [rest[|rest| - 1]];
      r := r + [rest[|rest| - 1]];
      rest := rest[..|rest| - 1];
    }
  }

  /** The machine model of test-driver.js: the needle map and the counters that xfer updates. */
  class Simulator {
    const offsets: seq<int>
    const options: Options
    var needles: Needles
    var log: seq<Op>
    var xferredStacks: nat
    var xferredEmpty: nat

    ghost predicate Valid()
      reads this
    {
      WellFormed(needles, |offsets|)
    }

    function State(): Machine
      reads this
    {
      Machine(needles, log, xferredStacks, xferredEmpty)
    }

    constructor (offsets: seq<int>, options: Options)
      ensures Valid() && this.offsets == offsets && this.options == options
      ensures State() == Start(|offsets|)
    {
      this.offsets := offsets;
      this.options := options;
      needles := Initial(|offsets|);
      log := [];
      xferredStacks := 0;
      xferredEmpty := 0;
      new;
      InitialWellFormed(|offsets|);
    }

    /** The xfer callback handed to a planner. */
    method Xfer(op: Op) returns (r: Result<(), Failure>)
      requires Valid()
      modifies this
      ensures Valid()
      ensures r.Err? ==> needles == old(needles)
      ensures match Step(offsets, options, old(State()), op)
        case Ok(next) => r.Ok? && State() == next
        case Err(e) => r == Err(e)
    {
      ghost var st := State();
      ghost var step := Step(offsets, options, st, op);
      log := log + [op];
      if !AllowedPair(op) {
        return Err(BadBedPair(op));
      }
      var at := Locate(needles, |offsets|);
      var lo, hi := RackingWindow(offsets, at);
      WindowEmptiness(lo, hi);
      if lo.Some? && hi.Some? && lo.value > hi.value {
        assert !exists r :: RackingLegal(offsets, at, r);
        return Err(NoValidRacking(op));
      }
      assert InWindow(lo, hi, if lo.Some? then lo.value else if hi.Some? then hi.value else 0);
      var racking := if OnFront(op.fromBed) then op.fromNeedle - op.toNeedle else op.toNeedle - op.fromNeedle;
      if !InWindow(lo, hi, racking) {
        return Err(RackingOutOfRange(op));
      }
      var fromKey, toKey := Loc(op.fromBed, op.fromNeedle), Loc(op.toBed, op.toNeedle);
      if fromKey !in needles {
        return Err(MissingSource(op));
      }
      var from := needles[fromKey];
      if |from| == 0 {
        xferredEmpty := xferredEmpty + 1;
        if !options.ignoreEmpty {
          return Err(EmptySource(op));
        }
      }
      if |from| > 1 {
        xferredStacks := xferredStacks + 1;
        if !options.ignoreStacks {
          return Err(StackedSource(op));
        }
      }
      assert step.Ok?;
      var to := if toKey in needles then needles[toKey] else [];
      to := Pour(from, to);
      AllowedPairCrosses(op);
      needles := needles[toKey := to][fromKey := []];
      assert needles == MoveStack(st.needles, fromKey, toKey);
      MoveStackWellFormed(st.needles, |offsets|, fromKey, toKey);
      r := Ok(());
    }

    /** The final check of test-driver.js, stitch by stitch. */
    method Finish(firsts: seq<bool>) returns (r: Result<nat, Failure>)
      requires |firsts| == |offsets|
      ensures r == FinalCheck(offsets, firsts, options, needles, 0, 0)
    {
      var invalid := 0;
      var i := 0;
      while i < |offsets|
        invariant 0 <= i <= |offsets|
        invariant FinalCheck(offsets, firsts, options, needles, 0, 0) == FinalCheck(offsets, firsts, options, needles, i, invalid)
      {
        var key := Loc(F, i + offsets[i]);
        if key !in needles || i !in needles[key] {
          return Err(NotReached(i));
        }
        if firsts[i] && needles[key][0] != i {
          invalid := invalid + 1;
          if !options.ignoreFirsts {
            return Err(NotFirst(i));
          }
        }
        i := i + 1;
      }
      return Ok(invalid);
    }
  }

  /**
   * test(): validates the arguments, hands the planner's transfers to the
   * simulator one by one, then runs the final check.
   */
  method Test(offsets: seq<int>, firsts: seq<bool>, orders: seq<int>, limit: int, plan: seq<Op>, opts: Options)
    returns (r: Result<Report, Failure>)
    ensures r == Run(offsets, firsts, orders, limit, plan, opts)
  {
    if limit <= 0 {
      return Err(BadLimit);
    }
    if |offsets| != |firsts| {
      return Err(FirstsLengthMismatch);
    }
    if |offsets| != |orders| {
      return Err(OrdersLengthMismatch);
    }
    var sim := new Simulator(offsets, opts);
    InitialWellFormed(|offsets|);
    var i := 0;
    while i < |plan|
      invariant 0 <= i <= |plan| && sim.Valid() && sim.offsets == offsets && sim.options == opts
      invariant Replay(offsets, opts, Start(|offsets|), plan) == Replay(offsets, opts, sim.State(), plan[i..])
    {
      assert plan[i..][1..] == plan[i + 1..];
      var step := sim.Xfer(plan[i]);
      if step.Err? {
        return Err(step.error);
      }
      i := i + 1;
    }
    var k := sim.Finish(firsts);
    if k.Err? {
      return Err(k.error);
    }
    return Ok(Report(k.value, sim.xferredStacks, sim.xferredEmpty, sim.log));
  }
}
