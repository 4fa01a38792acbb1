/**
 * generate_stats: the statistics pass over a transfer file: needle keys
 * such as "f12" or "bs-3", the racking a transfer between two keys needs,
 * a replay of the transfers that counts carriage passes and stacked
 * transfers, stack statistics afterwards, and the pass lower bound.
 */
module GenerateStats {
  import opened Knit
  import ExhaustiveSearch
  import TestDriver

  // ---------------------------------------------------------- needle keys

  predicate IsDigit(c: char)
  {
    '0' <= c <= '9'
  }

  predicate AllDigits(t: string)
  {
    forall k :: 0 <= k < |t| ==> IsDigit(t[k])
  }

  /** The value of a string of decimal digits. */
  function DigitsValue(t: string): nat
    requires AllDigits(t)
  {
    if t == [] then 0 else DigitsValue(t[..|t| - 1]) * 10 + (t[|t| - 1] as int - '0' as int)
  }

  /** The bed a key starts with: f, fs, b or bs. */
  function ParseBed(t: string): (r: Option<Bed>)
    ensures r.Some? ==> BedName(r.value) == t
  {
    if t == "f" then Some(F) else if t == "fs" then Some(FS)
    else if t == "b" then Some(B) else if t == "bs" then Some(BS) else None
  }

  /** An optional minus sign and at least one digit, as parseInt reads it. */
  function ParseNumber(t: string): Option<int>
  {
    if |t| >= 2 && t[0] == '-' && AllDigits(t[1..]) then Some(-(DigitsValue(t[1..]) as int))
    else if |t| >= 1 && AllDigits(t) then Some(DigitsValue(t))
    else None
  }

  /** A needle key: a bed name, then a needle number. */
  function ParseNeedle(t: string): Option<Loc>
  {
    var k := if |t| >= 2 && t[1] == 's' then 2 else 1;
    if |t| < k then None
    else match (ParseBed(t[..k]), ParseNumber(t[k..]))
      case (Some(b), Some(x)) => Some(Loc(b, x))
      case _ => None
  }

  lemma DigitValue(d: nat)
    requires d < 10
    ensures Digit(d) as int - '0' as int == d
  {
    if d == 0 {} else if d == 1 {} else if d == 2 {} else if d == 3 {} else if d == 4 {}
    else if d == 5 {} else if d == 6 {} else if d == 7 {} else if d == 8 {} else {}
  }

  lemma {:induction false} DigitsRoundTrip(n: nat)
    ensures AllDigits(Digits(n)) && DigitsValue(Digits(n)) == n
  {
    DigitsAreDigits(n);
    if n < 10 {
      DigitValue(n);
      assert Digits(n)[..0] == [];
    } else {
      DigitsRoundTrip(n / 10);
      DigitValue(n % 10);
      var t := Digits(n);
      assert t[..|t| - 1] == Digits(n / 10);
    }
  }

  lemma BedRoundTrip(b: Bed)
    ensures ParseBed(BedName(b)) == Some(b)
  {
    match b
    case F => {} case FS => {} case B => {} case BS => {}
  }

  lemma NumberRoundTrip(x: int)
    ensures ParseNumber(NumberText(x)) == Some(x)
  {
    if x < 0 {
      assert NumberText(x) == "-" + Digits(-x);
      NegativeRoundTrip(-x);
    } else {
      assert NumberText(x) == Digits(x);
      NaturalRoundTrip(x);
    }
  }

  lemma NaturalRoundTrip(n: nat)
    ensures ParseNumber(Digits(n)) == Some(n)
  {
    DigitsRoundTrip(n);
    DigitsAreDigits(n);
  }

  lemma NegativeRoundTrip(n: nat)
    requires n > 0
    ensures ParseNumber("-" + Digits(n)) == Some(-(n as int))
  {
    var d := Digits(n);
    var t := "-" + d;
    DigitsRoundTrip(n);
    DigitsAreDigits(n);
    assert t[1..] == d;
  }

  /** Parsing the key the planners write for a needle gives that needle back. */
  lemma KeyRoundTrip(l: Loc)
    ensures ParseNeedle(KeyText(l)) == Some(l)
  {
    var name := BedName(l.bed);
    var num := NumberText(l.needle);
    var t := KeyText(l);
    assert t == name + num;
    var k := if |t| >= 2 && t[1] == 's' then 2 else 1;
    assert k == |name| by {
      if |name| == 1 { assert t[1] == num[0]; }
    }
    assert t[..k] == name && t[k..] == num;
    BedRoundTrip(l.bed);
    NumberRoundTrip(l.needle);
  }

  /** Different needles have different keys. */
  lemma KeysDistinct(l1: Loc, l2: Loc)
    requires KeyText(l1) == KeyText(l2)
    ensures l1 == l2
  {
    KeyRoundTrip(l1);
    KeyRoundTrip(l2);
  }

  /**
   * getOffset: the racking a transfer between two keys needs, from - to
   * when it leaves a front bed and to - from otherwise; a key that does
   * not parse is an error.
   */
  function GetOffset(from: string, to: string): (r: Result<int, string>)
    ensures r.Ok? <==> ParseNeedle(from).Some? && ParseNeedle(to).Some?
  {
    match (ParseNeedle(from), ParseNeedle(to))
    case (Some(f), Some(t)) => Ok(if OnFront(f.bed) then f.needle - t.needle else t.needle - f.needle)
    case _ => Err("not a needle key")
  }

  /** Between the keys of a transfer's needles, getOffset is the racking the transfer needs. */
  lemma OffsetOfKeys(x: Op)
    ensures GetOffset(KeyText(Loc(x.fromBed, x.fromNeedle)), KeyText(Loc(x.toBed, x.toNeedle))) == Ok(Racking(x))
  {
    KeyRoundTrip(Loc(x.fromBed, x.fromNeedle));
    KeyRoundTrip(Loc(x.toBed, x.toNeedle));
  }

  // ---------------------------------------------------------- the replay

  type Stacks = map<string, seq<nat>>

  /** The replay's bookkeeping: the stacks, the counts so far, and the last transfer's racking and source bed. */
  datatype Sim = Sim(needles: Stacks, stacked: nat, passes: nat, last: Option<(int, Bed)>)

  /** Stitch i alone on front needle i. */
  function InitialNeedles(n: nat): Stacks
  {
    if n == 0 then map[] else InitialNeedles(n - 1)[KeyText(Loc(F, n - 1)) := [n - 1]]
  }

  /** The whole stack on from is popped onto to, so it lands reversed; from stays as an empty needle. */
  function KeyMove(m: Stacks, from: string, to: string): Stacks
    requires from in m
  {
    var dest := if to in m then m[to] else [];
    m[to := dest + Reverse(m[from])][from := []]
  }

  /** The racking and source bed that decide whether a transfer continues the current pass. */
  function PassKeyOf(x: (string, string)): Result<(int, Bed), string>
  {
    match GetOffset(x.0, x.1)
    case Ok(off) => Ok((off, ParseNeedle(x.0).value.bed))
    case Err(e) => Err(e)
  }

  /**
   * One transfer of the replay. A transfer of a stack onto its own needle
   * would pop and push the same stitches forever, so it is an error here;
   * one from an empty needle onto itself moves nothing but still counts
   * towards the passes.
   */
  function SimStep(s: Sim, x: (string, string)): Result<Sim, string>
  {
    if x.0 !in s.needles then Err("no stitches recorded on the source needle")
    else if x.0 == x.1 && |s.needles[x.0]| > 0 then Err("a transfer onto its own needle never ends")
    else match PassKeyOf(x)
      case Err(e) => Err(e)
      case Ok(key) =>
        Ok(Sim(KeyMove(s.needles, x.0, x.1),
               s.stacked + (if |s.needles[x.0]| > 1 then 1 else 0),
               s.passes + (if s.last.Some? && s.last.value != key then 1 else 0),
               Some(key)))
  }

  /**
   * A transfer from an empty needle onto itself leaves the stacks and the
   * stacked count alone, takes racking 0 on the needle's bed as the current
   * pass, and opens a new pass when the previous transfer had another.
   */
  lemma EmptySelfTransfer(s: Sim, x: (string, string))
    requires x.0 == x.1 && x.0 in s.needles && s.needles[x.0] == []
    ensures SimStep(s, x).Ok? <==> ParseNeedle(x.0).Some?
    ensures SimStep(s, x).Ok? ==>
      var key := (0, ParseNeedle(x.0).value.bed);
      SimStep(s, x) == Ok(Sim(s.needles, s.stacked, s.passes + (if s.last.Some? && s.last.value != key then 1 else 0), Some(key)))
  {
    var m := s.needles;
    var dest := m[x.1];
    assert dest + Reverse(m[x.0]) == [];
    assert m[x.1 := []][x.0 := []] == m;
  }

  /** The replay of a transfer list over n stitches: it starts at one pass. */
  function Run(n: nat, xs: seq<(string, string)>): Result<Sim, string>
  {
    if xs == [] then Ok(Sim(InitialNeedles(n), 0, 1, None))
    else match Run(n, xs[..|xs| - 1])
      case Err(e) => Err(e)
      case Ok(s) => SimStep(s, xs[|xs| - 1])
  }

  lemma {:induction false} RunErrPersists(n: nat, xs: seq<(string, string)>, k: nat)
    requires k <= |xs| && Run(n, xs[..k]).Err?
    ensures Run(n, xs).Err?
    decreases |xs|
  {
    if k < |xs| {
      var ys := xs[..|xs| - 1];
      assert ys[..k] == xs[..k];
      RunErrPersists(n, ys, k);
    } else {
      assert xs[..k] == xs;
    }
  }

  /** One pass of the simulation loop, with the racking and bed of the previous transfer. */
  method ReplayOne(st: Sim, bedOffset: int, previousBed: Bed, x: (string, string)) returns (r: Result<Sim, string>)
    requires st.last == Some((bedOffset, previousBed))
      || (st.last == None && PassKeyOf(x).Ok? && PassKeyOf(x).value == (bedOffset, previousBed))
    ensures r == SimStep(st, x)
  {
    var needles := st.needles;
    if x.0 !in needles {
      return Err("no stitches recorded on the source needle");
    }
    var from := needles[x.0];
    if x.0 == x.1 && |from| > 0 {
      return Err("a transfer onto its own needle never ends");
    }
    var to := if x.1 in needles then needles[x.1] else [];
    var stacked := st.stacked;
    if |from| > 1 {
      stacked := stacked + 1;
    }
    to := TestDriver.Pour(from, to);
    needles := needles[x.1 := to][x.0 := []];
    var key := PassKeyOf(x);
    if key.Err? {
      return Err(key.error);
    }
    var needleOffset := key.value.0;
    var currentBed := key.value.1;
    var passes := st.passes;
    if needleOffset != bedOffset || previousBed != currentBed {
      passes := passes + 1;
    }
    return Ok(Sim(needles, stacked, passes, Some((needleOffset, currentBed))));
  }

  lemma RunSnoc(n: nat, xs: seq<(string, string)>, i: nat)
    requires i < |xs|
    ensures Run(n, xs[..i + 1]) == match Run(n, xs[..i]) case Err(e) => Err(e) case Ok(s) => SimStep(s, xs[i])
  {
    assert xs[..i + 1][..i] == xs[..i];
  }

  /** Puts stitch i on front needle i, for every stitch. */
  method PlaceStitches(n: nat) returns (needles: Stacks)
    ensures needles == InitialNeedles(n)
  {
    needles := map[];
    for i := 0 to n
      invariant needles == InitialNeedles(i)
    {
      needles := needles[KeyText(Loc(F, i)) := [i]];
    }
  }

  /** The simulation loop of the statistics pass. */
  method Simulate(n: nat, xfers: seq<(string, string)>) returns (r: Result<Sim, string>)
    ensures r.Err? <==> Run(n, xfers).Err?
    ensures r.Ok? ==> r.value == Run(n, xfers).value
  {
    var needles := PlaceStitches(n);
    if |xfers| == 0 {
      return Ok(Sim(needles, 0, 1, None));
    }
    var first := PassKeyOf(xfers[0]);
    if first.Err? {
      RunSnoc(n, xfers, 0);
      RunErrPersists(n, xfers, 1);
      return Err(first.error);
    }
    var bedOffset := first.value.0;
    var previousBed := first.value.1;
    var st := Sim(needles, 0, 1, None);
    assert xfers[..0] == [];
    for i := 0 to |xfers|
      invariant Run(n, xfers[..i]).Ok? && Run(n, xfers[..i]).value == st
      invariant i == 0 ==> st.last == None && (bedOffset, previousBed) == first.value
      invariant i > 0 ==> st.last == Some((bedOffset, previousBed))
    {
      RunSnoc(n, xfers, i);
      var next := ReplayOne(st, bedOffset, previousBed, xfers[i]);
      if next.Err? {
        RunErrPersists(n, xfers, i + 1);
        return Err(next.error);
      }
      st := next.value;
      bedOffset := st.last.value.0;
      previousBed := st.last.value.1;
    }
    assert xfers[..|xfers|] == xfers;
    return Ok(st);
  }

  /** The keys of a transfer's two needles. */
  function KeyPair(x: Op): (string, string)
  {
    (KeyText(Loc(x.fromBed, x.fromNeedle)), KeyText(Loc(x.toBed, x.toNeedle)))
  }

  /** The keys of a transfer's needles, as a transfer file names them. */
  function KeysOf(ops: seq<Op>): (ks: seq<(string, string)>)
    ensures |ks| == |ops|
  {
    seq(|ops|, k requires 0 <= k < |ops| => KeyPair(ops[k]))
  }

  predicate FromMainBeds(ops: seq<Op>)
  {
    forall k :: 0 <= k < |ops| ==> ops[k].fromBed == F || ops[k].fromBed == B
  }

  /** The pass key of a transfer between main-bed needles, read back from its keys. */
  lemma KeyOfTransfer(x: Op)
    requires x.fromBed == F || x.fromBed == B
    ensures PassKeyOf(KeyPair(x)) == Ok((ExhaustiveSearch.NeedsRack(x), x.fromBed))
  {
    OffsetOfKeys(x);
    KeyRoundTrip(Loc(x.fromBed, x.fromNeedle));
  }

  /** The search's pass key changes exactly when the statistics key does. */
  lemma KeysChangeTogether(x: Op, y: Op)
    requires (x.fromBed == F || x.fromBed == B) && (y.fromBed == F || y.fromBed == B)
    ensures ExhaustiveSearch.PassKey(x) != ExhaustiveSearch.PassKey(y) <==>
      (ExhaustiveSearch.NeedsRack(x), x.fromBed) != (ExhaustiveSearch.NeedsRack(y), y.fromBed)
  {
  }

  lemma KeysOfPrefix(ops: seq<Op>)
    requires ops != []
    ensures KeysOf(ops)[..|ops| - 1] == KeysOf(ops[..|ops| - 1])
    ensures KeysOf(ops)[|ops| - 1] == KeyPair(ops[|ops| - 1])
  {
  }

  lemma MainBedsPrefix(ops: seq<Op>)
    requires ops != [] && FromMainBeds(ops)
    ensures FromMainBeds(ops[..|ops| - 1])
    ensures ops[|ops| - 1].fromBed == F || ops[|ops| - 1].fromBed == B
  {
    var ps := ops[..|ops| - 1];
    forall k | 0 <= k < |ps| ensures ps[k].fromBed == F || ps[k].fromBed == B {
      assert ps[k] == ops[k];
    }
  }

  lemma RunLast(n: nat, ks: seq<(string, string)>)
    requires ks != [] && Run(n, ks).Ok?
    ensures Run(n, ks[..|ks| - 1]).Ok?
    ensures Run(n, ks) == SimStep(Run(n, ks[..|ks| - 1]).value, ks[|ks| - 1])
  {
  }

  /** One replayed transfer between main-bed needles sets the last key and counts a pass when the key changes. */
  lemma SimStepPasses(s: Sim, x: Op, t: Result<Sim, string>)
    requires x.fromBed == F || x.fromBed == B
    requires t == SimStep(s, KeyPair(x)) && t.Ok?
    ensures t.value.last == Some((ExhaustiveSearch.NeedsRack(x), x.fromBed))
    ensures t.value.passes == s.passes + (if s.last.Some? && s.last.value != (ExhaustiveSearch.NeedsRack(x), x.fromBed) then 1 else 0)
  {
    KeyOfTransfer(x);
  }

  lemma PassCountSnoc(ops: seq<Op>)
    requires |ops| >= 2
    ensures ExhaustiveSearch.PassCount(ops) == ExhaustiveSearch.PassCount(ops[..|ops| - 1])
      + (if ExhaustiveSearch.PassKey(ops[|ops| - 1]) != ExhaustiveSearch.PassKey(ops[|ops| - 2]) then 1 else 0)
  {
    assert ops[..|ops| - 1][..|ops| - 2] == ops[..|ops| - 2];
  }

  /**
   * Replaying the transfers of a plan that leave the main beds, the
   * statistics pass counts the same passes as the exhaustive search does,
   * except that an empty plan counts as one pass here.
   */
  lemma {:induction false} PassesAgree(n: nat, ops: seq<Op>)
    requires FromMainBeds(ops) && Run(n, KeysOf(ops)).Ok?
    ensures Run(n, KeysOf(ops)).value.passes == if ops == [] then 1 else ExhaustiveSearch.PassCount(ops)
    ensures ops != [] ==> Run(n, KeysOf(ops)).value.last == Some((ExhaustiveSearch.NeedsRack(ops[|ops| - 1]), ops[|ops| - 1].fromBed))
  {
    if ops != [] {
      var ps := ops[..|ops| - 1];
      var x := ops[|ops| - 1];
      KeysOfPrefix(ops);
      MainBedsPrefix(ops);
      RunLast(n, KeysOf(ops));
      PassesAgree(n, ps);
      SimStepPasses(Run(n, KeysOf(ps)).value, x, Run(n, KeysOf(ops)));
      if ps != [] {
        var y := ps[|ps| - 1];
        assert y == ops[|ops| - 2];
        KeysChangeTogether(x, y);
        PassCountSnoc(ops);
      }
    }
  }

  // ---------------------------------------------------------- stack statistics

  /** The key of front needle i. */
  function FrontKey(i: nat): string
  {
    KeyText(Loc(F, i))
  }

  /** Of the front needles 0..i-1, how many hold a stack, and how many of those have a first stitch at the bottom. */
  function StackCounts(needles: Stacks, firsts: seq<bool>, i: nat): (c: (nat, nat))
    requires i <= |firsts| && forall j :: 0 <= j < |firsts| ==> FrontKey(j) in needles
    ensures c.1 <= c.0 <= i
  {
    if i == 0 then (0, 0)
    else
      var (total, correct) := StackCounts(needles, firsts, i - 1);
      var stack := needles[FrontKey(i - 1)];
      if |stack| > 1 then (total + 1, correct + if stack[0] < |firsts| && firsts[stack[0]] then 1 else 0)
      else (total, correct)
  }

  /** The total_stacks / correct_stacks loop. */
  method StackStats(needles: Stacks, firsts: seq<bool>) returns (totalStacks: nat, correctStacks: nat)
    requires forall j :: 0 <= j < |firsts| ==> FrontKey(j) in needles
    ensures (totalStacks, correctStacks) == StackCounts(needles, firsts, |firsts|)
    ensures correctStacks <= totalStacks <= |firsts|
  {
    totalStacks := 0;
    correctStacks := 0;
    for i := 0 to |firsts|
      invariant (totalStacks, correctStacks) == StackCounts(needles, firsts, i)
    {
      var stack := needles[FrontKey(i)];
      if |stack| > 1 {
        totalStacks := totalStacks + 1;
        if stack[0] < |firsts| && firsts[stack[0]] {
          correctStacks := correctStacks + 1;
        }
      }
    }
  }

  /** Every front needle the replay started with still has an entry afterwards. */
  lemma {:induction false} RunKeepsFrontKeys(n: nat, xs: seq<(string, string)>)
    requires Run(n, xs).Ok?
    ensures forall j :: 0 <= j < n ==> FrontKey(j) in Run(n, xs).value.needles
  {
    if xs == [] {
      InitialKeys(n);
    } else {
      RunKeepsFrontKeys(n, xs[..|xs| - 1]);
    }
  }

  lemma {:induction false} InitialKeys(n: nat)
    ensures forall j :: 0 <= j < n ==> FrontKey(j) in InitialNeedles(n)
  {
    if n > 0 {
      InitialKeys(n - 1);
      var m := InitialNeedles(n - 1);
      assert InitialNeedles(n) == m[FrontKey(n - 1) := [n - 1]];
      forall j | 0 <= j < n ensures FrontKey(j) in InitialNeedles(n) {
        if j < n - 1 {
          assert FrontKey(j) in m;
        }
      }
    }
  }

  // ---------------------------------------------------------- lower bound

  /** The distinct nonzero offsets. */
  function NonZero(offsets: seq<int>): set<int>
  {
    set i | 0 <= i < |offsets| && offsets[i] != 0 :: offsets[i]
  }

  /** computeLowerBound: one pass per distinct nonzero offset and one to reach the back bed, or none. */
  function LowerBound(offsets: seq<int>): nat
  {
    var o := NonZero(offsets);
    if |o| == 0 then 0 else |o| + 1
  }

  method ComputeLowerBound(offsets: seq<int>) returns (lb: nat)
    ensures lb == LowerBound(offsets)
  {
    var o: set<int> := {};
    for i := 0 to |offsets|
      invariant o == set j | 0 <= j < i && offsets[j] != 0 :: offsets[j]
    {
      if offsets[i] != 0 {
        o := o + {offsets[i]};
      }
    }
    lb := if |o| == 0 then 0 else |o| + 1;
  }

  /** The bound is zero exactly when no stitch moves. */
  lemma LowerBoundZero(offsets: seq<int>)
    ensures LowerBound(offsets) == 0 <==> AllZero(offsets)
  {
    if !AllZero(offsets) {
      var i :| 0 <= i < |offsets| && offsets[i] != 0;
      assert offsets[i] in NonZero(offsets);
    }
  }

  lemma {:induction false} FrontTaggedSize(vals: set<int>)
    ensures |set v | v in vals :: (F, v)| == |vals|
  {
    if vals != {} {
      assert exists v :: v in vals by {
        if forall v :: v !in vals {
          assert false;
        }
      }
      var v: int :| v in vals;
      var rest := vals - {v};
      FrontTaggedSize(rest);
      assert (set y | y in vals :: (F, y)) == (set y | y in rest :: (F, y)) + {(F, v)};
    } else {
      assert (set y | y in vals :: (F, y)) == {};
    }
  }

  /**
   * Whenever some stitch moves, the statistics bound is one more than the
   * exhaustive search's own estimate at its first state.
   */
  lemma LowerBoundMatchesSearch(offsets: seq<int>, firsts: seq<bool>)
    requires |firsts| == |offsets| && !AllZero(offsets)
    ensures LowerBound(offsets) == ExhaustiveSearch.LowerBound(firsts, true, ExhaustiveSearch.Start(offsets)) + 1
  {
    LowerBoundZero(offsets);
    var s := ExhaustiveSearch.Start(offsets);
    assert ExhaustiveSearch.Pending(s) == set x | x in NonZero(offsets) :: (F, x);
    FrontTaggedSize(NonZero(offsets));
  }

  // ---------------------------------------------------------- stitches

  /** A stitch of the statistics replay and the number of times it was transferred. */
  class Stitch {
    var xfers: nat
    const id: nat

    constructor (i: nat)
      ensures xfers == 0 && id == i
    {
      xfers := 0;
      id := i;
    }

    /** transfer: one more transfer. */
    method Transfer()
      modifies this
      ensures xfers == old(xfers) + 1
    {
      xfers := xfers + 1;
    }
  }
}
