/**
 * enumerate_laces: the generator of the small lace test corpus. It lists
 * every offset array over {-1, 0, 1} by reading the base-3 digits of an
 * index, keeps the arrays without cables, lists every flag array by
 * reading the bits of an index, and writes every pair of a kept offset
 * array and a flag array that `first_is_valid` accepts.
 *
 * `first_is_valid` as written scans the stitches left of stitch i only up
 * to i-2, so a stitch whose one stack partner is its left neighbour is
 * refused; `AsWrittenFirstIsValid` models that scan and `FirstIsValid`
 * the corrected one that the enumeration uses.
 */
module EnumerateLaces {
  import opened Knit
  import ExhaustiveSearch
  import LongerLaces

  /** The offsets the digits 0, 1, 2 stand for. */
  const BASE: seq<int> := [-1, 0, 1]

  /** The flags the bits 0, 1 stand for. */
  const BITS: seq<bool> := [false, true]

  function Pow(b: nat, k: nat): (r: nat)
    ensures b >= 1 ==> r >= 1
  {
    if k == 0 then 1 else b * Pow(b, k - 1)
  }

  // ---------------------------------------------------------------------
  // Digits of an index
  // ---------------------------------------------------------------------

  /** The n lowest base-b digits of i, least significant first. */
  function Digits(i: nat, b: nat, n: nat): (ds: seq<nat>)
    requires b >= 1
    ensures |ds| == n && forall k :: 0 <= k < n ==> ds[k] < b
  {
    if n == 0 then [] else [i % b] + Digits(i / b, b, n - 1)
  }

  /** The number whose base-b digits, least significant first, are ds. */
  function Value(ds: seq<nat>, b: nat): nat
  {
    if |ds| == 0 then 0 else ds[0] + b * Value(ds[1..], b)
  }

  /** Division by b undoes d + b * q for a digit d. */
  lemma DivModOf(v: nat, b: nat, q: nat, d: nat)
    requires b >= 1 && d < b && v == d + b * q
    ensures v / b == q && v % b == d
  {
    var q', d' := v / b, v % b;
    if q' < q {
      MulLe(b, q' + 1, q);
      assert false;
    }
    if q' > q {
      MulLe(b, q + 1, q');
      assert false;
    }
  }

  /** A number is its last digit plus b times its quotient. */
  lemma Recompose(i: nat, b: nat)
    requires b >= 1
    ensures i == i % b + b * (i / b)
  {
  }

  lemma MulLe(b: nat, x: nat, y: nat)
    requires x <= y
    ensures b * x <= b * y
  {
  }

  /** A number below b * p has a quotient below p. */
  lemma QuotientBelow(i: nat, b: nat, p: nat)
    requires b >= 1 && i < b * p
    ensures i / b < p
  {
    if i / b >= p {
      MulLe(b, p, i / b);
      assert false;
    }
  }

  /** d + b * r stays below b * p when the digit d is below b and r below p. */
  lemma ValueBelow(d: nat, b: nat, r: nat, p: nat)
    requires d < b && r < p
    ensures d + b * r < b * p
  {
    MulLe(b, r + 1, p);
  }

  lemma {:induction false} ValueOfDigits(i: nat, b: nat, n: nat)
    requires b >= 2 && i < Pow(b, n)
    ensures Value(Digits(i, b, n), b) == i
  {
    if n > 0 {
      QuotientBelow(i, b, Pow(b, n - 1));
      ValueOfDigits(i / b, b, n - 1);
      ValueStep(i, b, n);
    }
  }

  /** The digits of i are its last digit followed by the digits of its quotient. */
  lemma ValueStep(i: nat, b: nat, n: nat)
    requires b >= 2 && n > 0 && Value(Digits(i / b, b, n - 1), b) == i / b
    ensures Value(Digits(i, b, n), b) == i
  {
    var q, d := i / b, i % b;
    var rest := Digits(q, b, n - 1);
    Recompose(i, b);
    ValueCons(d, rest, b);
    assert Digits(i, b, n) == [d] + rest;
  }

  lemma ValueCons(d: nat, rest: seq<nat>, b: nat)
    ensures Value([d] + rest, b) == d + b * Value(rest, b)
  {
    assert ([d] + rest)[1..] == rest;
  }

  lemma {:induction false} DigitsOfValue(ds: seq<nat>, b: nat)
    requires b >= 2 && forall k :: 0 <= k < |ds| ==> ds[k] < b
    ensures Value(ds, b) < Pow(b, |ds|) && Digits(Value(ds, b), b, |ds|) == ds
  {
    if |ds| > 0 {
      var rest := ds[1..];
      DigitsOfValue(rest, b);
      var r := Value(rest, b);
      var v := Value(ds, b);
      assert v == ds[0] + b * r;
      DivModOf(v, b, r, ds[0]);
      ValueBelow(ds[0], b, r, Pow(b, |rest|));
      assert Digits(v, b, |ds|) == [ds[0]] + Digits(r, b, |rest|);
      assert ds == [ds[0]] + rest;
    }
  }

  // ---------------------------------------------------------------------
  // Decoding and listing
  // ---------------------------------------------------------------------

  /** The entries of tab the digits ds pick. */
  function Table<T>(ds: seq<nat>, tab: seq<T>): (t: seq<T>)
    requires forall k :: 0 <= k < |ds| ==> ds[k] < |tab|
    ensures |t| == |ds| && forall k :: 0 <= k < |ds| ==> t[k] == tab[ds[k]]
  {
    if |ds| == 0 then [] else [tab[ds[0]]] + Table(ds[1..], tab)
  }

  /** The array of n entries that index i stands for, digit k picking entry k. */
  function Decoded<T>(i: nat, n: nat, tab: seq<T>): (t: seq<T>)
    requires |tab| >= 1
    ensures |t| == n
  {
    Table(Digits(i, |tab|, n), tab)
  }

  /** The listing: the arrays of the indices 0 .. |tab|^n - 1 in order. */
  function AllOf<T>(n: nat, tab: seq<T>): (all: seq<seq<T>>)
    requires |tab| >= 1
    ensures |all| == Pow(|tab|, n)
  {
    seq(Pow(|tab|, n), i requires 0 <= i => Decoded(i, n, tab))
  }

  /** The digit loop: for k = 0 .. n-1 takes entry j % |tab| and divides j by |tab|. */
  method Decode<T>(i: nat, n: nat, tab: seq<T>) returns (temp: seq<T>)
    requires |tab| >= 1
    ensures temp == Decoded(i, n, tab)
  {
    var b := |tab|;
    var j: nat := i;
    temp := [];
    var k := 0;
    while k < n
      invariant 0 <= k <= n && temp + Decoded(j, n - k, tab) == Decoded(i, n, tab)
    {
      assert Digits(j, b, n - k)[1..] == Digits(j / b, b, n - k - 1);
      assert Decoded(j, n - k, tab) == [tab[j % b]] + Decoded(j / b, n - k - 1, tab);
      temp := temp + [tab[j % b]];
      j := j / b;
      k := k + 1;
    }
  }

  /** The listing loop over every index below |tab|^n. */
  method ListAll<T>(n: nat, tab: seq<T>) returns (all: seq<seq<T>>)
    requires |tab| >= 1
    ensures all == AllOf(n, tab)
  {
    all := [];
    var i := 0;
    while i < Pow(|tab|, n)
      invariant 0 <= i <= Pow(|tab|, n) && all == AllOf(n, tab)[..i]
    {
      var temp := Decode(i, n, tab);
      all := all + [temp];
      i := i + 1;
    }
  }

  ghost function IndexIn<T>(tab: seq<T>, x: T): (d: nat)
    requires x in tab
    ensures d < |tab| && tab[d] == x
  {
    if tab[0] == x then 0 else 1 + IndexIn(tab[1..], x)
  }

  /**
   * The listing holds every array of n entries of tab, and each of them
   * once (the entries of tab being distinct).
   */
  lemma AllOfEnumerated<T>(n: nat, tab: seq<T>)
    requires |tab| >= 2 && LongerLaces.Distinct(tab)
    ensures forall t :: t in AllOf(n, tab) <==> |t| == n && forall k :: 0 <= k < n ==> t[k] in tab
    ensures LongerLaces.Distinct(AllOf(n, tab))
  {
    var b := |tab|;
    var all := AllOf(n, tab);
    forall t | |t| == n && forall k :: 0 <= k < n ==> t[k] in tab
      ensures t in all
    {
      var ds := seq(n, k requires 0 <= k < n => IndexIn(tab, t[k]));
      DigitsOfValue(ds, b);
      var i := Value(ds, b);
      assert all[i] == Table(ds, tab) == t;
    }
    forall i, i' | 0 <= i < i' < |all|
      ensures all[i] != all[i']
    {
      var ds, ds' := Digits(i, b, n), Digits(i', b, n);
      if all[i] == all[i'] {
        assert ds == ds' by {
          forall k | 0 <= k < n
            ensures ds[k] == ds'[k]
          {
            assert tab[ds[k]] == all[i][k] == all[i'][k] == tab[ds'[k]];
          }
        }
        ValueOfDigits(i, b, n);
        ValueOfDigits(i', b, n);
        assert false;
      }
    }
  }

  // ---------------------------------------------------------------------
  // Cables
  // ---------------------------------------------------------------------

  /** The loop that fills `target` with i + offset[i]. */
  method ComputeTargets(offset: seq<int>) returns (target: seq<int>)
    ensures target == ExhaustiveSearch.Targets(offset)
  {
    target := offset;
    var i := 0;
    while i < |offset|
      invariant 0 <= i <= |offset| && |target| == |offset|
      invariant forall k :: 0 <= k < i ==> target[k] == k + offset[k]
      invariant forall k :: i <= k < |offset| ==> target[k] == offset[k]
    {
      target := target[i := i + offset[i]];
      i := i + 1;
    }
  }

  /** Every target at or left of every later one. */
  predicate Rising(ts: seq<int>)
  {
    forall i, j :: 0 <= i < j < |ts| ==> ts[i] <= ts[j]
  }

  /** Every target at or right of every later one. */
  predicate Falling(ts: seq<int>)
  {
    forall i, j :: 0 <= i < j < |ts| ==> ts[i] >= ts[j]
  }

  /** No two stitches of the array cross: the targets run monotonically one way or the other. */
  predicate Uncabled(offset: seq<int>)
  {
    Rising(ExhaustiveSearch.Targets(offset)) || Falling(ExhaustiveSearch.Targets(offset))
  }

  lemma {:induction false} NeighboursRising(ts: seq<int>)
    ensures ExhaustiveSearch.NonDecreasing(ts) <==> Rising(ts)
    ensures ExhaustiveSearch.NonIncreasing(ts) <==> Falling(ts)
  {
    if |ts| > 1 {
      var front := ts[..|ts| - 1];
      NeighboursRising(front);
      assert forall i :: 0 <= i < |front| ==> front[i] == ts[i];
      if ExhaustiveSearch.NonDecreasing(ts) {
        assert ExhaustiveSearch.NonDecreasing(front);
        forall i, j | 0 <= i < j < |ts|
          ensures ts[i] <= ts[j]
        {
          if j < |ts| - 1 {
            assert front[i] <= front[j];
          } else if i < j - 1 {
            assert front[i] <= front[j - 1];
          }
        }
      }
      if ExhaustiveSearch.NonIncreasing(ts) {
        assert ExhaustiveSearch.NonIncreasing(front);
        forall i, j | 0 <= i < j < |ts|
          ensures ts[i] >= ts[j]
        {
          if j < |ts| - 1 {
            assert front[i] >= front[j];
          } else if i < j - 1 {
            assert front[i] >= front[j - 1];
          }
        }
      }
    }
  }

  /**
   * `filter_out_cables`: computes the targets, then asks whether every
   * target is at or right of the one before it, or at or left of it.
   */
  method FilterOutCables(offset: seq<int>) returns (keep: bool)
    ensures keep <==> Uncabled(offset)
    ensures CableFree(offset) ==> keep
  {
    var target := ComputeTargets(offset);
    var monUp := ExhaustiveSearch.NonDecreasing(target);
    var monDn := ExhaustiveSearch.NonIncreasing(target);
    keep := monUp || monDn;
    NeighboursRising(target);
  }

  /** `offsets.filter(filter_out_cables)`: the uncabled arrays of xs, in order. */
  function Kept(xs: seq<seq<int>>): (r: seq<seq<int>>)
    ensures |r| <= |xs|
  {
    if |xs| == 0 then []
    else Kept(xs[..|xs| - 1]) + (if Uncabled(xs[|xs| - 1]) then [xs[|xs| - 1]] else [])
  }

  lemma KeptSnoc(xs: seq<seq<int>>, i: nat)
    requires i < |xs|
    ensures Kept(xs[..i + 1]) == Kept(xs[..i]) + (if Uncabled(xs[i]) then [xs[i]] else [])
  {
    assert xs[..i + 1][..i] == xs[..i];
  }

  lemma {:induction false} KeptMembers(xs: seq<seq<int>>)
    ensures forall x :: x in Kept(xs) <==> x in xs && Uncabled(x)
  {
    if |xs| > 0 {
      var front := xs[..|xs| - 1];
      KeptMembers(front);
      assert xs == front + [xs[|xs| - 1]];
    }
  }

  lemma {:induction false} KeptDistinct(xs: seq<seq<int>>)
    requires LongerLaces.Distinct(xs)
    ensures LongerLaces.Distinct(Kept(xs))
  {
    if |xs| > 0 {
      var front := xs[..|xs| - 1];
      var last := xs[|xs| - 1];
      assert LongerLaces.Distinct(front) by {
        forall i, j | 0 <= i < j < |front|
          ensures front[i] != front[j]
        {
          assert front[i] == xs[i] && front[j] == xs[j];
        }
      }
      KeptDistinct(front);
      KeptMembers(front);
      assert last !in front;
    }
  }

  /** The filter loop. */
  method FilterCables(offsets: seq<seq<int>>) returns (noCables: seq<seq<int>>)
    ensures noCables == Kept(offsets)
  {
    noCables := [];
    var i := 0;
    while i < |offsets|
      invariant 0 <= i <= |offsets| && noCables == Kept(offsets[..i])
    {
      var keep := FilterOutCables(offsets[i]);
      if keep {
        noCables := noCables + [offsets[i]];
      }
      KeptSnoc(offsets, i);
      i := i + 1;
    }
    assert offsets[..i] == offsets;
  }

  // ---------------------------------------------------------------------
  // Which stitches may be marked first
  // ---------------------------------------------------------------------

  /**
   * The intended rule: every marked stitch shares its target with another
   * stitch, and no two marked stitches share a target.
   */
  predicate FirstsValid(ts: seq<int>, first: seq<bool>)
  {
    |first| == |ts|
    && (forall i, j :: 0 <= i < |ts| && 0 <= j < |ts| && i != j && first[i] && first[j] ==> ts[i] != ts[j])
    && (forall i :: 0 <= i < |ts| && first[i] ==> exists j :: 0 <= j < |ts| && j != i && ts[j] == ts[i])
  }

  /** The check for stitch i looks at stitch j: left of `before`, or right of i. */
  predicate Scanned(ts: seq<int>, i: int, before: int, j: int)
  {
    0 <= j < |ts| && (j < before || i < j)
  }

  /** Stitch i clashes with no scanned marked stitch, and some scanned stitch shares its target. */
  ghost predicate StitchPasses(ts: seq<int>, first: seq<bool>, i: nat, before: int)
    requires |first| == |ts| && i < |ts|
  {
    (forall j :: Scanned(ts, i, before, j) ==> !(first[j] && ts[i] == ts[j]))
    && (exists j :: Scanned(ts, i, before, j) && ts[j] == ts[i])
  }

  /** Every marked stitch passes the check whose left scan stops `lag` stitches short of it. */
  ghost predicate PassesAll(ts: seq<int>, first: seq<bool>, lag: nat)
  {
    |first| == |ts| && forall i :: 0 <= i < |ts| && first[i] ==> StitchPasses(ts, first, i, i - lag)
  }

  /** The two scans of stitch i: stitches 0 .. before-1, then i+1 .. n-1, refusing on a clash. */
  method StitchCheck(ts: seq<int>, first: seq<bool>, i: nat, before: int) returns (ok: bool)
    requires |first| == |ts| && i < |ts| && before <= i
    ensures ok <==> StitchPasses(ts, first, i, before)
  {
    var stacked := false;
    var j := 0;
    while j < before
      invariant 0 <= j && (j <= before || j == 0)
      invariant forall k :: 0 <= k < j ==> !(first[k] && ts[i] == ts[k])
      invariant stacked <==> exists k :: 0 <= k < j && ts[k] == ts[i]
    {
      if first[j] && ts[i] == ts[j] {
        assert Scanned(ts, i, before, j);
        return false;
      }
      if ts[j] == ts[i] {
        stacked := true;
      }
      j := j + 1;
    }
    j := i + 1;
    while j < |ts|
      invariant i + 1 <= j <= |ts|
      invariant forall k :: Scanned(ts, i, before, k) && k < j ==> !(first[k] && ts[i] == ts[k])
      invariant stacked <==> exists k :: Scanned(ts, i, before, k) && k < j && ts[k] == ts[i]
    {
      if first[j] && ts[i] == ts[j] {
        assert Scanned(ts, i, before, j);
        return false;
      }
      if ts[j] == ts[i] {
        assert Scanned(ts, i, before, j);
        stacked := true;
      }
      j := j + 1;
    }
    return stacked;
  }

  /** The loop over the marked stitches, with the left scan `lag` stitches short. */
  method CheckAll(offset: seq<int>, first: seq<bool>, lag: nat) returns (ok: bool)
    requires |first| == |offset|
    ensures ok <==> PassesAll(ExhaustiveSearch.Targets(offset), first, lag)
  {
    var target := ComputeTargets(offset);
    var i := 0;
    while i < |offset|
      invariant 0 <= i <= |offset|
      invariant forall k :: 0 <= k < i && first[k] ==> StitchPasses(target, first, k, k - lag)
    {
      if first[i] {
        var good := StitchCheck(target, first, i, i - lag);
        if !good {
          return false;
        }
      }
      i := i + 1;
    }
    return true;
  }

  /** `first_is_valid` as written: the left scan stops before stitch i-1. */
  method AsWrittenFirstIsValid(offset: seq<int>, first: seq<bool>) returns (ok: bool)
    requires |first| == |offset|
    ensures ok <==> PassesAll(ExhaustiveSearch.Targets(offset), first, 1)
  {
    ok := CheckAll(offset, first, 1);
  }

  /** `first_is_valid` with the left scan reaching stitch i-1. */
  method FirstIsValid(offset: seq<int>, first: seq<bool>) returns (ok: bool)
    requires |first| == |offset|
    ensures ok <==> FirstsValid(ExhaustiveSearch.Targets(offset), first)
  {
    ok := CheckAll(offset, first, 0);
    CorrectedScanMeaning(ExhaustiveSearch.Targets(offset), first);
  }

  /** With no lag the scans look at every other stitch, which is the intended rule. */
  lemma CorrectedScanMeaning(ts: seq<int>, first: seq<bool>)
    ensures PassesAll(ts, first, 0) <==> FirstsValid(ts, first)
  {
    if PassesAll(ts, first, 0) {
      forall i, j | 0 <= i < |ts| && 0 <= j < |ts| && i != j && first[i] && first[j]
        ensures ts[i] != ts[j]
      {
        assert Scanned(ts, i, i, j);
      }
      forall i | 0 <= i < |ts| && first[i]
        ensures exists j :: 0 <= j < |ts| && j != i && ts[j] == ts[i]
      {
        var j :| Scanned(ts, i, i, j) && ts[j] == ts[i];
      }
    }
    if FirstsValid(ts, first) {
      forall i | 0 <= i < |ts| && first[i]
        ensures StitchPasses(ts, first, i, i)
      {
        var j :| 0 <= j < |ts| && j != i && ts[j] == ts[i];
        assert Scanned(ts, i, i, j);
      }
    }
  }

  /** As written the check accepts nothing the intended rule refuses. */
  lemma AsWrittenStricter(ts: seq<int>, first: seq<bool>)
    requires PassesAll(ts, first, 1)
    ensures FirstsValid(ts, first)
  {
    forall i, j | 0 <= i < |ts| && 0 <= j < |ts| && i != j && first[i] && first[j]
      ensures ts[i] != ts[j]
    {
      if i < j {
        assert Scanned(ts, i, i - 1, j);
      } else {
        assert Scanned(ts, j, j - 1, i);
      }
    }
    forall i | 0 <= i < |ts| && first[i]
      ensures exists j :: 0 <= j < |ts| && j != i && ts[j] == ts[i]
    {
      var j :| Scanned(ts, i, i - 1, j) && ts[j] == ts[i];
    }
  }

  /**
   * Two stitches stacked on needle 0, the second marked first: the intended
   * rule accepts it, the check as written refuses it because it never
   * looks at stitch 0 from stitch 1.
   */
  lemma AsWrittenRefusesLeftPartner()
    ensures ExhaustiveSearch.Targets([0, -1]) == [0, 0]
    ensures FirstsValid([0, 0], [false, true])
    ensures !PassesAll([0, 0], [false, true], 1)
  {
    var ts, first := [0, 0], [false, true];
    assert ts[0] == ts[1];
    assert forall j :: !Scanned(ts, 1, 0, j);
    assert !StitchPasses(ts, first, 1, 0);
    assert first[1] && 1 - 1 == 0;
  }

  // ---------------------------------------------------------------------
  // The pairs
  // ---------------------------------------------------------------------

  /** The flag arrays of fs that the check accepts for the offsets, in order. */
  function Accepted(offsets: seq<int>, fs: seq<seq<bool>>): (r: seq<seq<bool>>)
    ensures |r| <= |fs|
  {
    if |fs| == 0 then []
    else
      var last := fs[|fs| - 1];
      Accepted(offsets, fs[..|fs| - 1])
      + (if FirstsValid(ExhaustiveSearch.Targets(offsets), last) then [last] else [])
  }

  lemma AcceptedSnoc(offsets: seq<int>, fs: seq<seq<bool>>, f: nat)
    requires f < |fs|
    ensures Accepted(offsets, fs[..f + 1])
         == Accepted(offsets, fs[..f]) + (if FirstsValid(ExhaustiveSearch.Targets(offsets), fs[f]) then [fs[f]] else [])
  {
    assert fs[..f + 1][..f] == fs[..f];
  }

  lemma {:induction false} AcceptedMembers(offsets: seq<int>, fs: seq<seq<bool>>)
    ensures forall g :: g in Accepted(offsets, fs) <==> g in fs && FirstsValid(ExhaustiveSearch.Targets(offsets), g)
  {
    if |fs| > 0 {
      var front := fs[..|fs| - 1];
      AcceptedMembers(offsets, front);
      assert fs == front + [fs[|fs| - 1]];
    }
  }

  /** The records of the first o kept offset arrays, each with its accepted flag arrays numbered from 0. */
  function PairsUpTo(n: nat, pats: seq<seq<int>>, fs: seq<seq<bool>>, o: nat): seq<LongerLaces.Record>
    requires o <= |pats|
  {
    if o == 0 then []
    else PairsUpTo(n, pats, fs, o - 1) + LongerLaces.RecordsFrom(n, 8, pats[o - 1], o - 1, Accepted(pats[o - 1], fs), 0)
  }

  lemma PairsUpToSnoc(n: nat, pats: seq<seq<int>>, fs: seq<seq<bool>>, o: nat)
    requires o < |pats|
    ensures PairsUpTo(n, pats, fs, o + 1)
      == PairsUpTo(n, pats, fs, o) + LongerLaces.RecordsFrom(n, 8, pats[o], o, Accepted(pats[o], fs), 0)
  {
  }

  /** Everything the enumerator writes for n stitches. */
  function Corpus(n: nat): seq<LongerLaces.Record>
  {
    var pats := Kept(AllOf(n, BASE));
    PairsUpTo(n, pats, AllOf(n, BITS), |pats|)
  }

  /** The inner loop over the flag arrays of one kept offset array o, counting file_index. */
  method PairsFor(n: nat, ofs: seq<int>, o: nat, firsts: seq<seq<bool>>) returns (records: seq<LongerLaces.Record>)
    requires forall f :: f in firsts ==> |f| == |ofs|
    ensures records == LongerLaces.RecordsFrom(n, 8, ofs, o, Accepted(ofs, firsts), 0)
  {
    records := [];
    var fileIndex := 0;
    var f := 0;
    while f < |firsts|
      invariant 0 <= f <= |firsts| && fileIndex == |Accepted(ofs, firsts[..f])|
      invariant records == LongerLaces.RecordsFrom(n, 8, ofs, o, Accepted(ofs, firsts[..f]), 0)
    {
      var fir := firsts[f];
      var valid := FirstIsValid(ofs, fir);
      var records', fileIndex' := records, fileIndex;
      if valid {
        records' := records + [LongerLaces.Record(ofs, fir, LongerLaces.Zeros(n), 8, o, fileIndex)];
        fileIndex' := fileIndex + 1;
      }
      PairsStep(n, ofs, o, firsts, f, records, fileIndex, valid, records', fileIndex');
      records, fileIndex := records', fileIndex';
      f := f + 1;
    }
    assert firsts[..f] == firsts;
  }

  /** One flag array of the inner loop: an accepted one is written with the next file index. */
  lemma PairsStep(n: nat, ofs: seq<int>, o: nat, firsts: seq<seq<bool>>, f: nat,
                  records: seq<LongerLaces.Record>, fileIndex: nat, valid: bool,
                  records': seq<LongerLaces.Record>, fileIndex': nat)
    requires f < |firsts| && fileIndex == |Accepted(ofs, firsts[..f])|
    requires records == LongerLaces.RecordsFrom(n, 8, ofs, o, Accepted(ofs, firsts[..f]), 0)
    requires valid == FirstsValid(ExhaustiveSearch.Targets(ofs), firsts[f])
    requires records' == if valid then records + [LongerLaces.Record(ofs, firsts[f], LongerLaces.Zeros(n), 8, o, fileIndex)] else records
    requires fileIndex' == if valid then fileIndex + 1 else fileIndex
    ensures fileIndex' == |Accepted(ofs, firsts[..f + 1])|
    ensures records' == LongerLaces.RecordsFrom(n, 8, ofs, o, Accepted(ofs, firsts[..f + 1]), 0)
  {
    AcceptedSnoc(ofs, firsts, f);
    if valid {
      LongerLaces.RecordsFromAppend(n, 8, ofs, o, Accepted(ofs, firsts[..f]), [firsts[f]], 0);
    }
  }

  /** `enumerate_laces`: lists, filters, and writes every accepted pair. */
  method EnumerateLaces(n: nat) returns (records: seq<LongerLaces.Record>)
    ensures records == Corpus(n)
  {
    var offsets := ListAll(n, BASE);
    var noCables := FilterCables(offsets);
    var firsts := ListAll(n, BITS);
    assert forall f :: f in firsts ==> |f| == n;
    KeptMembers(offsets);
    records := [];
    var o := 0;
    while o < |noCables|
      invariant 0 <= o <= |noCables| && records == PairsUpTo(n, noCables, firsts, o)
    {
      assert noCables[o] in offsets;
      var more := PairsFor(n, noCables[o], o, firsts);
      PairsUpToSnoc(n, noCables, firsts, o);
      records := records + more;
      o := o + 1;
    }
  }

  /** A record of the corpus: a kept array over {-1, 0, 1}, an accepted flag array, zero orders and limit 8. */
  predicate Written(n: nat, r: LongerLaces.Record)
  {
    |r.offsets| == n && (forall k :: 0 <= k < n ==> r.offsets[k] in BASE) && Uncabled(r.offsets)
    && FirstsValid(ExhaustiveSearch.Targets(r.offsets), r.firsts)
    && r.orders == LongerLaces.Zeros(n) && r.transferMax == 8
  }

  lemma {:induction false} PairsSound(n: nat, pats: seq<seq<int>>, fs: seq<seq<bool>>, o: nat, k: nat)
    requires o <= |pats| && k < |PairsUpTo(n, pats, fs, o)|
    ensures PairsUpTo(n, pats, fs, o)[k].patternIndex < o
    ensures PairsUpTo(n, pats, fs, o)[k].offsets == pats[PairsUpTo(n, pats, fs, o)[k].patternIndex]
    ensures PairsUpTo(n, pats, fs, o)[k].firsts in Accepted(PairsUpTo(n, pats, fs, o)[k].offsets, fs)
    ensures PairsUpTo(n, pats, fs, o)[k].orders == LongerLaces.Zeros(n)
    ensures PairsUpTo(n, pats, fs, o)[k].transferMax == 8
  {
    if k < |PairsUpTo(n, pats, fs, o - 1)| {
      PairsSound(n, pats, fs, o - 1, k);
    }
  }

  lemma {:induction false} PairsComplete(n: nat, pats: seq<seq<int>>, fs: seq<seq<bool>>, o: nat, p: nat, g: seq<bool>)
    requires p < o <= |pats| && g in Accepted(pats[p], fs)
    ensures LongerLaces.Emitted(PairsUpTo(n, pats, fs, o), pats[p], g)
  {
    var front := PairsUpTo(n, pats, fs, o - 1);
    var block := LongerLaces.RecordsFrom(n, 8, pats[o - 1], o - 1, Accepted(pats[o - 1], fs), 0);
    if p < o - 1 {
      PairsComplete(n, pats, fs, o - 1, p, g);
      LongerLaces.EmittedPrefix(front, block, pats[p], g);
    } else {
      LongerLaces.EmittedBlock(front, n, 8, pats[p], p, Accepted(pats[p], fs), g);
    }
  }

  /** Records come in ascending (pattern index, file index) order. */
  predicate KeysAscend(rs: seq<LongerLaces.Record>)
  {
    forall x, y :: 0 <= x < y < |rs| ==>
      rs[x].patternIndex < rs[y].patternIndex
      || (rs[x].patternIndex == rs[y].patternIndex && rs[x].firstsIndex < rs[y].firstsIndex)
  }

  /** Appending the block of pattern o after records of earlier patterns keeps the order. */
  lemma KeysAscendAppend(front: seq<LongerLaces.Record>, n: nat, ofs: seq<int>, o: nat, acc: seq<seq<bool>>)
    requires KeysAscend(front) && forall x :: 0 <= x < |front| ==> front[x].patternIndex < o
    ensures KeysAscend(front + LongerLaces.RecordsFrom(n, 8, ofs, o, acc, 0))
  {
    var block := LongerLaces.RecordsFrom(n, 8, ofs, o, acc, 0);
    var all := front + block;
    forall x, y | 0 <= x < y < |all|
      ensures all[x].patternIndex < all[y].patternIndex
        || (all[x].patternIndex == all[y].patternIndex && all[x].firstsIndex < all[y].firstsIndex)
    {
      if y < |front| {
        assert all[x] == front[x] && all[y] == front[y];
      } else if x < |front| {
        assert all[x] == front[x] && all[y] == block[y - |front|];
      } else {
        assert all[x] == block[x - |front|] && all[y] == block[y - |front|];
      }
    }
  }

  lemma {:induction false} PairsKeysAscend(n: nat, pats: seq<seq<int>>, fs: seq<seq<bool>>, o: nat)
    requires o <= |pats|
    ensures KeysAscend(PairsUpTo(n, pats, fs, o))
  {
    if o > 0 {
      var front := PairsUpTo(n, pats, fs, o - 1);
      PairsKeysAscend(n, pats, fs, o - 1);
      forall x | 0 <= x < |front|
        ensures front[x].patternIndex < o - 1
      {
        PairsSound(n, pats, fs, o - 1, x);
      }
      KeysAscendAppend(front, n, pats[o - 1], o - 1, Accepted(pats[o - 1], fs));
    }
  }

  /** Every record of the corpus is a kept array over {-1, 0, 1} with a flag array the rule accepts. */
  lemma CorpusSound(n: nat, k: nat)
    requires k < |Corpus(n)|
    ensures Written(n, Corpus(n)[k])
  {
    var offsets, flags := AllOf(n, BASE), AllOf(n, BITS);
    var pats := Kept(offsets);
    PairsSound(n, pats, flags, |pats|, k);
    var r := Corpus(n)[k];
    assert r.offsets in pats;
    KeptMember(offsets, r.offsets);
    OffsetsMember(n, r.offsets);
    AcceptedMember(r.offsets, flags, r.firsts);
  }

  lemma KeptMember(xs: seq<seq<int>>, x: seq<int>)
    requires x in Kept(xs)
    ensures x in xs && Uncabled(x)
  {
    KeptMembers(xs);
  }

  lemma AcceptedMember(offsets: seq<int>, fs: seq<seq<bool>>, g: seq<bool>)
    requires g in Accepted(offsets, fs)
    ensures FirstsValid(ExhaustiveSearch.Targets(offsets), g)
  {
    AcceptedMembers(offsets, fs);
  }

  lemma TablesDistinct()
    ensures |BASE| == 3 && LongerLaces.Distinct(BASE)
    ensures |BITS| == 2 && LongerLaces.Distinct(BITS)
  {
  }

  lemma OffsetsMember(n: nat, t: seq<int>)
    requires t in AllOf(n, BASE)
    ensures |t| == n && forall k :: 0 <= k < n ==> t[k] in BASE
  {
    TablesDistinct();
    AllOfEnumerated(n, BASE);
  }

  lemma OffsetsListed(n: nat, t: seq<int>)
    requires |t| == n && forall k :: 0 <= k < n ==> t[k] in BASE
    ensures t in AllOf(n, BASE)
  {
    TablesDistinct();
    AllOfEnumerated(n, BASE);
  }

  lemma FlagsListed(n: nat, g: seq<bool>)
    requires |g| == n
    ensures g in AllOf(n, BITS)
  {
    TablesDistinct();
    AllOfEnumerated(n, BITS);
    forall k | 0 <= k < n
      ensures g[k] in BITS
    {
      if g[k] {
        assert g[k] == BITS[1];
      } else {
        assert g[k] == BITS[0];
      }
    }
  }

  /** Every kept array over {-1, 0, 1} is written with every flag array the rule accepts. */
  lemma CorpusComplete(n: nat, p: seq<int>, g: seq<bool>)
    requires |p| == n && (forall k :: 0 <= k < n ==> p[k] in BASE) && Uncabled(p)
    requires |g| == n && FirstsValid(ExhaustiveSearch.Targets(p), g)
    ensures LongerLaces.Emitted(Corpus(n), p, g)
  {
    var offsets, flags := AllOf(n, BASE), AllOf(n, BITS);
    var pats := Kept(offsets);
    OffsetsListed(n, p);
    KeptMembers(offsets);
    var i :| 0 <= i < |pats| && pats[i] == p;
    FlagsListed(n, g);
    AcceptedMembers(p, flags);
    PairsComplete(n, pats, flags, |pats|, i, g);
  }

  /** The file indices of the corpus ascend, by offset array and then by flag array, so no two records share a file. */
  lemma CorpusKeysAscend(n: nat)
    ensures forall x, y :: 0 <= x < y < |Corpus(n)| ==>
      Corpus(n)[x].patternIndex < Corpus(n)[y].patternIndex
      || (Corpus(n)[x].patternIndex == Corpus(n)[y].patternIndex && Corpus(n)[x].firstsIndex < Corpus(n)[y].firstsIndex)
  {
    var pats := Kept(AllOf(n, BASE));
    PairsKeysAscend(n, pats, AllOf(n, BITS), |pats|);
    assert KeysAscend(Corpus(n));
  }
}
