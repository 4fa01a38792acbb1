/**
 * longer_laces: the generator of the cable-free lace test corpus. A
 * depth-first search (`rec`) lists every offset array of n stitches whose
 * targets stay on needles 0 .. n-1, whose offsets stay within the transfer
 * limit, and in which no stitch crosses its left neighbour; a second
 * search (`fill`) then lists, for each such array, every way to mark one
 * stitch of each stack as the one that goes to the bottom ("firsts"); every
 * pair becomes one test record.
 *
 * The searches share one growing prefix each and push and pop on it, so
 * they are methods of `LaceEnumerator`, proved against the functions
 * `Patterns` and `Fills`; the lemmas characterise those functions.
 */
module LongerLaces {
  import opened Knit

  // ---------------------------------------------------------------------
  // The offsets search
  // ---------------------------------------------------------------------

  /** The least offset the range allows stitch k: its target stays at needle 0 or right of it, and within the limit. */
  function Low(k: nat, limit: int): int
  {
    Max(0 - k, -limit)
  }

  /** The greatest offset the range allows stitch k of n: its target stays at needle n-1 or left of it, and within the limit. */
  function High(n: nat, k: nat, limit: int): int
  {
    Min(n - 1 - k, limit)
  }

  /**
   * The count of stitches "stacked already": it starts at 1 and grows for
   * as long as the next stitch to the left ends on the same needle as the
   * one after it, but it never looks at stitch 0.
   */
  function StackedFrom(t: seq<int>, s: nat): nat
    requires 1 <= s
    decreases |t| - s
  {
    if s + 1 < |t| && t[|t| - (s + 1)] - 1 == t[|t| - s] then StackedFrom(t, s + 1) else s
  }

  function Stacked(t: seq<int>): nat
  {
    StackedFrom(t, 1)
  }

  /**
   * r is the length of the run of equal targets that ends at the last
   * stitch of t, where the run may not reach back to stitch 0 (the run has
   * length 1 when t has a single stitch).
   */
  predicate TrailingRun(t: seq<int>, r: nat)
    requires |t| >= 1
  {
    1 <= r <= |t| && (|t| >= 2 ==> r < |t|)
    && (forall k :: |t| - r <= k < |t| - 1 ==> Target(t, k) == Target(t, k + 1))
    && (r + 1 < |t| ==> Target(t, |t| - r - 1) != Target(t, |t| - r))
  }

  lemma {:induction false} StackedFromRun(t: seq<int>, s: nat)
    requires |t| >= 1 && 1 <= s <= |t| && (|t| >= 2 ==> s < |t|)
    requires forall k :: |t| - s <= k < |t| - 1 ==> Target(t, k) == Target(t, k + 1)
    ensures TrailingRun(t, StackedFrom(t, s))
    decreases |t| - s
  {
    if s + 1 < |t| && t[|t| - (s + 1)] - 1 == t[|t| - s] {
      assert Target(t, |t| - s - 1) == Target(t, |t| - s);
      StackedFromRun(t, s + 1);
    }
  }

  /** What the stack count means: the trailing run of equal targets, never counting stitch 0. */
  lemma StackedMeaning(t: seq<int>)
    requires |t| >= 1
    ensures TrailingRun(t, Stacked(t))
  {
    StackedFromRun(t, 1);
  }

  /** The counting loop of the search. */
  method StackCount(t: seq<int>) returns (s: nat)
    requires |t| >= 1
    ensures s == Stacked(t)
  {
    s := 1;
    while s + 1 < |t| && t[|t| - (s + 1)] - 1 == t[|t| - s]
      invariant 1 <= s && StackedFrom(t, s) == Stacked(t)
      decreases |t| - s
    {
      s := s + 1;
    }
  }

  /**
   * The least offset the search tries after the prefix t: the range bound,
   * and, after the first stitch, at most one less than the previous offset
   * (no smaller once three stitches are counted as stacked).
   */
  function Lower(limit: int, t: seq<int>): int
  {
    if |t| == 0 then Low(0, limit)
    else Max(t[|t| - 1] - (if Stacked(t) < 3 then 1 else 0), Low(|t|, limit))
  }

  /** Offset o may follow the prefix t. */
  predicate Allowed(n: nat, limit: int, t: seq<int>, o: int)
  {
    Lower(limit, t) <= o <= High(n, |t|, limit)
  }

  /** The rule in plain terms: the target is on the bed, the offset within the limit, no crossing, and no further stacking after three. */
  lemma AllowedMeaning(n: nat, limit: int, t: seq<int>, o: int)
    ensures Allowed(n, limit, t, o) <==>
      (0 <= |t| + o <= n - 1 && -limit <= o <= limit
       && (|t| > 0 ==> o >= t[|t| - 1] - 1)
       && (|t| > 0 && Stacked(t) >= 3 ==> o >= t[|t| - 1]))
  {
  }

  /** Every stitch of p from index `from` on takes an offset the search allows after the stitches before it. */
  predicate AllowedFrom(n: nat, limit: int, p: seq<int>, from: nat)
  {
    forall k :: from <= k < |p| ==> Allowed(n, limit, p[..k], p[k])
  }

  /** A pattern of the corpus: n > 0 stitches, each allowed after the ones before it. */
  predicate IsPattern(n: nat, limit: int, p: seq<int>)
  {
    n > 0 && |p| == n && AllowedFrom(n, limit, p, 0)
  }

  /** What `rec` records from the prefix t onwards, in the order it records it. */
  function Patterns(n: nat, limit: int, t: seq<int>): seq<seq<int>>
    requires |t| <= n
    decreases n - |t|, 1, 0
  {
    if |t| == 0 || |t| < n then PatternsUpTo(n, limit, t, High(n, |t|, limit) + 1)
    else [t]
  }

  /** What the loop of `rec` over the prefix t records for the offsets below o. */
  function PatternsUpTo(n: nat, limit: int, t: seq<int>, o: int): seq<seq<int>>
    requires |t| <= n
    decreases n - |t|, 0, o - Lower(limit, t)
  {
    if o <= Lower(limit, t) || |t| >= n then []
    else PatternsUpTo(n, limit, t, o - 1) + Patterns(n, limit, t + [o - 1])
  }

  /** One more round of the loop of `rec` records the patterns that continue with offset o. */
  lemma UpToNext(n: nat, limit: int, t: seq<int>, o: int)
    requires |t| < n && Lower(limit, t) <= o
    ensures PatternsUpTo(n, limit, t, o + 1) == PatternsUpTo(n, limit, t, o) + Patterns(n, limit, t + [o])
  {
  }

  lemma RecordedNext<T>(before: seq<T>, mid: seq<T>, after: seq<T>, done: seq<T>, more: seq<T>)
    requires mid == before + done && after == mid + more
    ensures after == before + (done + more)
  {
  }

  lemma {:induction false} PatternsSound(n: nat, limit: int, t: seq<int>, p: seq<int>)
    requires |t| <= n && p in Patterns(n, limit, t)
    ensures n > 0 && |p| == n && p[..|t|] == t && AllowedFrom(n, limit, p, |t|)
    decreases n - |t|, 1, 0
  {
    if |t| == 0 || |t| < n {
      UpToSound(n, limit, t, High(n, |t|, limit) + 1, p);
    }
  }

  lemma {:induction false} UpToSound(n: nat, limit: int, t: seq<int>, o: int, p: seq<int>)
    requires |t| <= n && o <= High(n, |t|, limit) + 1 && p in PatternsUpTo(n, limit, t, o)
    ensures n > 0 && |p| == n && |t| < n && p[..|t|] == t
    ensures Lower(limit, t) <= p[|t|] < o && AllowedFrom(n, limit, p, |t|)
    decreases n - |t|, 0, o - Lower(limit, t)
  {
    if o <= Lower(limit, t) || |t| >= n {
      assert false;
    } else if p in PatternsUpTo(n, limit, t, o - 1) {
      UpToSound(n, limit, t, o - 1, p);
    } else {
      var t' := t + [o - 1];
      PatternsSound(n, limit, t', p);
      assert p[..|t|] == p[..|t'|][..|t|];
      assert p[..|t|] == t;
    }
  }

  lemma {:induction false} PatternsComplete(n: nat, limit: int, t: seq<int>, p: seq<int>)
    requires |t| <= n && n > 0 && |p| == n && p[..|t|] == t && AllowedFrom(n, limit, p, |t|)
    ensures p in Patterns(n, limit, t)
    decreases n - |t|, 1, 0
  {
    if |t| < n {
      assert Allowed(n, limit, p[..|t|], p[|t|]);
      UpToComplete(n, limit, t, High(n, |t|, limit) + 1, p);
    } else {
      assert p == p[..|t|];
    }
  }

  lemma {:induction false} UpToComplete(n: nat, limit: int, t: seq<int>, o: int, p: seq<int>)
    requires |t| < n && |p| == n && p[..|t|] == t && AllowedFrom(n, limit, p, |t|)
    requires Lower(limit, t) <= p[|t|] < o
    ensures p in PatternsUpTo(n, limit, t, o)
    decreases n - |t|, 0, o - Lower(limit, t)
  {
    if p[|t|] == o - 1 {
      assert p[..|t| + 1] == t + [o - 1];
      PatternsComplete(n, limit, t + [o - 1], p);
    } else {
      UpToComplete(n, limit, t, o - 1, p);
    }
  }

  /** a comes before b in lexicographic order. */
  predicate LexLess(a: seq<int>, b: seq<int>)
  {
    exists k :: 0 <= k < |a| && k < |b| && a[..k] == b[..k] && a[k] < b[k]
  }

  predicate Ascending(ps: seq<seq<int>>)
  {
    forall i, j :: 0 <= i < j < |ps| ==> LexLess(ps[i], ps[j])
  }

  lemma {:induction false} PatternsAscending(n: nat, limit: int, t: seq<int>)
    requires |t| <= n
    ensures Ascending(Patterns(n, limit, t))
    decreases n - |t|, 1, 0
  {
    if |t| == 0 || |t| < n {
      UpToAscending(n, limit, t, High(n, |t|, limit) + 1);
    }
  }

  lemma {:induction false} UpToAscending(n: nat, limit: int, t: seq<int>, o: int)
    requires |t| <= n && o <= High(n, |t|, limit) + 1
    ensures Ascending(PatternsUpTo(n, limit, t, o))
    decreases n - |t|, 0, o - Lower(limit, t)
  {
    if !(o <= Lower(limit, t) || |t| >= n) {
      var lower := PatternsUpTo(n, limit, t, o - 1);
      var block := Patterns(n, limit, t + [o - 1]);
      UpToAscending(n, limit, t, o - 1);
      PatternsAscending(n, limit, t + [o - 1]);
      var all := lower + block;
      forall i, j | 0 <= i < j < |all|
        ensures LexLess(all[i], all[j])
      {
        if j < |lower| {
          assert all[i] == lower[i] && all[j] == lower[j];
        } else if i >= |lower| {
          assert all[i] == block[i - |lower|] && all[j] == block[j - |lower|];
        } else {
          var a, b := lower[i], block[j - |lower|];
          assert all[i] == a && all[j] == b;
          UpToSound(n, limit, t, o - 1, a);
          PatternsSound(n, limit, t + [o - 1], b);
          assert b[..|t|] == b[..|t| + 1][..|t|];
          assert a[..|t|] == b[..|t|] && a[|t|] < b[|t|];
        }
      }
    }
  }

  /**
   * The offsets search lists exactly the patterns, in strictly ascending
   * lexicographic order, so each of them once.
   */
  lemma PatternsEnumerated(n: nat, limit: int)
    ensures forall p :: p in Patterns(n, limit, []) <==> IsPattern(n, limit, p)
    ensures Ascending(Patterns(n, limit, []))
  {
    forall p
      ensures p in Patterns(n, limit, []) <==> IsPattern(n, limit, p)
    {
      if p in Patterns(n, limit, []) {
        PatternsSound(n, limit, [], p);
      }
      if IsPattern(n, limit, p) {
        PatternsComplete(n, limit, [], p);
      }
    }
    PatternsAscending(n, limit, []);
  }

  /** Every pattern keeps its targets on needles 0 .. n-1 and its offsets within the limit, and has no cable. */
  lemma PatternShape(n: nat, limit: int, p: seq<int>)
    requires IsPattern(n, limit, p)
    ensures forall k :: 0 <= k < n ==> 0 <= Target(p, k) < n && -limit <= p[k] <= limit
    ensures CableFree(p)
  {
    forall k | 0 <= k < n
      ensures 0 <= Target(p, k) < n && -limit <= p[k] <= limit
      ensures k >= 1 ==> p[k - 1] <= 1 + p[k]
    {
      assert Allowed(n, limit, p[..k], p[k]);
      AllowedMeaning(n, limit, p[..k], p[k]);
    }
  }

  /**
   * Away from the left edge no four neighbouring stitches share a target:
   * once the count reaches three the next offset may not drop.
   */
  lemma StacksAtMostThree(n: nat, limit: int, p: seq<int>, i: nat)
    requires IsPattern(n, limit, p) && 1 <= i && i + 3 < n
    requires Target(p, i) == Target(p, i + 1) == Target(p, i + 2)
    ensures Target(p, i + 2) < Target(p, i + 3)
  {
    AllowedAt(n, limit, p, i + 3);
    NoDropAfterThree(n, limit, p, i);
  }

  lemma AllowedAt(n: nat, limit: int, p: seq<int>, k: nat)
    requires IsPattern(n, limit, p) && k < n
    ensures Allowed(n, limit, p[..k], p[k])
  {
  }

  /** After three equal targets that do not reach back to stitch 0, an allowed offset does not drop. */
  lemma NoDropAfterThree(n: nat, limit: int, p: seq<int>, i: nat)
    requires 1 <= i && i + 3 < |p| && Allowed(n, limit, p[..i + 3], p[i + 3])
    requires Target(p, i) == Target(p, i + 1) == Target(p, i + 2)
    ensures p[i + 3] >= p[i + 2]
  {
    var t := p[..i + 3];
    assert t[i] == p[i] && t[i + 1] == p[i + 1] && t[i + 2] == p[i + 2];
    StackedMeaning(t);
    assert Stacked(t) >= 3;
  }

  /** At the left edge the count misses stitch 0, so four stitches may stack there. */
  lemma EdgeStackOfFour(limit: int)
    requires limit >= 3
    ensures IsPattern(4, limit, [3, 2, 1, 0])
    ensures forall k :: 0 <= k < 4 ==> Target([3, 2, 1, 0], k) == 3
  {
    var p := [3, 2, 1, 0];
    forall k | 0 <= k < 4
      ensures Allowed(4, limit, p[..k], p[k])
    {
      if k == 0 {
        assert p[..0] == [];
      } else if k == 1 {
        assert p[..1] == [3];
        assert Stacked([3]) == 1;
        assert Lower(limit, [3]) == 2;
      } else if k == 2 {
        assert p[..2] == [3, 2];
        assert Stacked([3, 2]) == 1;
        assert Lower(limit, [3, 2]) == 1;
      } else {
        assert p[..3] == [3, 2, 1];
        assert StackedFrom([3, 2, 1], 2) == 2;
        assert Stacked([3, 2, 1]) == 2;
        assert Lower(limit, [3, 2, 1]) == 0;
      }
    }
  }

  // ---------------------------------------------------------------------
  // The firsts search
  // ---------------------------------------------------------------------

  /** The last stitch of the run of equal targets that continues from stitch b. */
  function RunEndFrom(offsets: seq<int>, b: nat): (e: nat)
    requires b < |offsets|
    ensures b <= e < |offsets|
    decreases |offsets| - b
  {
    if b + 1 < |offsets| && b + offsets[b] == b + 1 + offsets[b + 1] then RunEndFrom(offsets, b + 1) else b
  }

  /** Stitches a .. e share one target and stitch e+1, if any, has another. */
  predicate MaximalRun(offsets: seq<int>, a: nat, e: nat)
  {
    a <= e < |offsets|
    && (forall k :: a <= k < e ==> Target(offsets, k) == Target(offsets, k + 1))
    && (e + 1 < |offsets| ==> Target(offsets, e) != Target(offsets, e + 1))
  }

  lemma {:induction false} RunEndMaximal(offsets: seq<int>, a: nat, b: nat)
    requires a <= b < |offsets|
    requires forall k :: a <= k < b ==> Target(offsets, k) == Target(offsets, k + 1)
    ensures MaximalRun(offsets, a, RunEndFrom(offsets, b))
    decreases |offsets| - b
  {
    if b + 1 < |offsets| && b + offsets[b] == b + 1 + offsets[b + 1] {
      RunEndMaximal(offsets, a, b + 1);
    }
  }

  /** The run scan: the run that starts at stitch a ends where the targets first differ. */
  method FindRunEnd(offsets: seq<int>, a: nat) returns (b: nat)
    requires a < |offsets|
    ensures b == RunEndFrom(offsets, a)
    ensures MaximalRun(offsets, a, b)
  {
    b := a;
    while b + 1 < |offsets| && b + offsets[b] == b + 1 + offsets[b + 1]
      invariant a <= b < |offsets| && RunEndFrom(offsets, b) == RunEndFrom(offsets, a)
      decreases |offsets| - b
    {
      b := b + 1;
    }
    RunEndMaximal(offsets, a, a);
  }

  /** len flags, only the one at index `at` set (none when `at` is out of range). */
  function Marks(len: nat, at: int): (m: seq<bool>)
    ensures |m| == len && forall k :: 0 <= k < len ==> m[k] == (k == at)
  {
    seq(len, k => k == at)
  }

  /** What `fill` writes from the flags f onwards, in the order it writes them. */
  function Fills(offsets: seq<int>, f: seq<bool>): seq<seq<bool>>
    requires |f| <= |offsets|
    decreases |offsets| - |f|, 1, 0
  {
    if |f| == |offsets| then [f]
    else
      var b := RunEndFrom(offsets, |f|);
      if |f| < b then MarkedUpTo(offsets, f, b + 1, b + 1) else Fills(offsets, f + [false])
  }

  /** What the marking loop of `fill` writes for the stitches |f| .. i-1 of the run that ends before `end`. */
  function MarkedUpTo(offsets: seq<int>, f: seq<bool>, end: nat, i: nat): seq<seq<bool>>
    requires |f| <= i <= end <= |offsets|
    decreases |offsets| - |f|, 0, i - |f|
  {
    if i == |f| then []
    else MarkedUpTo(offsets, f, end, i - 1) + Fills(offsets, f + Marks(end - |f|, i - 1 - |f|))
  }

  /** The number of set flags among g[lo .. hi-1]. */
  function Count(g: seq<bool>, lo: nat, hi: nat): nat
    requires lo <= hi <= |g|
    decreases hi - lo
  {
    if lo == hi then 0 else Count(g, lo, hi - 1) + (if g[hi - 1] then 1 else 0)
  }

  /** Among g[lo .. hi-1] exactly the flag at m is set. */
  predicate MarkedAt(g: seq<bool>, lo: nat, hi: nat, m: nat)
    requires lo <= hi <= |g|
  {
    forall k :: lo <= k < hi ==> g[k] == (k == m)
  }

  lemma {:induction false} CountMarked(g: seq<bool>, lo: nat, hi: nat, m: nat)
    requires lo <= hi <= |g| && MarkedAt(g, lo, hi, m)
    ensures Count(g, lo, hi) == if lo <= m < hi then 1 else 0
    decreases hi - lo
  {
    if lo < hi {
      CountMarked(g, lo, hi - 1, m);
    }
  }

  lemma {:induction false} CountOne(g: seq<bool>, lo: nat, hi: nat)
    requires lo <= hi <= |g| && Count(g, lo, hi) == 1
    ensures exists m :: lo <= m < hi && MarkedAt(g, lo, hi, m)
    decreases hi - lo
  {
    if g[hi - 1] {
      CountNone(g, lo, hi - 1);
      assert MarkedAt(g, lo, hi, hi - 1);
    } else {
      CountOne(g, lo, hi - 1);
      var m :| lo <= m < hi - 1 && MarkedAt(g, lo, hi - 1, m);
      assert MarkedAt(g, lo, hi, m);
    }
  }

  lemma {:induction false} CountNone(g: seq<bool>, lo: nat, hi: nat)
    requires lo <= hi <= |g| && Count(g, lo, hi) == 0
    ensures forall k :: lo <= k < hi ==> !g[k]
    decreases hi - lo
  {
    if lo < hi {
      CountNone(g, lo, hi - 1);
    }
  }

  /**
   * The flags g, from stitch a on, mark exactly one stitch of every run of
   * two or more stitches sharing a target, and no stitch of a run of one.
   */
  predicate MarksFit(offsets: seq<int>, g: seq<bool>, a: nat)
    requires |g| == |offsets| && a <= |offsets|
    decreases |offsets| - a
  {
    a == |offsets|
    || (var e := RunEndFrom(offsets, a);
        Count(g, a, e + 1) == (if a < e then 1 else 0) && MarksFit(offsets, g, e + 1))
  }

  lemma {:induction false} FillsSound(offsets: seq<int>, f: seq<bool>, g: seq<bool>)
    requires |f| <= |offsets| && g in Fills(offsets, f)
    ensures |g| == |offsets| && g[..|f|] == f && MarksFit(offsets, g, |f|)
    decreases |offsets| - |f|, 1, 0
  {
    if |f| < |offsets| {
      var a, b := |f|, RunEndFrom(offsets, |f|);
      if a < b {
        MarkedUpToSound(offsets, f, b + 1, b + 1, g);
        var m :| a <= m < b + 1 && MarkedAt(g, a, b + 1, m);
        CountMarked(g, a, b + 1, m);
      } else {
        FillsSound(offsets, f + [false], g);
        assert g[..a] == g[..a + 1][..a];
        CountMarked(g, a, a + 1, a + 1);
      }
    }
  }

  lemma {:induction false} MarkedUpToSound(offsets: seq<int>, f: seq<bool>, end: nat, i: nat, g: seq<bool>)
    requires |f| <= i <= end <= |offsets| && g in MarkedUpTo(offsets, f, end, i)
    ensures |g| == |offsets| && g[..|f|] == f && MarksFit(offsets, g, end)
    ensures exists m :: |f| <= m < i && MarkedAt(g, |f|, end, m)
    decreases |offsets| - |f|, 0, i - |f|
  {
    if i == |f| {
      assert false;
    } else if g in MarkedUpTo(offsets, f, end, i - 1) {
      MarkedUpToSound(offsets, f, end, i - 1, g);
    } else {
      var f' := f + Marks(end - |f|, i - 1 - |f|);
      FillsSound(offsets, f', g);
      assert g[..|f|] == g[..|f'|][..|f|];
      assert MarkedAt(g, |f|, end, i - 1) by {
        forall k | |f| <= k < end
          ensures g[k] == (k == i - 1)
        {
          assert g[k] == g[..|f'|][k] == f'[k];
        }
      }
    }
  }

  lemma {:induction false} FillsComplete(offsets: seq<int>, f: seq<bool>, g: seq<bool>)
    requires |f| <= |offsets| && |g| == |offsets| && g[..|f|] == f && MarksFit(offsets, g, |f|)
    ensures g in Fills(offsets, f)
    decreases |offsets| - |f|, 1, 0
  {
    if |f| == |offsets| {
      assert g == g[..|f|];
    } else {
      var a, b := |f|, RunEndFrom(offsets, |f|);
      if a < b {
        CountOne(g, a, b + 1);
        var m :| a <= m < b + 1 && MarkedAt(g, a, b + 1, m);
        MarkedUpToComplete(offsets, f, b + 1, b + 1, g, m);
      } else {
        CountNone(g, a, a + 1);
        assert g[..a + 1] == f + [false];
        FillsComplete(offsets, f + [false], g);
      }
    }
  }

  lemma {:induction false} MarkedUpToComplete(offsets: seq<int>, f: seq<bool>, end: nat, i: nat, g: seq<bool>, m: nat)
    requires |f| <= m < i <= end <= |offsets| && |g| == |offsets| && g[..|f|] == f
    requires MarkedAt(g, |f|, end, m) && MarksFit(offsets, g, end)
    ensures g in MarkedUpTo(offsets, f, end, i)
    decreases |offsets| - |f|, 0, i - |f|
  {
    if m == i - 1 {
      var f' := f + Marks(end - |f|, i - 1 - |f|);
      assert g[..end] == f' by {
        forall k | 0 <= k < end
          ensures g[k] == f'[k]
        {
          if k < |f| {
            assert g[k] == g[..|f|][k];
          }
        }
      }
      FillsComplete(offsets, f', g);
    } else {
      MarkedUpToComplete(offsets, f, end, i - 1, g, m);
    }
  }

  predicate Distinct<T(==)>(xs: seq<T>)
  {
    forall i, j :: 0 <= i < j < |xs| ==> xs[i] != xs[j]
  }

  lemma {:induction false} FillsDistinct(offsets: seq<int>, f: seq<bool>)
    requires |f| <= |offsets|
    ensures Distinct(Fills(offsets, f))
    decreases |offsets| - |f|, 1, 0
  {
    if |f| < |offsets| {
      var b := RunEndFrom(offsets, |f|);
      if |f| < b {
        MarkedUpToDistinct(offsets, f, b + 1, b + 1);
      } else {
        FillsDistinct(offsets, f + [false]);
      }
    }
  }

  lemma {:induction false} MarkedUpToDistinct(offsets: seq<int>, f: seq<bool>, end: nat, i: nat)
    requires |f| <= i <= end <= |offsets|
    ensures Distinct(MarkedUpTo(offsets, f, end, i))
    decreases |offsets| - |f|, 0, i - |f|
  {
    if i > |f| {
      var f' := f + Marks(end - |f|, i - 1 - |f|);
      var lower := MarkedUpTo(offsets, f, end, i - 1);
      var block := Fills(offsets, f');
      MarkedUpToDistinct(offsets, f, end, i - 1);
      FillsDistinct(offsets, f');
      var all := lower + block;
      forall x, y | 0 <= x < y < |all|
        ensures all[x] != all[y]
      {
        if y < |lower| {
          assert all[x] == lower[x] && all[y] == lower[y];
        } else if x >= |lower| {
          assert all[x] == block[x - |lower|] && all[y] == block[y - |lower|];
        } else {
          var g, h := lower[x], block[y - |lower|];
          assert all[x] == g && all[y] == h;
          MarkedUpToSound(offsets, f, end, i - 1, g);
          var m :| |f| <= m < i - 1 && MarkedAt(g, |f|, end, m);
          FillsSound(offsets, f', h);
          assert h[i - 1] == h[..|f'|][i - 1];
          assert !g[i - 1] && h[i - 1];
        }
      }
    }
  }

  /**
   * The firsts search lists exactly the flag arrays that mark one stitch of
   * every stack and nothing else, each one once.
   */
  lemma FillsEnumerated(offsets: seq<int>)
    ensures forall g :: g in Fills(offsets, []) <==> |g| == |offsets| && MarksFit(offsets, g, 0)
    ensures Distinct(Fills(offsets, []))
  {
    forall g
      ensures g in Fills(offsets, []) <==> |g| == |offsets| && MarksFit(offsets, g, 0)
    {
      if g in Fills(offsets, []) {
        FillsSound(offsets, [], g);
      }
      if |g| == |offsets| && MarksFit(offsets, g, 0) {
        FillsComplete(offsets, [], g);
      }
    }
    FillsDistinct(offsets, []);
  }

  // ---------------------------------------------------------------------
  // The records and the enumerator
  // ---------------------------------------------------------------------

  /**
   * One written test: the offsets, the flags, an all-zero order (orders do
   * not matter without cables), the transfer limit, and the two indices
   * that name its file ('all<n>-max<limit>_<patternIndex>_<firstsIndex>.xfers').
   */
  datatype Record = Record(offsets: seq<int>, firsts: seq<bool>, orders: seq<int>, transferMax: int,
                           patternIndex: nat, firstsIndex: nat)

  function Zeros(n: nat): (z: seq<int>)
    ensures |z| == n && AllZero(z)
  {
    seq(n, _ => 0)
  }

  /** The records for the flag arrays fs of one pattern, numbered from fi on. */
  function RecordsFrom(n: nat, limit: int, offsets: seq<int>, oi: nat, fs: seq<seq<bool>>, fi: nat): seq<Record>
  {
    seq(|fs|, j requires 0 <= j < |fs| => Record(offsets, fs[j], Zeros(n), limit, oi, fi + j))
  }

  lemma RecordsFromAppend(n: nat, limit: int, offsets: seq<int>, oi: nat, fs: seq<seq<bool>>, gs: seq<seq<bool>>, fi: nat)
    ensures RecordsFrom(n, limit, offsets, oi, fs + gs, fi)
         == RecordsFrom(n, limit, offsets, oi, fs, fi) + RecordsFrom(n, limit, offsets, oi, gs, fi + |fs|)
  {
    var l := RecordsFrom(n, limit, offsets, oi, fs + gs, fi);
    var r := RecordsFrom(n, limit, offsets, oi, fs, fi) + RecordsFrom(n, limit, offsets, oi, gs, fi + |fs|);
    assert |l| == |r|;
    forall j | 0 <= j < |l|
      ensures l[j] == r[j]
    {
      if j < |fs| {
        assert (fs + gs)[j] == fs[j];
      } else {
        assert (fs + gs)[j] == gs[j - |fs|];
      }
    }
  }

  /** Everything written for the patterns pats, pattern by pattern. */
  function AllRecords(n: nat, limit: int, pats: seq<seq<int>>): seq<Record>
  {
    if |pats| == 0 then []
    else
      var last := pats[|pats| - 1];
      AllRecords(n, limit, pats[..|pats| - 1]) + RecordsFrom(n, limit, last, |pats| - 1, Fills(last, []), 0)
  }

  /** The records of pats are the pairs of a pattern and one of its flag arrays, with the fixed order and limit. */
  lemma {:induction false} AllRecordsSound(n: nat, limit: int, pats: seq<seq<int>>, k: nat)
    requires k < |AllRecords(n, limit, pats)|
    ensures AllRecords(n, limit, pats)[k].patternIndex < |pats|
    ensures AllRecords(n, limit, pats)[k].offsets == pats[AllRecords(n, limit, pats)[k].patternIndex]
    ensures AllRecords(n, limit, pats)[k].firsts in Fills(AllRecords(n, limit, pats)[k].offsets, [])
    ensures AllRecords(n, limit, pats)[k].orders == Zeros(n) && AllRecords(n, limit, pats)[k].transferMax == limit
  {
    var front := AllRecords(n, limit, pats[..|pats| - 1]);
    if k < |front| {
      AllRecordsSound(n, limit, pats[..|pats| - 1], k);
    }
  }

  /** Every pair of a pattern and one of its flag arrays is written. */
  lemma {:induction false} AllRecordsComplete(n: nat, limit: int, pats: seq<seq<int>>, oi: nat, g: seq<bool>)
    requires oi < |pats| && g in Fills(pats[oi], [])
    ensures Emitted(AllRecords(n, limit, pats), pats[oi], g)
  {
    var front := AllRecords(n, limit, pats[..|pats| - 1]);
    var last := pats[|pats| - 1];
    var block := RecordsFrom(n, limit, last, |pats| - 1, Fills(last, []), 0);
    if oi < |pats| - 1 {
      AllRecordsComplete(n, limit, pats[..|pats| - 1], oi, g);
      EmittedPrefix(front, block, pats[oi], g);
    } else {
      EmittedBlock(front, n, limit, last, |pats| - 1, Fills(last, []), g);
    }
  }

  /** A record emitted stays emitted when more follow. */
  lemma EmittedPrefix(rs: seq<Record>, more: seq<Record>, p: seq<int>, g: seq<bool>)
    requires Emitted(rs, p, g)
    ensures Emitted(rs + more, p, g)
  {
    var k :| 0 <= k < |rs| && rs[k].offsets == p && rs[k].firsts == g;
    assert (rs + more)[k] == rs[k];
  }

  /** Every flag array of a block of records is emitted with the block's offsets. */
  lemma EmittedBlock(rs: seq<Record>, n: nat, limit: int, offsets: seq<int>, oi: nat, fs: seq<seq<bool>>, g: seq<bool>)
    requires g in fs
    ensures Emitted(rs + RecordsFrom(n, limit, offsets, oi, fs, 0), offsets, g)
  {
    var j :| 0 <= j < |fs| && fs[j] == g;
    var all := rs + RecordsFrom(n, limit, offsets, oi, fs, 0);
    assert all[|rs| + j] == RecordsFrom(n, limit, offsets, oi, fs, 0)[j];
  }

  /** The file indices of the records ascend: by pattern, then by flag array, so no two files share a name. */
  lemma {:induction false} AllRecordsKeysAscend(n: nat, limit: int, pats: seq<seq<int>>)
    ensures forall x, y :: 0 <= x < y < |AllRecords(n, limit, pats)| ==>
      AllRecords(n, limit, pats)[x].patternIndex < AllRecords(n, limit, pats)[y].patternIndex
      || (AllRecords(n, limit, pats)[x].patternIndex == AllRecords(n, limit, pats)[y].patternIndex
          && AllRecords(n, limit, pats)[x].firstsIndex < AllRecords(n, limit, pats)[y].firstsIndex)
  {
    if |pats| > 0 {
      var front := AllRecords(n, limit, pats[..|pats| - 1]);
      var all := AllRecords(n, limit, pats);
      AllRecordsKeysAscend(n, limit, pats[..|pats| - 1]);
      forall x | 0 <= x < |front|
        ensures all[x].patternIndex < |pats| - 1
      {
        AllRecordsSound(n, limit, pats[..|pats| - 1], x);
        assert all[x] == front[x];
      }
    }
  }

  /**
   * Every record of the corpus pairs a pattern with a flag array that marks
   * one stitch of each stack, with zero orders and the given limit.
   */
  lemma CorpusSound(n: nat, limit: int, k: int)
    requires 0 <= k < |AllRecords(n, limit, Patterns(n, limit, []))|
    ensures Written(n, limit, AllRecords(n, limit, Patterns(n, limit, []))[k])
  {
    var pats := Patterns(n, limit, []);
    PatternsEnumerated(n, limit);
    AllRecordsSound(n, limit, pats, k);
    FillsEnumerated(AllRecords(n, limit, pats)[k].offsets);
  }

  /** Every pattern paired with every flag array that fits it is written. */
  lemma CorpusComplete(n: nat, limit: int, p: seq<int>, g: seq<bool>)
    requires IsPattern(n, limit, p) && |g| == n && MarksFit(p, g, 0)
    ensures Emitted(AllRecords(n, limit, Patterns(n, limit, [])), p, g)
  {
    var pats := Patterns(n, limit, []);
    PatternsEnumerated(n, limit);
    var oi :| 0 <= oi < |pats| && pats[oi] == p;
    FillsEnumerated(p);
    AllRecordsComplete(n, limit, pats, oi, g);
  }

  /** A record of the corpus: its pattern, its flags and the fixed fields. */
  predicate Written(n: nat, limit: int, r: Record)
  {
    IsPattern(n, limit, r.offsets) && |r.firsts| == n && MarksFit(r.offsets, r.firsts, 0)
    && r.orders == Zeros(n) && r.transferMax == limit
  }

  /** Some record of rs carries the pattern p with the flags g. */
  predicate Emitted(rs: seq<Record>, p: seq<int>, g: seq<bool>)
  {
    exists k :: 0 <= k < |rs| && rs[k].offsets == p && rs[k].firsts == g
  }

  /** The state of one run of the generator: the two shared prefixes, the list of patterns, the file counter and what has been written. */
  class LaceEnumerator {
    const n: nat
    const limit: int
    var temp: seq<int>
    var noCables: seq<seq<int>>
    var firsts: seq<bool>
    var fi: nat
    var written: seq<Record>

    constructor(n: nat, limit: int)
      ensures this.n == n && this.limit == limit
      ensures temp == [] && noCables == [] && firsts == [] && fi == 0 && written == []
    {
      this.n := n;
      this.limit := limit;
      temp := [];
      noCables := [];
      firsts := [];
      fi := 0;
      written := [];
    }

    /** `rec`: extends the prefix in every allowed way, recording each complete pattern. */
    method Rec()
      modifies this
      requires |temp| <= n
      ensures temp == old(temp) && noCables == old(noCables) + Patterns(n, limit, old(temp))
      ensures firsts == old(firsts) && fi == old(fi) && written == old(written)
      decreases n - |temp|
    {
      var lo := Low(|temp|, limit);
      var hi := High(n, |temp|, limit);
      if |temp| == 0 || |temp| < n {
        if |temp| > 0 {
          var s := StackCount(temp);
          lo := Max(temp[|temp| - 1] - (if s < 3 then 1 else 0), lo);
        }
        ghost var t := temp;
        ghost var before := noCables;
        assert lo == Lower(limit, t);
        var o := lo;
        while o <= hi
          invariant lo <= o && (o == lo || o <= hi + 1)
          invariant temp == t && firsts == old(firsts) && fi == old(fi) && written == old(written)
          invariant noCables == before + PatternsUpTo(n, limit, t, o)
          decreases hi - o
        {
          ghost var mid := noCables;
          temp := temp + [o];
          Rec();
          UpToNext(n, limit, t, o);
          RecordedNext(before, mid, noCables, PatternsUpTo(n, limit, t, o), Patterns(n, limit, t + [o]));
          temp := temp[..|temp| - 1];
          assert temp == t;
          o := o + 1;
        }
      } else {
        noCables := noCables + [temp];
      }
    }

    /** `fill`: for the run that starts at the next stitch, marks each of its stitches in turn (none for a run of one), and writes every completion. */
    method Fill(offsets: seq<int>, oi: nat)
      modifies this
      requires |firsts| <= |offsets|
      ensures firsts == old(firsts) && fi == old(fi) + |Fills(offsets, old(firsts))|
      ensures written == old(written) + RecordsFrom(n, limit, offsets, oi, Fills(offsets, old(firsts)), old(fi))
      ensures temp == old(temp) && noCables == old(noCables)
      decreases |offsets| - |firsts|, 1
    {
      if |firsts| < |offsets| {
        ghost var f := firsts;
        var a := |firsts|;
        var b := FindRunEnd(offsets, a);
        PushFalses(b + 1 - a);
        if a < b {
          MarkEach(offsets, oi, f, a, b);
        } else {
          assert firsts == f + [false];
          Fill(offsets, oi);
        }
        PopAll(b + 1 - a);
        assert firsts == f;
      } else {
        written := written + [Record(offsets, firsts, Zeros(n), limit, oi, fi)];
        fi := fi + 1;
      }
    }

    /** The marking loop of `fill`: sets each flag of the run |f| .. b in turn and fills again after each. */
    method MarkEach(offsets: seq<int>, oi: nat, ghost f: seq<bool>, a: nat, b: nat)
      modifies this
      requires a == |f| && a < b < |offsets| && firsts == f + Marks(b + 1 - a, -1)
      ensures firsts == old(firsts) && fi == old(fi) + |MarkedUpTo(offsets, f, b + 1, b + 1)|
      ensures written == old(written) + RecordsFrom(n, limit, offsets, oi, MarkedUpTo(offsets, f, b + 1, b + 1), old(fi))
      ensures temp == old(temp) && noCables == old(noCables)
      decreases |offsets| - |f|, 0
    {
      var i := a;
      while i <= b
        invariant a <= i <= b + 1 && firsts == f + Marks(b + 1 - a, -1)
        invariant temp == old(temp) && noCables == old(noCables)
        invariant fi == old(fi) + |MarkedUpTo(offsets, f, b + 1, i)|
        invariant written == old(written) + RecordsFrom(n, limit, offsets, oi, MarkedUpTo(offsets, f, b + 1, i), old(fi))
      {
        firsts := firsts[i := true];
        assert firsts == f + Marks(b + 1 - a, i - a);
        Fill(offsets, oi);
        RecordsFromAppend(n, limit, offsets, oi, MarkedUpTo(offsets, f, b + 1, i),
                          Fills(offsets, f + Marks(b + 1 - a, i - a)), old(fi));
        firsts := firsts[i := false];
        assert firsts == f + Marks(b + 1 - a, -1);
        i := i + 1;
      }
    }

    /** The first loop of `fill`: pushes count unset flags. */
    method PushFalses(count: nat)
      modifies this
      ensures firsts == old(firsts) + Marks(count, -1)
      ensures temp == old(temp) && noCables == old(noCables) && fi == old(fi) && written == old(written)
    {
      var i := 0;
      while i < count
        invariant 0 <= i <= count && firsts == old(firsts) + Marks(i, -1)
        invariant temp == old(temp) && noCables == old(noCables) && fi == old(fi) && written == old(written)
      {
        firsts := firsts + [false];
        i := i + 1;
      }
    }

    /** The last loop of `fill`: pops count flags. */
    method PopAll(count: nat)
      modifies this
      requires count <= |firsts|
      ensures firsts == old(firsts)[..|old(firsts)| - count]
      ensures temp == old(temp) && noCables == old(noCables) && fi == old(fi) && written == old(written)
    {
      var i := 0;
      while i < count
        invariant 0 <= i <= count && firsts == old(firsts)[..|old(firsts)| - i]
        invariant temp == old(temp) && noCables == old(noCables) && fi == old(fi) && written == old(written)
      {
        firsts := firsts[..|firsts| - 1];
        i := i + 1;
      }
    }

    /** `enumerate_laces`: lists the patterns, then writes every pattern with every flag array `fill` finds for it. */
    method EnumerateLaces()
      modifies this
      ensures noCables == Patterns(n, limit, [])
      ensures written == AllRecords(n, limit, noCables)
    {
      temp := [];
      noCables := [];
      written := [];
      Rec();
      var oi := 0;
      while oi < |noCables|
        invariant 0 <= oi <= |noCables| && noCables == Patterns(n, limit, [])
        invariant written == AllRecords(n, limit, noCables[..oi])
      {
        fi := 0;
        firsts := [];
        Fill(noCables[oi], oi);
        assert noCables[..oi + 1][..oi] == noCables[..oi];
        oi := oi + 1;
      }
      assert noCables[..oi] == noCables;
    }
  }
}
