/**
 * Vocabulary shared by every part of the transfer planner: beds, needle
 * locations, transfer operations, results, and the arithmetic helpers the
 * planners use on offset arrays.
 */
module Knit {

  /** The four beds of a v-bed machine: front, front sliders, back, back sliders. */
  datatype Bed = F | FS | B | BS

  /** A bed whose name begins with 'f' (the front bed or its sliders). */
  predicate OnFront(b: Bed) { b == F || b == FS }

  /** The opposite main bed of a bed: front-side beds face the back, and back-side beds face the front. */
  function Facing(b: Bed): (r: Bed)
    ensures OnFront(b) <==> !OnFront(r)
  {
    if OnFront(b) then B else F
  }

  /** A needle on a bed: the key of the machine's needle map ('f3', 'bs-2', ...). */
  datatype Loc = Loc(bed: Bed, needle: int)

  /** One transfer, the arguments of the xfer callback. */
  datatype Op = Xfer(fromBed: Bed, fromNeedle: int, toBed: Bed, toNeedle: int)

  datatype Option<+T> = None | Some(value: T)

  datatype Result<+T, +E> = Ok(value: T) | Err(error: E)

  function Abs(x: int): (r: nat)
    ensures r == x || r == -x
  {
    if x < 0 then -x else x
  }

  function Max(a: int, b: int): (r: int)
    ensures r >= a && r >= b && (r == a || r == b)
  {
    if a < b then b else a
  }

  function Min(a: int, b: int): (r: int)
    ensures r <= a && r <= b && (r == a || r == b)
  {
    if a < b then a else b
  }

  /** The racking (back position minus front position) that a transfer needs. */
  function Racking(op: Op): int
  {
    if OnFront(op.fromBed) then op.fromNeedle - op.toNeedle else op.toNeedle - op.fromNeedle
  }

  /** The six bed pairs a transfer may join: f>b, f>bs, fs>b, b>f, b>fs, bs>f. */
  predicate AllowedPair(op: Op)
  {
    match (op.fromBed, op.toBed)
    case (F, B) => true
    case (F, BS) => true
    case (FS, B) => true
    case (B, F) => true
    case (B, FS) => true
    case (BS, F) => true
    case _ => false
  }

  /** Every allowed transfer crosses from one side of the machine to the other. */
  lemma AllowedPairCrosses(op: Op)
    requires AllowedPair(op)
    ensures OnFront(op.fromBed) <==> !OnFront(op.toBed)
    ensures op.fromBed != op.toBed
  {
  }

  /** Stitch i from its front needle to the back needle opposite. */
  function ToBack(i: int): Op { Xfer(F, i, B, i) }

  /** Stitch i from back needle i to front needle i + ofs. */
  function ToFront(i: int, ofs: int): Op { Xfer(B, i, F, i + ofs) }

  /** Sum of absolute values, the cost every planner minimises. */
  function SumAbs(s: seq<int>): nat
  {
    if s == [] then 0 else Abs(s[0]) + SumAbs(s[1..])
  }

  lemma {:induction false} SumAbsAppend(s: seq<int>, t: seq<int>)
    ensures SumAbs(s + t) == SumAbs(s) + SumAbs(t)
  {
    if s == [] {
      assert s + t == t;
    } else {
      assert (s + t)[1..] == s[1..] + t;
      SumAbsAppend(s[1..], t);
    }
  }

  lemma {:induction false} SumAbsZero(s: seq<int>)
    ensures SumAbs(s) == 0 <==> AllZero(s)
  {
    if s != [] {
      SumAbsZero(s[1..]);
      assert AllZero(s) <==> s[0] == 0 && AllZero(s[1..]) by {
        if s[0] == 0 && AllZero(s[1..]) {
          forall i | 0 <= i < |s| ensures s[i] == 0 {
            if i > 0 { assert s[i] == s[1..][i - 1]; }
          }
        }
      }
    }
  }

  predicate AllZero(s: seq<int>)
  {
    forall i :: 0 <= i < |s| ==> s[i] == 0
  }

  /** Stitch i's target needle. */
  function Target(offsets: seq<int>, i: int): int
    requires 0 <= i < |offsets|
  {
    i + offsets[i]
  }

  /**
   * No two stitches cross: the target of stitch i-1 never lies to the right
   * of the target of stitch i.
   */
  predicate CableFree(offsets: seq<int>)
  {
    forall i :: 1 <= i < |offsets| ==> offsets[i - 1] <= 1 + offsets[i]
  }

  lemma CableFreeTargets(offsets: seq<int>)
    requires CableFree(offsets)
    ensures forall i :: 1 <= i < |offsets| ==> Target(offsets, i - 1) <= Target(offsets, i)
  {
  }

  /** The slack between stitch i-1 and stitch i: how far apart their targets are, at least 1. */
  function Slack(offsets: seq<int>, i: int): (r: nat)
    requires 1 <= i < |offsets|
    ensures r >= 1
  {
    Max(1, Abs(Target(offsets, i) - Target(offsets, i - 1)))
  }

  function Reverse<T>(s: seq<T>): (r: seq<T>)
    ensures |r| == |s|
  {
    if s == [] then [] else Reverse(s[1..]) + [s[0]]
  }

  lemma {:induction false} ReverseAt<T>(s: seq<T>, k: int)
    requires 0 <= k < |s|
    ensures Reverse(s)[k] == s[|s| - 1 - k]
  {
    if k < |s| - 1 {
      ReverseAt(s[1..], k);
    }
  }

  lemma ReverseElements<T>(s: seq<T>)
    ensures forall x :: x in Reverse(s) <==> x in s
  {
    forall x ensures x in Reverse(s) <==> x in s {
      if x in s {
        var k :| 0 <= k < |s| && s[k] == x;
        ReverseAt(s, |s| - 1 - k);
      }
      if x in Reverse(s) {
        var k :| 0 <= k < |s| && Reverse(s)[k] == x;
        ReverseAt(s, k);
      }
    }
  }

  /** The last element of a reversed sequence is the first element of the original. */
  lemma ReverseLast<T>(s: seq<T>)
    requires s != []
    ensures Reverse(s)[|s| - 1] == s[0]
  {
    ReverseAt(s, |s| - 1);
  }

  /** Popping the last element and pushing it onto the reversal so far. */
  lemma ReverseSnoc<T>(s: seq<T>, x: T)
    ensures Reverse(s + [x]) == [x] + Reverse(s)
  {
    var l, r := Reverse(s + [x]), [x] + Reverse(s);
    forall k | 0 <= k < |l| ensures l[k] == r[k] {
      ReverseAt(s + [x], k);
      if k > 0 { ReverseAt(s, k - 1); }
    }
  }

  /** The name a bed has in needle keys ('f3', 'bs-2', ...). */
  function BedName(b: Bed): (s: string)
    ensures 1 <= |s| <= 2 && (s[0] == 'f' || s[0] == 'b') && (|s| == 2 ==> s[1] == 's')
  {
    match b
    case F => "f"
    case FS => "fs"
    case B => "b"
    case BS => "bs"
  }

  function Digit(d: nat): (c: char)
    requires d < 10
    ensures '0' <= c <= '9'
  {
    "0123456789"[d]
  }

  /** The decimal text of a natural number. */
  function Digits(n: nat): (s: string)
    ensures |s| >= 1 && '0' <= s[0] <= '9'
  {
    if n < 10 then [Digit(n)] else Digits(n / 10) + [Digit(n % 10)]
  }

  /** Every character of the decimal text is a digit. */
  lemma {:induction false} DigitsAreDigits(n: nat)
    ensures forall k :: 0 <= k < |Digits(n)| ==> '0' <= Digits(n)[k] <= '9'
  {
    if n >= 10 {
      DigitsAreDigits(n / 10);
    }
  }

  /** The text of a needle number, as string concatenation writes it. */
  function NumberText(x: int): (s: string)
    ensures |s| >= 1 && (s[0] == '-' || '0' <= s[0] <= '9')
  {
    if x < 0 then "-" + Digits(-x) else Digits(x)
  }

  /** The key of a needle in the checking and ignore maps: bed name, then needle number. */
  function KeyText(l: Loc): (s: string)
    ensures |s| >= 2 && (s[1] == 's' || s[1] == '-' || '0' <= s[1] <= '9')
  {
    BedName(l.bed) + NumberText(l.needle)
  }
}
