/**
 * cse_transfers: the collapse-stretch-expand planner's building blocks:
 * the binary-heap priority queue it searches with, the comparator it
 * orders states by, and the checks it makes on a state in which the
 * stitches l..r sit on the back bed and all others on the front.
 */
module CseTransfers {
  import opened Knit
  import SearchRules

  // ---------------------------------------------------------- heap shape

  /** The parent slot of slot i; the root has none (-1). */
  function Parent(i: nat): (p: int)
    ensures i == 0 ==> p == -1
    ensures i > 0 ==> 0 <= p < i
  {
    (i + 1) / 2 - 1
  }

  /** The left child slot of slot i. */
  function Left(i: nat): (c: nat)
    ensures c > i && Parent(c) == i
  {
    2 * i + 1
  }

  /** The right child slot of slot i, next to the left one. */
  function Right(i: nat): (c: nat)
    ensures c == Left(i) + 1 && Parent(c) == i
  {
    2 * (i + 1)
  }

  /** Every slot's parent has one of its two children there. */
  lemma ChildOfParent(c: nat)
    requires c > 0
    ensures c == Left(Parent(c)) || c == Right(Parent(c))
  {
  }

  // ---------------------------------------------------------- ordering

  /**
   * A comparator a heap can be ordered by: "greater" is asymmetric and
   * "not greater" is transitive (a strict weak order).
   */
  ghost predicate StrictOrder<T(!new)>(greater: (T, T) -> bool)
  {
    (forall a, b :: greater(a, b) ==> !greater(b, a))
    && (forall a, b, c :: !greater(a, b) && !greater(b, c) ==> !greater(a, c))
  }

  lemma NotGreaterTrans<T(!new)>(greater: (T, T) -> bool, a: T, b: T, c: T)
    requires StrictOrder(greater) && !greater(a, b) && !greater(b, c)
    ensures !greater(a, c)
  {
  }

  /** No element is greater than its parent. */
  ghost predicate IsHeap<T>(h: seq<T>, greater: (T, T) -> bool)
  {
    forall i :: 0 < i < |h| ==> !greater(h[i], h[Parent(i)])
  }

  /** In a heap nothing is greater than the top. */
  lemma TopIsGreatest<T(!new)>(h: seq<T>, greater: (T, T) -> bool, i: nat)
    requires StrictOrder(greater) && IsHeap(h, greater) && i < |h|
    ensures !greater(h[i], h[0])
    decreases i
  {
    if i > 0 {
      TopIsGreatest(h, greater, Parent(i));
      NotGreaterTrans(greater, h[i], h[Parent(i)], h[0]);
    } else {
      assert !greater(h[0], h[0]);
    }
  }

  /** Sifting up from k: every edge holds except k's own, and k's children are not greater than k's parent. */
  ghost predicate HeapAbove<T>(h: seq<T>, greater: (T, T) -> bool, k: nat)
    requires k < |h|
  {
    (forall i :: 0 < i < |h| && i != k ==> !greater(h[i], h[Parent(i)]))
    && (k > 0 ==> forall c :: 0 < c < |h| && Parent(c) == k ==> !greater(h[c], h[Parent(k)]))
  }

  /** Sifting down from k: every edge holds except those into k, and k's children are not greater than k's parent. */
  ghost predicate HeapBelow<T>(h: seq<T>, greater: (T, T) -> bool, k: nat)
    requires k < |h|
  {
    (forall i :: 0 < i < |h| && Parent(i) != k ==> !greater(h[i], h[Parent(i)]))
    && (k > 0 ==> forall c :: 0 < c < |h| && Parent(c) == k ==> !greater(h[c], h[Parent(k)]))
  }

  function Swap<T>(h: seq<T>, i: nat, j: nat): (r: seq<T>)
    requires i < |h| && j < |h|
    ensures |r| == |h| && r[i] == h[j] && r[j] == h[i]
    ensures forall k :: 0 <= k < |h| && k != i && k != j ==> r[k] == h[k]
    ensures multiset(r) == multiset(h)
  {
    h[i := h[j]][j := h[i]]
  }

  /**
   * The priority queue the search draws states from. comparator(a, b)
   * says a should come out before b.
   */
  class PriorityQueue<T(!new)> {
    var heap: seq<T>
    const greater: (T, T) -> bool

    ghost predicate Valid()
      reads this
    {
      StrictOrder(greater) && IsHeap(heap, greater)
    }

    constructor (comparator: (T, T) -> bool)
      requires StrictOrder(comparator)
      ensures Valid() && heap == [] && greater == comparator
    {
      heap := [];
      greater := comparator;
    }

    method Size() returns (n: nat)
      ensures n == |heap|
    {
      n := |heap|;
    }

    method IsEmpty() returns (b: bool)
      ensures b <==> heap == []
    {
      b := |heap| == 0;
    }

    /** The element that comes out next: one nothing queued is greater than; none when empty. */
    method Peek() returns (r: Option<T>)
      requires Valid()
      ensures heap == [] ==> r == None
      ensures heap != [] ==> r == Some(heap[0]) && forall i :: 0 <= i < |heap| ==> !greater(heap[i], r.value)
    {
      if |heap| == 0 {
        return None;
      }
      forall i | 0 <= i < |heap| ensures !greater(heap[i], heap[0]) {
        TopIsGreatest(heap, greater, i);
      }
      return Some(heap[0]);
    }

    /** push of one value: queues it and returns the new size. */
    method Push(value: T) returns (size: nat)
      requires Valid()
      modifies this
      ensures Valid()
      ensures multiset(heap) == multiset(old(heap)) + multiset{value}
      ensures size == |heap| == |old(heap)| + 1
    {
      heap := heap + [value];
      SiftUp();
      size := |heap|;
    }

    /** push: queues every value in turn and returns the new size. */
    method PushAll(values: seq<T>) returns (size: nat)
      requires Valid()
      modifies this
      ensures Valid()
      ensures multiset(heap) == multiset(old(heap)) + multiset(values)
      ensures size == |heap| == |old(heap)| + |values|
    {
      size := |heap|;
      for k := 0 to |values|
        invariant Valid()
        invariant multiset(heap) == multiset(old(heap)) + multiset(values[..k])
        invariant size == |heap| == |old(heap)| + k
      {
        size := Push(values[k]);
        assert values[..k + 1] == values[..k] + [values[k]];
      }
      assert values[..|values|] == values;
    }

    /** pop: removes and returns the element Peek names; none when empty. */
    method Pop() returns (r: Option<T>)
      requires Valid()
      modifies this
      ensures Valid()
      ensures old(heap) == [] ==> r == None && heap == []
      ensures old(heap) != [] ==>
        r == Some(old(heap)[0]) && (forall i :: 0 <= i < |old(heap)| ==> !greater(old(heap)[i], r.value))
        && |heap| == |old(heap)| - 1 && multiset(heap) == multiset(old(heap)) - multiset{r.value}
    {
      r := Peek();
      if |heap| == 0 {
        return;
      }
      ghost var h := heap;
      var bottom := |heap| - 1;
      if bottom > 0 {
        heap := Swap(heap, 0, bottom);
      }
      heap := heap[..bottom];
      DropTopKeeps(h, greater, heap);
      if |heap| > 0 {
        SiftDown();
      }
    }

    /** replace: puts value in place of the top and returns the old top; on an empty queue just queues it. */
    method Replace(value: T) returns (r: Option<T>)
      requires Valid()
      modifies this
      ensures Valid()
      ensures old(heap) == [] ==> r == None && heap == [value]
      ensures old(heap) != [] ==>
        r == Some(old(heap)[0]) && |heap| == |old(heap)|
        && multiset(heap) == multiset(old(heap)) - multiset{r.value} + multiset{value}
    {
      r := Peek();
      if |heap| == 0 {
        heap := [value];
        return;
      }
      heap := heap[0 := value];
      assert HeapBelow(heap, greater, 0);
      SiftDown();
    }

    method SiftUp()
      requires StrictOrder(greater) && |heap| > 0 && HeapAbove(heap, greater, |heap| - 1)
      modifies this
      ensures Valid() && multiset(heap) == multiset(old(heap)) && |heap| == |old(heap)|
    {
      var node: nat := |heap| - 1;
      while node > 0 && greater(heap[node], heap[Parent(node)])
        invariant node < |heap| == |old(heap)| && HeapAbove(heap, greater, node)
        invariant multiset(heap) == multiset(old(heap))
        decreases node
      {
        var p := Parent(node);
        ghost var h := heap;
        heap := Swap(heap, node, p);
        SwapUpKeeps(h, greater, node);
        node := p;
      }
    }

    method SiftDown()
      requires StrictOrder(greater) && |heap| > 0 && HeapBelow(heap, greater, 0)
      modifies this
      ensures Valid() && multiset(heap) == multiset(old(heap)) && |heap| == |old(heap)|
    {
      var node: nat := 0;
      while (Left(node) < |heap| && greater(heap[Left(node)], heap[node]))
         || (Right(node) < |heap| && greater(heap[Right(node)], heap[node]))
        invariant node < |heap| == |old(heap)| && HeapBelow(heap, greater, node)
        invariant multiset(heap) == multiset(old(heap))
        decreases |heap| - node
      {
        var maxChild := if Right(node) < |heap| && greater(heap[Right(node)], heap[Left(node)]) then Right(node) else Left(node);
        ghost var h := heap;
        heap := Swap(heap, node, maxChild);
        SwapDownKeeps(h, greater, node, maxChild);
        node := maxChild;
      }
      forall i | 0 < i < |heap| && Parent(i) == node ensures !greater(heap[i], heap[node]) {
        ChildOfParent(i);
      }
    }
  }

  /** Moving the last element to the top and dropping the old top leaves the top to sift down. */
  lemma DropTopKeeps<T(!new)>(h: seq<T>, greater: (T, T) -> bool, rest: seq<T>)
    requires StrictOrder(greater) && IsHeap(h, greater) && |h| > 0
    requires rest == (if |h| > 1 then Swap(h, 0, |h| - 1) else h)[..|h| - 1]
    ensures |rest| == |h| - 1 && multiset(rest) == multiset(h) - multiset{h[0]}
    ensures |rest| > 0 ==> HeapBelow(rest, greater, 0)
  {
    var full := if |h| > 1 then Swap(h, 0, |h| - 1) else h;
    assert full == rest + [h[0]];
    assert multiset(full) == multiset(h);
  }

  /** One step of sifting up keeps the sift-up invariant, one slot higher. */
  lemma SwapUpKeeps<T(!new)>(h: seq<T>, greater: (T, T) -> bool, node: nat)
    requires StrictOrder(greater) && 0 < node < |h| && HeapAbove(h, greater, node)
    requires greater(h[node], h[Parent(node)])
    ensures HeapAbove(Swap(h, node, Parent(node)), greater, Parent(node))
  {
    var p := Parent(node);
    var h' := Swap(h, node, p);
    forall i | 0 < i < |h'| && i != p ensures !greater(h'[i], h'[Parent(i)]) {
      if i == node {
      } else if Parent(i) == node {
      } else if Parent(i) == p {
        NotGreaterTrans(greater, h[i], h[p], h[node]);
      }
    }
    if p > 0 {
      forall c | 0 < c < |h'| && Parent(c) == p ensures !greater(h'[c], h'[Parent(p)]) {
        if c != node {
          NotGreaterTrans(greater, h[c], h[p], h[Parent(p)]);
        }
      }
    }
  }

  /** One step of sifting down keeps the sift-down invariant, one slot lower. */
  lemma SwapDownKeeps<T(!new)>(h: seq<T>, greater: (T, T) -> bool, node: nat, m: nat)
    requires StrictOrder(greater) && node < |h| && HeapBelow(h, greater, node)
    requires (Left(node) < |h| && greater(h[Left(node)], h[node])) || (Right(node) < |h| && greater(h[Right(node)], h[node]))
    requires m == if Right(node) < |h| && greater(h[Right(node)], h[Left(node)]) then Right(node) else Left(node)
    ensures m < |h| && m > node && HeapBelow(Swap(h, node, m), greater, m)
  {
    var h' := Swap(h, node, m);
    assert !greater(h[node], h[m]);
    SwapDownEdges(h, greater, node, m, h');
    forall c | 0 < c < |h'| && Parent(c) == m ensures !greater(h'[c], h'[Parent(m)]) {
    }
  }

  /** After the swap every edge holds except those into m. */
  lemma SwapDownEdges<T>(h: seq<T>, greater: (T, T) -> bool, node: nat, m: nat, h': seq<T>)
    requires node < |h| && HeapBelow(h, greater, node)
    requires m < |h| && (m == Left(node) || m == Right(node)) && !greater(h[node], h[m])
    requires Left(node) < |h| && Right(node) < |h| ==> !greater(h[Left(node) + Right(node) - m], h[m])
    requires h' == Swap(h, node, m)
    ensures forall i :: 0 < i < |h'| && Parent(i) != m ==> !greater(h'[i], h'[Parent(i)])
  {
    forall i | 0 < i < |h'| && Parent(i) != m ensures !greater(h'[i], h'[Parent(i)]) {
      SwapDownEdge(h, greater, node, m, h', i);
    }
  }

  lemma SwapDownEdge<T>(h: seq<T>, greater: (T, T) -> bool, node: nat, m: nat, h': seq<T>, i: nat)
    requires node < |h| && HeapBelow(h, greater, node)
    requires m < |h| && (m == Left(node) || m == Right(node)) && !greater(h[node], h[m])
    requires Left(node) < |h| && Right(node) < |h| ==> !greater(h[Left(node) + Right(node) - m], h[m])
    requires h' == Swap(h, node, m)
    requires 0 < i < |h'| && Parent(i) != m
    ensures !greater(h'[i], h'[Parent(i)])
  {
    if i == m {
      assert h'[i] == h[node] && h'[Parent(i)] == h[m];
    } else if i == node {
      assert h'[i] == h[m] && h'[Parent(i)] == h[Parent(node)];
    } else if Parent(i) == node {
      ChildOfParent(i);
      assert i == Left(node) + Right(node) - m;
      assert h'[i] == h[i] && h'[Parent(i)] == h[m];
    } else {
      assert h'[i] == h[i] && h'[Parent(i)] == h[Parent(i)];
    }
  }

  // ---------------------------------------------------------- the planner's comparator

  /** What the search compares states by: penalty, transfers so far, and the width r - l of the back block. */
  datatype Rank = Rank(penalty: nat, pathLength: nat, width: int)

  /** The queue's comparator: lower penalty first, then a shorter path, then a wider block. */
  function Better(a: Rank, b: Rank): bool
  {
    if a.penalty == b.penalty then
      (if a.pathLength == b.pathLength then a.width > b.width else a.pathLength < b.pathLength)
    else a.penalty < b.penalty
  }

  /** The search's comparator is one a heap can be ordered by. */
  lemma BetterIsStrictOrder()
    ensures StrictOrder(Better)
  {
    forall a: Rank, b: Rank, c: Rank | !Better(a, b) && !Better(b, c) ensures !Better(a, c) {
    }
  }

  // ---------------------------------------------------------- states

  /** The beds of a state whose stitches l..r are on the back bed. */
  function BlockBeds(n: nat, l: int, r: int): (beds: seq<Bed>)
    ensures |beds| == n && SearchRules.MainBeds(beds)
    ensures forall i :: 0 <= i < n ==> (beds[i] == B <==> l <= i <= r)
  {
    seq(n, i => if l <= i <= r then B else F)
  }

  /** state_respects_slack for a state with the block l..r on the back bed. */
  method RespectsSlack(offsets: seq<int>, current: seq<int>, l: int, r: int, rack: int) returns (ok: bool)
    requires |current| == |offsets|
    ensures ok <==> SearchRules.SlackRespected(offsets, BlockBeds(|offsets|, l, r), current, rack)
  {
    var n := |offsets|;
    var beds: seq<Bed> := [];
    for i := 0 to n
      invariant beds == BlockBeds(n, l, r)[..i]
    {
      if i < l {
        beds := beds + [F];
      } else if l <= i <= r {
        beds := beds + [B];
      } else {
        beds := beds + [F];
      }
    }
    assert beds == BlockBeds(n, l, r);
    var i := 1;
    while i < n
      invariant 1 <= i && forall j :: 1 <= j < i && j < n ==> SearchRules.PairHolds(offsets, beds, current, rack, j)
    {
      var slack := Max(1, Abs((i + offsets[i]) - (i - 1 + offsets[i - 1])));
      assert slack == Slack(offsets, i);
      var sep := Abs(current[i] - current[i - 1]);
      if beds[i] == beds[i - 1] && sep > slack {
        assert !SearchRules.PairHolds(offsets, beds, current, rack, i);
        return false;
      }
      if beds[i] != beds[i - 1] {
        var back := if beds[i] == B then current[i] else current[i - 1];
        var front := if beds[i] == F then current[i] else current[i - 1];
        var stretch := Abs(back + rack - front);
        if stretch > slack {
          assert !SearchRules.PairHolds(offsets, beds, current, rack, i);
          return false;
        }
      }
      i := i + 1;
    }
    return true;
  }

  /**
   * Stitch idx may move from the back bed to front needle current[idx] + ofs
   * at racking ofs: its neighbours left on the back bed stay within slack,
   * and among the front stitches outside l..r it neither lands on one whose
   * remaining offset differs from its own nor passes one.  The slack comes
   * from the planner's original offsets; the remaining offsets are the
   * search state's, which shrink as stitches move.
   */
  predicate MoveAllowed(offsets: seq<int>, remaining: seq<int>, current: seq<int>, l: int, r: int, idx: int, ofs: int)
    requires |current| == |offsets| == |remaining| && 0 <= idx < |offsets|
  {
    var n := |offsets|;
    var beds := BlockBeds(n, l, r)[idx := F];
    var c := current[idx] + ofs;
    var o := remaining[idx] - ofs;
    (idx > 0 && beds[idx - 1] != F ==> Abs(current[idx - 1] + ofs - c) <= Slack(offsets, idx))
    && (idx + 1 < n && beds[idx + 1] != F ==> Abs(current[idx + 1] + ofs - c) <= Slack(offsets, idx + 1))
    && (forall i :: 0 <= i < l && i < n ==> (current[i] == c ==> remaining[i] == o) && current[i] <= c)
    && (forall i :: r < i < n && 0 <= i ==> (current[i] == c ==> remaining[i] == o) && current[i] >= c)
  }

  /** okay_to_move_index_by_offset. */
  method OkayToMove(offsets: seq<int>, remaining: seq<int>, current: seq<int>, l: int, r: int, idx: int, ofs: int)
    returns (ok: bool)
    requires |current| == |offsets| == |remaining| && 0 <= idx < |offsets|
    requires 0 <= l < |offsets| && 0 <= r < |offsets|
    ensures ok <==> MoveAllowed(offsets, remaining, current, l, r, idx, ofs)
  {
    var n := |offsets|;
    var beds := BlockBeds(n, l, r);
    beds := beds[idx := F];
    if idx > 0 && beds[idx] != beds[idx - 1] {
      var back := current[idx - 1];
      var front := current[idx] + ofs;
      var stretch := Abs(back + ofs - front);
      var slack := Max(1, Abs(idx + offsets[idx] - (idx - 1 + offsets[idx - 1])));
      assert slack == Slack(offsets, idx);
      if stretch > slack {
        return false;
      }
    }
    if idx + 1 < n && beds[idx] != beds[idx + 1] {
      var back := current[idx + 1];
      var front := current[idx] + ofs;
      var stretch := Abs(back + ofs - front);
      var slack := Max(1, Abs(idx + offsets[idx] - (idx + 1 + offsets[idx + 1])));
      assert slack == Slack(offsets, idx + 1);
      if stretch > slack {
        return false;
      }
    }
    var c := current[idx] + ofs;
    var o := remaining[idx] - ofs;
    for i := 0 to l
      invariant forall j :: 0 <= j < i ==> (current[j] == c ==> remaining[j] == o) && current[j] <= c
    {
      if current[i] == c && remaining[i] != o {
        return false;
      }
      if current[i] > c {
        return false;
      }
    }
    for i := r + 1 to n
      invariant forall j :: r < j < i ==> (current[j] == c ==> remaining[j] == o) && current[j] >= c
    {
      if current[i] == c && remaining[i] != o {
        return false;
      }
      if current[i] < c {
        return false;
      }
    }
    return true;
  }

  /**
   * An allowed move leaves every yarn between idx and a neighbour still on
   * the back bed within the shared slack rule, once idx is on the front at
   * its new needle and the machine is racked to ofs.
   */
  lemma MoveKeepsCrossSlack(offsets: seq<int>, remaining: seq<int>, current: seq<int>, l: int, r: int, idx: int, ofs: int)
    requires |current| == |offsets| == |remaining| && 0 <= idx < |offsets|
    requires MoveAllowed(offsets, remaining, current, l, r, idx, ofs)
    ensures var beds := BlockBeds(|offsets|, l, r)[idx := F];
      var moved := current[idx := current[idx] + ofs];
      (idx > 0 && beds[idx - 1] == B ==> SearchRules.PairHolds(offsets, beds, moved, ofs, idx))
      && (idx + 1 < |offsets| && beds[idx + 1] == B ==> SearchRules.PairHolds(offsets, beds, moved, ofs, idx + 1))
  {
  }
}
