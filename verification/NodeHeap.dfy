/**
 The priority queue of trees.c: a binary heap of node numbers in heap[1..heap_len], least
 frequent node first, ties broken by the shallower subtree.
 */
module NodeHeap {
  /** `smaller`: a total preorder on nodes. */
  predicate Smaller(freq: seq<nat>, depth: seq<nat>, n: nat, m: nat)
    requires n < |freq| == |depth| && m < |freq|
  {
    freq[n] < freq[m] || (freq[n] == freq[m] && depth[n] <= depth[m])
  }

  /** Slots 1..len hold nodes. */
  ghost predicate Nodes(h: seq<nat>, len: nat, bound: nat)
  {
    len < |h| && forall i :: 1 <= i <= len ==> h[i] < bound
  }

  /** The father of slot i is no larger than the node in slot i. */
  ghost predicate FatherOk(h: seq<nat>, freq: seq<nat>, depth: seq<nat>, i: nat)
  {
    && |freq| == |depth| && 2 <= i < |h| && h[i / 2] < |freq| && h[i] < |freq|
    && Smaller(freq, depth, h[i / 2], h[i])
  }

  /** Every father from slot k on is no larger than its sons, except perhaps at the hole. */
  ghost predicate HeapExcept(h: seq<nat>, len: nat, freq: seq<nat>, depth: seq<nat>, k: nat, hole: nat)
    requires |freq| == |depth| && Nodes(h, len, |freq|)
  {
    forall i :: 2 <= i <= len && k <= i / 2 && i / 2 != hole ==> FatherOk(h, freq, depth, i)
  }

  ghost predicate HeapFrom(h: seq<nat>, len: nat, freq: seq<nat>, depth: seq<nat>, k: nat)
    requires |freq| == |depth| && Nodes(h, len, |freq|)
  {
    forall i :: 2 <= i <= len && k <= i / 2 ==> FatherOk(h, freq, depth, i)
  }

  /** The queue as a collection. */
  ghost function Queue(h: seq<nat>, len: nat): multiset<nat>
    requires len < |h|
  {
    if len == 0 then multiset{} else Queue(h, len - 1) + multiset{h[len]}
  }

  lemma {:induction false} QueueIs(h: seq<nat>, len: nat)
    requires len < |h|
    ensures Queue(h, len) == multiset(h[1..len + 1])
  {
    if len > 0 {
      QueueIs(h, len - 1);
      OneMore(h[1..len], h[len], h[1..len + 1]);
    }
  }

  lemma {:induction false} OneMore(s: seq<nat>, x: nat, t: seq<nat>)
    requires |t| == |s| + 1 && t[..|s|] == s && t[|s|] == x
    ensures multiset(t) == multiset(s) + multiset{x}
  {
    assert t == s + [x];
  }

  ghost function Swapped(h: seq<nat>, k: nat, j: nat): seq<nat>
    requires k < |h| && j < |h|
  {
    h[k := h[j]][j := h[k]]
  }

  lemma {:induction false} SwapSame(s: seq<nat>, a: nat, b: nat)
    requires a < |s| && b < |s|
    ensures multiset(s[a := s[b]][b := s[a]]) == multiset(s)
  {
  }

  lemma {:induction false} SwapKeepsQueue(h: seq<nat>, len: nat, k: nat, j: nat)
    requires 1 <= k <= len < |h| && 1 <= j <= len
    ensures Queue(Swapped(h, k, j), len) == Queue(h, len)
  {
    QueueIs(h, len);
    QueueIs(Swapped(h, k, j), len);
    SwapInside(h, len + 1, k, j);
  }

  lemma {:induction false} SwapInside(h: seq<nat>, end: nat, k: nat, j: nat)
    requires 1 <= k < end <= |h| && 1 <= j < end
    ensures multiset(Swapped(h, k, j)[1..end]) == multiset(h[1..end])
  {
    var s := h[1..end];
    assert Swapped(h, k, j)[1..end] == s[k - 1 := s[j - 1]][j - 1 := s[k - 1]];
    SwapSame(s, k - 1, j - 1);
  }

  /** The sons of the hole are no smaller than its father. */
  ghost predicate HoleFits(h: seq<nat>, len: nat, freq: seq<nat>, depth: seq<nat>, k: nat, hole: nat)
    requires |freq| == |depth| && Nodes(h, len, |freq|) && 1 <= hole <= len && 1 <= k
  {
    k <= hole / 2 ==>
      forall i :: 2 <= i <= len && i / 2 == hole ==> Smaller(freq, depth, h[hole / 2], h[i])
  }

  lemma {:induction false} MoveHole(h: seq<nat>, len: nat, freq: seq<nat>, depth: seq<nat>, k0: nat, k: nat, j: nat)
    requires |freq| == |depth| && Nodes(h, len, |freq|) && 1 <= k0 <= k <= len
    requires 2 <= j <= len && j / 2 == k
    requires forall i :: 2 <= i <= len && i / 2 == k ==> Smaller(freq, depth, h[j], h[i])
    requires Smaller(freq, depth, h[j], h[k])
    requires HeapExcept(h, len, freq, depth, k0, k) && HoleFits(h, len, freq, depth, k0, k)
    ensures HeapExcept(Swapped(h, k, j), len, freq, depth, k0, j)
    ensures HoleFits(Swapped(h, k, j), len, freq, depth, k0, j)
  {
    var g := Swapped(h, k, j);
    forall i | 2 <= i <= len && k0 <= i / 2 && i / 2 != j ensures FatherOk(g, freq, depth, i) {
      assert i / 2 != k ==> FatherOk(h, freq, depth, i);
      assert k0 <= k / 2 && i == k ==> HoleFits(h, len, freq, depth, k0, k);
    }
    forall i | 2 <= i <= len && i / 2 == j ensures Smaller(freq, depth, g[j / 2], g[i]) {
      assert FatherOk(h, freq, depth, i);
    }
  }

  lemma {:induction false} Bigger(freq: seq<nat>, depth: seq<nat>, a: nat, b: nat)
    requires a < |freq| == |depth| && b < |freq|
    ensures Smaller(freq, depth, a, b) || Smaller(freq, depth, b, a)
  {
  }

  /** What sifting down has to keep, as if v stood at the hole. */
  ghost predicate Sifting(h: seq<nat>, len: nat, freq: seq<nat>, depth: seq<nat>, k0: nat, k: nat, queue: multiset<nat>)
  {
    && |freq| == |depth| && Nodes(h, len, |freq|) && 1 <= k0 <= k <= len
    && HeapExcept(h, len, freq, depth, k0, k) && HoleFits(h, len, freq, depth, k0, k)
    && Queue(h, len) == queue
  }

  lemma {:induction false} SiftStep(h: seq<nat>, len: nat, freq: seq<nat>, depth: seq<nat>, k0: nat, k: nat, j: nat, queue: multiset<nat>)
    requires Sifting(h, len, freq, depth, k0, k, queue) && 2 <= j <= len && j / 2 == k
    requires forall i :: 2 <= i <= len && i / 2 == k ==> Smaller(freq, depth, h[j], h[i])
    requires !Smaller(freq, depth, h[k], h[j])
    ensures Sifting(Swapped(h, k, j), len, freq, depth, k0, j, queue)
  {
    Bigger(freq, depth, h[k], h[j]);
    MoveHole(h, len, freq, depth, k0, k, j);
    SwapKeepsQueue(h, len, k, j);
  }

  lemma {:induction false} SiftDone(h: seq<nat>, len: nat, freq: seq<nat>, depth: seq<nat>, k0: nat, k: nat, queue: multiset<nat>)
    requires Sifting(h, len, freq, depth, k0, k, queue)
    requires forall i :: 2 <= i <= len && i / 2 == k ==> Smaller(freq, depth, h[k], h[i])
    ensures HeapFrom(h, len, freq, depth, k0)
  {
    forall i | 2 <= i <= len && k0 <= i / 2 ensures FatherOk(h, freq, depth, i) {
      assert i / 2 == k ==> Smaller(freq, depth, h[k], h[i]);
    }
  }

  lemma {:induction false} Between(freq: seq<nat>, depth: seq<nat>, h: seq<nat>, len: nat, v: nat, k: nat, j: nat)
    requires |freq| == |depth| && Nodes(h, len, |freq|) && v < |freq| && 1 <= j <= len
    requires forall i :: 2 <= i <= len && i / 2 == k ==> Smaller(freq, depth, h[j], h[i])
    requires Smaller(freq, depth, v, h[j])
    ensures forall i :: 2 <= i <= len && i / 2 == k ==> Smaller(freq, depth, v, h[i])
  {
  }

  /** `pqdownheap`: the heap property, held below slot k0, is extended to k0. */
  method PqDownHeap(heap: array<nat>, len: nat, freq: seq<nat>, depth: seq<nat>, k0: nat)
    requires |freq| == |depth| && len < heap.Length && Nodes(heap[..], len, |freq|)
    requires 1 <= k0 <= len && HeapFrom(heap[..], len, freq, depth, k0 + 1)
    modifies heap
    ensures Nodes(heap[..], len, |freq|) && HeapFrom(heap[..], len, freq, depth, k0)
    ensures Queue(heap[..], len) == old(Queue(heap[..], len))
    ensures heap[len + 1..] == old(heap[len + 1..])
  {
    var k := k0;
    var v := heap[k];
    var j := 2 * k;
    ghost var h := heap[..];
    ghost var queue := Queue(h, len);
    while j <= len
      invariant j == 2 * k && |h| == heap.Length && Sifting(h, len, freq, depth, k0, k, queue)
      invariant h[k] == v && forall i :: 0 <= i < heap.Length && i != k ==> heap[i] == h[i]
      invariant h[len + 1..] == old(heap[len + 1..])
    {
      j := SmallerSon(heap, len, freq, depth, j, h);
      if Smaller(freq, depth, v, heap[j]) {
        Between(freq, depth, h, len, v, k, j);
        break;
      }
      SiftStep(h, len, freq, depth, k0, k, j, queue);
      h := Swapped(h, k, j);
      heap[k] := heap[j];
      k := j;
      j := 2 * j;
    }
    heap[k] := v;
    assert heap[..] == h;
    SiftDone(h, len, freq, depth, k0, k, queue);
  }

  method SmallerSon(heap: array<nat>, len: nat, freq: seq<nat>, depth: seq<nat>, j0: nat, ghost h: seq<nat>)
    returns (j: nat)
    requires |freq| == |depth| && |h| == heap.Length && Nodes(h, len, |freq|) && j0 % 2 == 0 && 2 <= j0 <= len
    requires heap[j0] == h[j0] && (j0 < len ==> heap[j0 + 1] == h[j0 + 1])
    ensures j0 <= j <= len && j / 2 == j0 / 2
    ensures forall i :: 2 <= i <= len && i / 2 == j0 / 2 ==> Smaller(freq, depth, h[j], h[i])
  {
    j := j0;
    if j < len && Smaller(freq, depth, heap[j + 1], heap[j]) {
      j := j + 1;
    }
    SmallestSon(h, len, freq, depth, j0 / 2, j);
  }

  lemma {:induction false} SmallestSon(h: seq<nat>, len: nat, freq: seq<nat>, depth: seq<nat>, k: nat, j: nat)
    requires |freq| == |depth| && Nodes(h, len, |freq|) && 1 <= k
    requires 2 * k <= j <= 2 * k + 1 && j <= len
    requires j == 2 * k ==> j == len || !Smaller(freq, depth, h[j + 1], h[j])
    requires j == 2 * k + 1 ==> Smaller(freq, depth, h[j], h[j - 1])
    ensures forall i :: 2 <= i <= len && i / 2 == k ==> Smaller(freq, depth, h[j], h[i])
  {
  }

  /** The first node of a heap is the smallest. */
  lemma {:induction false} FirstIsSmallest(h: seq<nat>, len: nat, freq: seq<nat>, depth: seq<nat>, i: nat)
    requires |freq| == |depth| && Nodes(h, len, |freq|) && HeapFrom(h, len, freq, depth, 1) && 1 <= i <= len
    ensures Smaller(freq, depth, h[1], h[i])
    decreases i
  {
    if i > 1 {
      FirstIsSmallest(h, len, freq, depth, i / 2);
      assert FatherOk(h, freq, depth, i);
    }
  }

  /** The initial heap: establish sub-heaps of increasing size. */
  method Heapify(heap: array<nat>, len: nat, freq: seq<nat>, depth: seq<nat>)
    requires |freq| == |depth| && len < heap.Length && Nodes(heap[..], len, |freq|)
    modifies heap
    ensures Nodes(heap[..], len, |freq|) && HeapFrom(heap[..], len, freq, depth, 1)
    ensures Queue(heap[..], len) == old(Queue(heap[..], len))
    ensures heap[len + 1..] == old(heap[len + 1..])
  {
    var n: nat := len / 2;
    while n >= 1
      invariant n <= len / 2 && Nodes(heap[..], len, |freq|) && HeapFrom(heap[..], len, freq, depth, n + 1)
      invariant Queue(heap[..], len) == old(Queue(heap[..], len))
      invariant heap[len + 1..] == old(heap[len + 1..])
    {
      PqDownHeap(heap, len, freq, depth, n);
      n := n - 1;
    }
  }

  /** The queue without its first node. */
  ghost function Rest(h: seq<nat>, len: nat): multiset<nat>
    requires len < |h|
  {
    if len <= 1 then multiset{} else Rest(h, len - 1) + multiset{h[len]}
  }

  lemma {:induction false} FirstAndRest(h: seq<nat>, len: nat)
    requires 1 <= len < |h|
    ensures Queue(h, len) == Rest(h, len) + multiset{h[1]}
  {
    if len > 1 {
      FirstAndRest(h, len - 1);
    } else {
      assert Queue(h, 0) == multiset{};
    }
  }

  lemma {:induction false} RestKeeps(h: seq<nat>, len: nat, x: nat)
    requires 1 <= len < |h|
    ensures Rest(h[1 := x], len) == Rest(h, len)
  {
    if len > 1 {
      RestKeeps(h, len - 1, x);
    }
  }

  lemma {:induction false} QueueReplaceFirst(h: seq<nat>, len: nat, x: nat)
    requires 1 <= len < |h|
    ensures Queue(h[1 := x], len) == Rest(h, len) + multiset{x}
  {
    FirstAndRest(h[1 := x], len);
    RestKeeps(h, len, x);
  }

  /** A whole heap with its first node replaced is a heap below the first slot. */
  lemma {:induction false} ReplaceFirst(h: seq<nat>, len: nat, freq: seq<nat>, depth: seq<nat>, x: nat)
    requires |freq| == |depth| && Nodes(h, len, |freq|) && HeapFrom(h, len, freq, depth, 1)
    requires 1 <= len && x < |freq|
    ensures Nodes(h[1 := x], len, |freq|) && HeapFrom(h[1 := x], len, freq, depth, 2)
  {
    forall i | 2 <= i <= len && 2 <= i / 2 ensures FatherOk(h[1 := x], freq, depth, i) {
      assert FatherOk(h, freq, depth, i);
    }
  }

  lemma {:induction false} RemoveFirst(h: seq<nat>, len: nat, freq: seq<nat>, depth: seq<nat>)
    requires |freq| == |depth| && Nodes(h, len, |freq|) && HeapFrom(h, len, freq, depth, 1) && 2 <= len
    ensures Nodes(h[1 := h[len]], len - 1, |freq|) && HeapFrom(h[1 := h[len]], len - 1, freq, depth, 2)
    ensures Queue(h, len) == Queue(h[1 := h[len]], len - 1) + multiset{h[1]}
  {
    ReplaceFirst(h, len - 1, freq, depth, h[len]);
    QueueRemoves(h, len, len - 1);
  }

  lemma {:induction false} QueueRemoves(h: seq<nat>, len: nat, less: nat)
    requires 2 <= len < |h| && less == len - 1
    ensures Queue(h, len) == Queue(h[1 := h[len]], less) + multiset{h[1]}
  {
    FirstAndRest(h, less);
    QueueReplaceFirst(h, less, h[len]);
    assert Queue(h, len) == Queue(h, less) + multiset{h[len]};
  }

  /** `pqremove`: take the smallest node out of the queue. */
  method PqRemove(heap: array<nat>, len: nat, freq: seq<nat>, depth: seq<nat>) returns (top: nat, len': nat)
    requires |freq| == |depth| && 2 <= len < heap.Length && Nodes(heap[..], len, |freq|)
    requires HeapFrom(heap[..], len, freq, depth, 1)
    modifies heap
    ensures len' == len - 1 && top == old(heap[1]) && top < |freq|
    ensures Nodes(heap[..], len', |freq|) && HeapFrom(heap[..], len', freq, depth, 1)
    ensures old(Queue(heap[..], len)) == Queue(heap[..], len') + multiset{top}
    ensures heap[len + 1..] == old(heap[len + 1..])
  {
    ghost var h := heap[..];
    top := heap[1];
    heap[1] := heap[len];
    len' := len - 1;
    assert heap[..] == h[1 := h[len]];
    RemoveFirst(h, len, freq, depth);
    PqDownHeap(heap, len', freq, depth, 1);
  }
}
