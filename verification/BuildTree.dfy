/**
 `build_tree` and `gen_bitlen` of trees.c: Huffman trees by repeated combination of the two
 least frequent nodes, and code lengths limited to max_length.

 Nodes below `elems` are symbols, nodes from `elems` on are internal, numbered in the order
 they are created.  `out` is the list of nodes in the order they leave the queue; the
 source keeps it downward from the end of the heap array.
 */
module BuildTree {
  import opened Sums
  import opened NodeHeap
  import opened HuffmanTree
  import opened Bits
  import opened Huffman

  /** static_tree_desc: the constant side of a tree.  Codes from `base` on have extra bits. */
  datatype Desc = Desc(elems: nat, maxLength: nat, base: nat, extra: seq<nat>, hasStatic: bool, staticLens: seq<nat>)
  {
    predicate Valid()
    {
      && 3 <= elems <= MAX_ELEMS && 1 <= maxLength <= MAX_BITS && elems <= Pow2(maxLength)
      && elems <= base + |extra| && (hasStatic ==> |staticLens| == elems)
      && Xbits(0) == 0 && Xbits(1) == 0 && Xbits(2) == 0
    }

    function Xbits(n: nat): nat
    {
      if base <= n < base + |extra| then extra[n - base] else 0
    }

    function StaticLen(n: nat): nat
    {
      if hasStatic && n < |staticLens| then staticLens[n] else 0
    }
  }

  const HEAP_SIZE := 573
  const MAX_ELEMS := 286

  /** out[2i] and out[2i+1] are the sons of internal node elems + i. */
  ghost predicate PairOk(out: seq<nat>, freq: seq<nat>, dl: seq<nat>, elems: nat, i: nat)
  {
    && 2 * i + 1 < |out| && elems + i < |freq| == |dl|
    && var a, b := out[2 * i], out[2 * i + 1];
       && a < elems + i && b < elems + i
       && dl[a] == elems + i && dl[b] == elems + i
       && freq[elems + i] == freq[a] + freq[b]
  }

  ghost predicate AllPairs(out: seq<nat>, freq: seq<nat>, dl: seq<nat>, elems: nat, k: nat)
  {
    k == 0 || (AllPairs(out, freq, dl, elems, k - 1) && PairOk(out, freq, dl, elems, k - 1))
  }

  /** Frequency of the last node of a list. */
  ghost function Top(out: seq<nat>, freq: seq<nat>): nat
  {
    if out == [] || out[|out| - 1] >= |freq| then 0 else freq[out[|out| - 1]]
  }

  ghost predicate Ascending(out: seq<nat>, freq: seq<nat>)
  {
    out == [] ||
    (var t := |out| - 1; Ascending(out[..t], freq) && out[t] < |freq| && Top(out[..t], freq) <= freq[out[t]])
  }

  /** How often a node exists after k combinations: once for a leaf or an internal node. */
  ghost function Exists(leaves: set<nat>, elems: nat, k: nat, x: nat): nat
  {
    if x in leaves || elems <= x < elems + k then 1 else 0
  }

  /** Putting the list back into the queue, last node first, restores every node. */
  ghost predicate Partition(queue: multiset<nat>, out: seq<nat>, leaves: set<nat>, elems: nat, k: nat)
    decreases |out|
  {
    if out == [] then forall x: nat :: queue[x] == Exists(leaves, elems, k, x)
    else Partition(queue + multiset{out[|out| - 1]}, out[..|out| - 1], leaves, elems, k)
  }

  lemma {:induction false} PartitionIs(queue: multiset<nat>, out: seq<nat>, leaves: set<nat>, elems: nat, k: nat)
    ensures Partition(queue, out, leaves, elems, k) <==>
              forall x: nat :: queue[x] + multiset(out)[x] == Exists(leaves, elems, k, x)
    decreases |out|
  {
    if out != [] {
      var n := |out| - 1;
      var queue1: multiset<nat> := queue + multiset{out[n]};
      PartitionIs(queue1, out[..n], leaves, elems, k);
      assert out == out[..n] + [out[n]];
      assert forall x: nat :: queue[x] + multiset(out)[x] == queue1[x] + multiset(out[..n])[x];
    }
  }

  /** After k combinations: every node is in the queue or out of it, once. */
  ghost predicate Forest(queue: multiset<nat>, out: seq<nat>, freq: seq<nat>, dl: seq<nat>,
                         elems: nat, leaves: set<nat>, k: nat)
  {
    && |out| == 2 * k && elems + k <= |freq| == |dl|
    && Partition(queue, out, leaves, elems, k)
    && (forall x :: x in leaves ==> x < elems)
    && AllPairs(out, freq, dl, elems, k) && Ascending(out, freq)
  }

  lemma {:induction false} InQueue(queue: multiset<nat>, out: seq<nat>, freq: seq<nat>, dl: seq<nat>,
                elems: nat, leaves: set<nat>, k: nat, x: nat)
    requires Forest(queue, out, freq, dl, elems, leaves, k) && x in queue
    ensures queue[x] == 1 && x !in out && x < elems + k && (x in leaves || elems <= x)
  {
    PartitionIs(queue, out, leaves, elems, k);
    assert queue[x] + multiset(out)[x] == Exists(leaves, elems, k, x);
  }

  lemma {:induction false} NotYet(queue: multiset<nat>, out: seq<nat>, freq: seq<nat>, dl: seq<nat>,
               elems: nat, leaves: set<nat>, k: nat, t: nat)
    requires Forest(queue, out, freq, dl, elems, leaves, k) && t < |out|
    ensures out[t] < elems + k
  {
    PartitionIs(queue, out, leaves, elems, k);
    assert queue[out[t]] + multiset(out)[out[t]] == Exists(leaves, elems, k, out[t]);
  }

  lemma {:induction false} CombineNodes(queue: multiset<nat>, out: seq<nat>, elems: nat, leaves: set<nat>, k: nat,
                     n: nat, m: nat, rest: multiset<nat>)
    requires Partition(queue, out, leaves, elems, k)
    requires queue == rest + multiset{n} + multiset{m} && forall x :: x in leaves ==> x < elems
    ensures Partition(rest + multiset{elems + k}, out + [n] + [m], leaves, elems, k + 1)
  {
    var p: nat := elems + k;
    var queue': multiset<nat> := rest + multiset{p};
    var out': seq<nat> := out + [n] + [m];
    PartitionIs(queue, out, leaves, elems, k);
    assert multiset(out') == multiset(out) + multiset{n} + multiset{m};
    forall x: nat ensures queue'[x] + multiset(out')[x] == Exists(leaves, elems, k + 1, x) {
      assert queue[x] + multiset(out)[x] == Exists(leaves, elems, k, x);
    }
    PartitionIs(queue', out', leaves, elems, k + 1);
  }

  lemma {:induction false} OutBelow(queue: multiset<nat>, out: seq<nat>, freq: seq<nat>, dl: seq<nat>,
                 elems: nat, leaves: set<nat>, k: nat, x: nat)
    requires Forest(queue, out, freq, dl, elems, leaves, k) && x in queue
    ensures forall t :: 0 <= t < |out| ==> out[t] < elems + k && out[t] != x
  {
    InQueue(queue, out, freq, dl, elems, leaves, k, x);
    forall t | 0 <= t < |out| ensures out[t] < elems + k {
      NotYet(queue, out, freq, dl, elems, leaves, k, t);
    }
  }

  /** Take n and m out and put their father, elems + k, in. */
  lemma {:induction false} CombineStep(queue: multiset<nat>, out: seq<nat>, freq: seq<nat>, dl: seq<nat>,
                    elems: nat, leaves: set<nat>, k: nat, n: nat, m: nat, rest: multiset<nat>)
    requires Forest(queue, out, freq, dl, elems, leaves, k) && elems + k < |freq|
    requires queue == rest + multiset{n} + multiset{m}
    requires n < |freq| && m < |freq| && Top(out, freq) <= freq[n] <= freq[m]
    ensures var p := elems + k;
            Forest(rest + multiset{p}, out + [n] + [m], freq[p := freq[n] + freq[m]], dl[n := p][m := p],
                   elems, leaves, k + 1)
  {
    var p := elems + k;
    assert n in queue && m in queue;
    InQueue(queue, out, freq, dl, elems, leaves, k, n);
    InQueue(queue, out, freq, dl, elems, leaves, k, m);
    OutBelow(queue, out, freq, dl, elems, leaves, k, n);
    OutBelow(queue, out, freq, dl, elems, leaves, k, m);
    assert InRange(out, p);
    CombineNodes(queue, out, elems, leaves, k, n, m, rest);
    CombinePairs(out, freq, dl, elems, k, n, m);
    CombineAscending(out, freq, n, m, p, freq[n] + freq[m]);
  }

  lemma {:induction false} PairsKeep(out: seq<nat>, freq: seq<nat>, dl: seq<nat>, elems: nat, i: nat, k: nat,
                                     out': seq<nat>, freq': seq<nat>, dl': seq<nat>)
    requires AllPairs(out, freq, dl, elems, i) && i <= k && |out| == 2 * k && out <= out'
    requires |freq| == |freq'| == |dl| == |dl'| && elems + k <= |freq|
    requires forall x :: 0 <= x < elems + k ==> freq'[x] == freq[x]
    requires forall t :: 0 <= t < |out| && out[t] < |dl| ==> dl'[out[t]] == dl[out[t]]
    ensures AllPairs(out', freq', dl', elems, i)
  {
    if i > 0 {
      PairsKeep(out, freq, dl, elems, i - 1, k, out', freq', dl');
      assert PairOk(out, freq, dl, elems, i - 1);
      assert out'[2 * (i - 1)] == out[2 * (i - 1)] && out'[2 * (i - 1) + 1] == out[2 * (i - 1) + 1];
    }
  }

  lemma {:induction false} CombinePairs(out: seq<nat>, freq: seq<nat>, dl: seq<nat>, elems: nat, k: nat, n: nat, m: nat)
    requires |out| == 2 * k && elems + k < |freq| == |dl| && n < elems + k && m < elems + k
    requires AllPairs(out, freq, dl, elems, k)
    requires forall t :: 0 <= t < |out| ==> out[t] < elems + k && out[t] != n && out[t] != m
    ensures var p := elems + k;
            AllPairs(out + [n] + [m], freq[p := freq[n] + freq[m]], dl[n := p][m := p], elems, k + 1)
  {
    var p := elems + k;
    var out', freq', dl' := out + [n] + [m], freq[p := freq[n] + freq[m]], dl[n := p][m := p];
    assert out <= out' && out'[2 * k] == n && out'[2 * k + 1] == m;
    PairsKeep(out, freq, dl, elems, k, k, out', freq', dl');
    assert PairOk(out', freq', dl', elems, k);
  }

  lemma {:induction false} AscendingKeeps(out: seq<nat>, freq: seq<nat>, freq': seq<nat>, p: nat)
    requires Ascending(out, freq) && InRange(out, p) && p <= |freq| == |freq'|
    requires forall x :: 0 <= x < p ==> freq'[x] == freq[x]
    ensures Ascending(out, freq')
  {
    if out != [] {
      AscendingKeeps(out[..|out| - 1], freq, freq', p);
    }
  }

  lemma {:induction false} CombineAscending(out: seq<nat>, freq: seq<nat>, n: nat, m: nat, p: nat, f: nat)
    requires Ascending(out, freq) && InRange(out, p)
    requires n < p && m < p && p < |freq| && Top(out, freq) <= freq[n] <= freq[m]
    ensures Ascending(out + [n] + [m], freq[p := f])
  {
    var freq' := freq[p := f];
    AscendingKeeps(out, freq, freq', p);
    assert (out + [n])[..|out|] == out;
    assert Top(out, freq') == Top(out, freq) <= freq[n];
    assert Ascending(out + [n], freq') && Top(out + [n], freq') == freq[n];
    assert (out + [n] + [m])[..|out| + 1] == out + [n];
  }

  // ----- depths -----

  /** The father of out[2i] and out[2i+1] is one deeper than the deeper of them, modulo 256. */
  ghost predicate PairDepth(out: seq<nat>, depth: seq<nat>, elems: nat, i: nat)
  {
    && 2 * i + 1 < |out| && elems + i < |depth| && out[2 * i] < |depth| && out[2 * i + 1] < |depth|
    && depth[elems + i] == (Deeper(depth, out[2 * i], out[2 * i + 1]) + 1) % 256
  }

  /** Every node of the forest has been counted. */
  ghost predicate Positive(freq: seq<nat>, elems: nat, leaves: set<nat>, k: nat)
  {
    forall x: nat :: x in leaves || elems <= x < elems + k ==> x < |freq| && freq[x] >= 1
  }

  /** Depths after k combinations, and the order in which nodes left the queue. */
  ghost predicate Levels(out: seq<nat>, freq: seq<nat>, depth: seq<nat>, elems: nat, leaves: set<nat>, k: nat)
  {
    && |freq| == |depth| && elems + k <= |freq| && Positive(freq, elems, leaves, k)
    && (forall x :: 0 <= x < |depth| ==> depth[x] < 256) && (forall x :: 0 <= x < elems ==> depth[x] == 0)
    && (forall i: nat :: i < k ==> PairDepth(out, depth, elems, i))
    && Ascending(out, Ranks(freq, depth))
  }

  /** No node that left the queue comes after x. */
  ghost predicate Least(out: seq<nat>, freq: seq<nat>, depth: seq<nat>, x: nat)
  {
    |freq| == |depth| && x < |freq| && Top(out, Ranks(freq, depth)) <= Ranks(freq, depth)[x]
  }

  /** No node that left the queue is more frequent than x, then. */
  lemma {:induction false} LeastTop(out: seq<nat>, freq: seq<nat>, depth: seq<nat>, elems: nat, leaves: set<nat>, k: nat, x: nat)
    requires Levels(out, freq, depth, elems, leaves, k) && Least(out, freq, depth, x)
    ensures Top(out, freq) <= freq[x]
  {
  }

  lemma {:induction false} SmallerRank(freq: seq<nat>, depth: seq<nat>, n: nat, m: nat)
    requires n < |freq| == |depth| && m < |freq| && Smaller(freq, depth, n, m) && depth[n] < 256
    ensures Ranks(freq, depth)[n] <= Ranks(freq, depth)[m]
  {
  }

  lemma {:induction false} PairsDeep(out: seq<nat>, depth: seq<nat>, elems: nat, k: nat, n: nat, m: nat, depth': seq<nat>)
    requires |out| == 2 * k && InRange(out, elems + k) && elems + k < |depth| && n < elems + k && m < elems + k
    requires forall i: nat :: i < k ==> PairDepth(out, depth, elems, i)
    requires depth' == depth[elems + k := (Deeper(depth, n, m) + 1) % 256]
    ensures forall i: nat :: i < k + 1 ==> PairDepth(out + [n] + [m], depth', elems, i)
  {
    var out' := out + [n] + [m];
    forall i: nat | i < k + 1 ensures PairDepth(out', depth', elems, i) {
      if i < k {
        assert PairDepth(out, depth, elems, i);
        assert out'[2 * i] == out[2 * i] && out'[2 * i + 1] == out[2 * i + 1];
      }
    }
  }

  lemma {:induction false} LevelsNext(out: seq<nat>, freq: seq<nat>, depth: seq<nat>, elems: nat, leaves: set<nat>, k: nat,
                                      n: nat, m: nat, freq': seq<nat>, depth': seq<nat>)
    requires Levels(out, freq, depth, elems, leaves, k) && |out| == 2 * k && InRange(out, elems + k) && elems + k < |freq|
    requires n < elems + k && m < elems + k && Smaller(freq, depth, n, m) && Least(out, freq, depth, n)
    requires freq[n] >= 1 && (forall x :: x in leaves ==> x < elems)
    requires freq' == freq[elems + k := freq[n] + freq[m]]
    requires depth' == depth[elems + k := (Deeper(depth, n, m) + 1) % 256]
    ensures Levels(out + [n] + [m], freq', depth', elems, leaves, k + 1)
  {
    var p, w := elems + k, Ranks(freq, depth);
    PairsDeep(out, depth, elems, k, n, m, depth');
    SmallerRank(freq, depth, n, m);
    RanksChanged(freq, depth, p, freq'[p], depth'[p]);
    CombineAscending(out, w, n, m, p, Ranks(freq', depth')[p]);
    StillPositive(freq, elems, leaves, k, k + 1, freq'[p]);
  }

  lemma {:induction false} RanksChanged(freq: seq<nat>, depth: seq<nat>, p: nat, f: nat, d: nat)
    requires p < |freq| == |depth|
    ensures Ranks(freq[p := f], depth[p := d]) == Ranks(freq, depth)[p := Ranks(freq[p := f], depth[p := d])[p]]
  {
  }

  lemma {:induction false} StillPositive(freq: seq<nat>, elems: nat, leaves: set<nat>, k: nat, next: nat, f: nat)
    requires Positive(freq, elems, leaves, k) && elems + k < |freq| && next == k + 1 && f >= 1
    ensures Positive(freq[elems + k := f], elems, leaves, next)
  {
  }

  /** The next node to leave the queue comes after the two that left it last. */
  lemma {:induction false} LeastNext(out: seq<nat>, freq': seq<nat>, depth': seq<nat>, n: nat, m: nat, x: nat)
    requires m < |freq'| == |depth'| && x < |freq'| && Smaller(freq', depth', m, x) && depth'[m] < 256
    ensures Least(out + [n] + [m], freq', depth', x)
  {
    SmallerRank(freq', depth', m, x);
    assert (out + [n] + [m])[|out| + 1] == m;
  }

  // ----- the combination loop -----

  ghost predicate Stored(h: seq<nat>, out: seq<nat>)
  {
    |h| == HEAP_SIZE && |out| <= HEAP_SIZE && forall t :: 0 <= t < |out| ==> h[HEAP_SIZE - 1 - t] == out[t]
  }

  lemma {:induction false} QueueHolds(h: seq<nat>, len: nat, i: nat)
    requires 1 <= i <= len < |h|
    ensures h[i] in Queue(h, len)
  {
    QueueIs(h, len);
    assert h[1..len + 1][i - 1] == h[i];
  }

  lemma {:induction false} SlotOf(h: seq<nat>, len: nat, x: nat) returns (i: nat)
    requires len < |h| && x in Queue(h, len)
    ensures 1 <= i <= len && h[i] == x
  {
    QueueIs(h, len);
    var j :| 0 <= j < |h[1..len + 1]| && h[1..len + 1][j] == x;
    i := j + 1;
  }

  /** Every queued node is at least as frequent as the first. */
  lemma {:induction false} QueueAbove(h: seq<nat>, len: nat, freq: seq<nat>, depth: seq<nat>, x: nat)
    requires |freq| == |depth| && Nodes(h, len, |freq|) && HeapFrom(h, len, freq, depth, 1) && 1 <= len
    requires x in Queue(h, len)
    ensures x < |freq| && Smaller(freq, depth, h[1], x)
  {
    var i := SlotOf(h, len, x);
    FirstIsSmallest(h, len, freq, depth, i);
  }

  /** Frequencies of nodes that are not queued do not matter to the heap. */
  lemma {:induction false} HeapIgnores(h: seq<nat>, len: nat, freq: seq<nat>, depth: seq<nat>, p: nat, f: nat, d: nat)
    requires |freq| == |depth| && Nodes(h, len, |freq|) && HeapFrom(h, len, freq, depth, 1) && 1 <= len
    requires p < |freq| && p !in Queue(h, len)
    ensures Nodes(h, len, |freq|) && HeapFrom(h, len, freq[p := f], depth[p := d], 1)
  {
    var freq', depth' := freq[p := f], depth[p := d];
    forall i: nat | 2 <= i <= len ensures FatherOk(h, freq', depth', i) {
      assert FatherOk(h, freq, depth, i);
      QueueHolds(h, len, i);
      QueueHolds(h, len, i / 2);
    }
  }

  /** What taking the two smallest nodes out gives. */
  lemma {:induction false} TwoSmallest(h: seq<nat>, len: nat, h1: seq<nat>, freq: seq<nat>, depth: seq<nat>, n: nat) returns (rest: multiset<nat>)
    requires |freq| == |depth| && 2 <= len && Nodes(h, len, |freq|) && HeapFrom(h, len, freq, depth, 1) && n == h[1]
    requires Nodes(h1, len - 1, |freq|) && HeapFrom(h1, len - 1, freq, depth, 1)
    requires Queue(h, len) == Queue(h1, len - 1) + multiset{n}
    ensures Queue(h1, len - 1) == rest + multiset{h1[1]}
    ensures Smaller(freq, depth, n, h1[1]) && forall x :: x in rest ==> x < |freq| && Smaller(freq, depth, h1[1], x)
  {
    FirstAndRest(h1, len - 1);
    QueueAbove(h, len, freq, depth, h1[1]);
    rest := Rest(h1, len - 1);
    RestAbove(h1, len - 1, freq, depth);
  }

  lemma {:induction false} RestAbove(h: seq<nat>, len: nat, freq: seq<nat>, depth: seq<nat>)
    requires |freq| == |depth| && Nodes(h, len, |freq|) && HeapFrom(h, len, freq, depth, 1) && 1 <= len
    ensures forall x :: x in Rest(h, len) ==> x < |freq| && Smaller(freq, depth, h[1], x)
  {
    FirstAndRest(h, len);
    forall x | x in Rest(h, len) ensures x < |freq| && Smaller(freq, depth, h[1], x) {
      QueueAbove(h, len, freq, depth, x);
    }
  }

  /** The heap property with the queue as a collection. */
  ghost predicate HeapOk(h: seq<nat>, len: nat, freq: seq<nat>, depth: seq<nat>, queue: multiset<nat>)
  {
    |freq| == |depth| && Nodes(h, len, |freq|) && HeapFrom(h, len, freq, depth, 1) && Queue(h, len) == queue
  }

  lemma {:induction false} StoredKeeps(h: seq<nat>, h': seq<nat>, len: nat, out: seq<nat>)
    requires Stored(h, out) && |h'| == |h| && |out| < HEAP_SIZE - len && h'[len + 1..] == h[len + 1..]
    ensures Stored(h', out)
  {
    forall i | len < i < HEAP_SIZE ensures h'[i] == h[i] {
      assert h'[len + 1..][i - len - 1] == h[len + 1..][i - len - 1];
    }
  }

  lemma {:induction false} HeapAgrees(h: seq<nat>, h': seq<nat>, len: nat, freq: seq<nat>, depth: seq<nat>, queue: multiset<nat>)
    requires HeapOk(h, len, freq, depth, queue) && |h'| == |h| && forall i :: 1 <= i <= len ==> h'[i] == h[i]
    ensures HeapOk(h', len, freq, depth, queue)
  {
    QueueIs(h, len);
    QueueIs(h', len);
    assert h'[1..len + 1] == h[1..len + 1];
    forall i | 2 <= i <= len ensures FatherOk(h', freq, depth, i) {
      assert FatherOk(h, freq, depth, i);
    }
  }

  /** Take the two least frequent nodes out of the queue and append them to the list. */
  method TakeTwo(heap: array<nat>, len: nat, max: nat, freq: seq<nat>, depth: seq<nat>,
                 ghost queue: multiset<nat>, ghost out: seq<nat>)
    returns (n: nat, m: nat, len': nat, max': nat, ghost rest: multiset<nat>)
    requires 2 <= len <= max - 2 && max <= heap.Length && |out| == HEAP_SIZE - max
    requires HeapOk(heap[..], len, freq, depth, queue) && Stored(heap[..], out)
    modifies heap
    ensures len' == len - 1 && max' == max - 2 && n < |freq| && m < |freq| && Smaller(freq, depth, n, m) && n == old(heap[1])
    ensures queue == rest + multiset{m} + multiset{n} && forall x :: x in rest ==> x < |freq| && Smaller(freq, depth, m, x)
    ensures HeapOk(heap[..], len', freq, depth, rest + multiset{m}) && heap[1] == m
    ensures Stored(heap[..], out + [n] + [m])
  {
    ghost var h := heap[..];
    n, len' := PqRemove(heap, len, freq, depth);
    ghost var h1 := heap[..];
    rest := TwoSmallest(h, len, h1, freq, depth, n);
    StoredKeeps(h, h1, len, out);
    m := heap[1];
    max' := max - 1;
    heap[max'] := n;
    max' := max' - 1;
    heap[max'] := m;
    HeapAgrees(h1, heap[..], len', freq, depth, rest + multiset{m});
  }

  /** Put the new node in the first slot. */
  method AddFather(heap: array<nat>, len: nat, freq: seq<nat>, depth: seq<nat>, node: nat, f: nat, d: nat,
                   ghost rest: multiset<nat>, ghost m: nat, ghost out: seq<nat>)
    requires 1 <= len < heap.Length && HeapOk(heap[..], len, freq, depth, rest + multiset{m}) && heap[1] == m
    requires Stored(heap[..], out) && |out| < HEAP_SIZE - len && node < |freq| && node !in rest + multiset{m}
    modifies heap
    ensures HeapOk(heap[..], len, freq[node := f], depth[node := d], rest + multiset{node}) && Stored(heap[..], out)
  {
    ghost var h := heap[..];
    FatherIn(h, len, freq, depth, node, f, d, rest);
    heap[1] := node;
    assert heap[..] == h[1 := node];
    PqDownHeap(heap, len, freq[node := f], depth[node := d], 1);
    StoredKeeps(h[1 := node], heap[..], len, out);
  }

  /** Symbols keep their frequencies, and symbols outside the tree their lengths. */
  ghost predicate SymbolsKept(freq: seq<nat>, freq': seq<nat>, dl: seq<nat>, dl': seq<nat>, elems: nat, leaves: set<nat>)
  {
    var sizes := |freq'| == |freq| == |dl'| == |dl| && elems <= |freq|;
    sizes
    && (forall x :: 0 <= x < elems ==> freq'[x] == freq[x])
    && (forall x :: 0 <= x < elems && x !in leaves ==> dl'[x] == dl[x])
  }

  lemma {:induction false} ForestNext(queue: multiset<nat>, out: seq<nat>, freq: seq<nat>, dl: seq<nat>,
                   elems: nat, leaves: set<nat>, k: nat, n: nat, m: nat, rest: multiset<nat>, p: nat, freq': seq<nat>)
    requires Forest(queue, out, freq, dl, elems, leaves, k) && p == elems + k < |freq|
    requires queue == rest + multiset{m} + multiset{n}
    requires n < |freq| && m < |freq| && Top(out, freq) <= freq[n] <= freq[m]
    requires freq' == freq[p := freq[n] + freq[m]]
    ensures n < |dl| && m < |dl|
    ensures SymbolsKept(freq, freq', dl, dl[n := p][m := p], elems, leaves)
    ensures Forest(rest + multiset{p}, out + [n] + [m], freq', dl[n := p][m := p], elems, leaves, k + 1)
    ensures m < p && Top(out + [n] + [m], freq') == freq[m]
  {
    assert n in queue && m in queue;
    CombineStep(queue, out, freq, dl, elems, leaves, k, n, m, rest);
    InQueue(queue, out, freq, dl, elems, leaves, k, n);
    InQueue(queue, out, freq, dl, elems, leaves, k, m);
    assert (out + [n] + [m])[|out| + 1] == m;
  }

  ghost predicate Sizes(len: nat, max: nat, elems: nat, total: nat, k: nat)
  {
    max == HEAP_SIZE - 2 * k && total <= elems <= MAX_ELEMS && 1 <= len && len + k == total
  }

  /** The loop's whole state after k combinations. */
  ghost predicate Combining(h: seq<nat>, len: nat, max: nat, freq: seq<nat>, dl: seq<nat>, depth: seq<nat>,
                            elems: nat, leaves: set<nat>, total: nat, out: seq<nat>, k: nat, queue: multiset<nat>)
  {
    var sizes := Sizes(len, max, elems, total, k) && |freq| == 2 * elems + 1 && 1 < |h|;
    var stored := HeapOk(h, len, freq, depth, queue) && Stored(h, out);
    var forest := Forest(queue, out, freq, dl, elems, leaves, k);
    var levels := Levels(out, freq, depth, elems, leaves, k) && 1 < |h| && Least(out, freq, depth, h[1]);
    sizes && stored && forest && levels
  }

  /** Replace the two least frequent nodes by their father. */
  method CombineHeap(heap: array<nat>, len: nat, max: nat, node: nat, freq: seq<nat>, depth: seq<nat>,
                     ghost queue: multiset<nat>, ghost out: seq<nat>)
    returns (n: nat, m: nat, len': nat, max': nat, freq': seq<nat>, depth': seq<nat>, ghost rest: multiset<nat>)
    requires 2 <= len <= max - 2 && max <= heap.Length && |out| == HEAP_SIZE - max
    requires HeapOk(heap[..], len, freq, depth, queue) && Stored(heap[..], out)
    requires node < |freq| && node !in queue && freq[heap[1]] >= 1
    modifies heap
    ensures len' == len - 1 && max' == max - 2 && n < |freq| && m < |freq| && Smaller(freq, depth, n, m)
    ensures queue == rest + multiset{m} + multiset{n} && n == old(heap[1])
    ensures freq' == freq[node := freq[n] + freq[m]] && depth' == depth[node := (Deeper(depth, n, m) + 1) % 256]
    ensures HeapOk(heap[..], len', freq', depth', rest + multiset{node})
    ensures Stored(heap[..], out + [n] + [m])
    ensures m != node && heap[1] < |freq| && Smaller(freq', depth', m, heap[1])
  {
    n, m, len', max', rest := TakeTwo(heap, len, max, freq, depth, queue, out);
    var f := freq[n] + freq[m];
    var d := ((if depth[n] >= depth[m] then depth[n] else depth[m]) + 1) % 256;
    freq' := freq[node := f];
    depth' := depth[node := d];
    AddFather(heap, len', freq, depth, node, f, d, rest, m, out + [n] + [m]);
    QueueHolds(heap[..], len', 1);
    assert heap[1] in rest || heap[1] == node;
  }

  lemma {:induction false} FirstCounted(h: seq<nat>, len: nat, queue: multiset<nat>, out: seq<nat>, freq: seq<nat>, dl: seq<nat>,
                                        depth: seq<nat>, elems: nat, leaves: set<nat>, k: nat)
    requires HeapOk(h, len, freq, depth, queue) && 1 <= len && Forest(queue, out, freq, dl, elems, leaves, k)
    requires Positive(freq, elems, leaves, k)
    ensures freq[h[1]] >= 1
  {
    QueueHolds(h, len, 1);
    InQueue(queue, out, freq, dl, elems, leaves, k, h[1]);
  }

  lemma {:induction false} LevelsKept(queue: multiset<nat>, out: seq<nat>, freq: seq<nat>, dl: seq<nat>, depth: seq<nat>,
                                      elems: nat, leaves: set<nat>, k: nat, n: nat, m: nat, freq': seq<nat>, depth': seq<nat>)
    requires Forest(queue, out, freq, dl, elems, leaves, k) && Levels(out, freq, depth, elems, leaves, k)
    requires n in queue && m in queue && elems + k < |freq|
    requires n < |freq| && m < |freq| && Smaller(freq, depth, n, m) && Least(out, freq, depth, n)
    requires freq' == freq[elems + k := freq[n] + freq[m]]
    requires depth' == depth[elems + k := (Deeper(depth, n, m) + 1) % 256]
    ensures Levels(out + [n] + [m], freq', depth', elems, leaves, k + 1)
  {
    InQueue(queue, out, freq, dl, elems, leaves, k, n);
    InQueue(queue, out, freq, dl, elems, leaves, k, m);
    OutBelow(queue, out, freq, dl, elems, leaves, k, n);
    LevelsNext(out, freq, depth, elems, leaves, k, n, m, freq', depth');
  }

  /** One round of the loop: combine the two least frequent nodes into a new one. */
  method Combine(heap: array<nat>, len: nat, max: nat, node: nat, freq: seq<nat>, dl: seq<nat>, depth: seq<nat>,
                 ghost elems: nat, ghost leaves: set<nat>, ghost total: nat, ghost out: seq<nat>, ghost k: nat,
                 ghost queue: multiset<nat>, ghost freq0: seq<nat>, ghost dl0: seq<nat>)
    returns (len': nat, max': nat, freq': seq<nat>, dl': seq<nat>, depth': seq<nat>,
             ghost out': seq<nat>, ghost queue': multiset<nat>)
    requires Combining(heap[..], len, max, freq, dl, depth, elems, leaves, total, out, k, queue)
    requires len >= 2 && node == elems + k && SymbolsKept(freq0, freq, dl0, dl, elems, leaves)
    modifies heap
    ensures Combining(heap[..], len', max', freq', dl', depth', elems, leaves, total, out', k + 1, queue') && len' == len - 1
    ensures SymbolsKept(freq0, freq', dl0, dl', elems, leaves)
  {
    NotQueued(queue, out, freq, dl, elems, leaves, k);
    var n, m;
    ghost var rest;
    LeastTop(out, freq, depth, elems, leaves, k, heap[1]);
    FirstCounted(heap[..], len, queue, out, freq, dl, depth, elems, leaves, k);
    n, m, len', max', freq', depth', rest := CombineHeap(heap, len, max, node, freq, depth, queue, out);
    ForestNext(queue, out, freq, dl, elems, leaves, k, n, m, rest, node, freq');
    dl' := dl[n := node][m := node];
    out', queue' := out + [n] + [m], rest + multiset{node};
    LevelsKept(queue, out, freq, dl, depth, elems, leaves, k, n, m, freq', depth');
    LeastNext(out, freq', depth', n, m, heap[1]);
    KeptAgain(freq0, freq, freq', dl0, dl, dl', elems, leaves);
  }

  lemma {:induction false} NotQueued(queue: multiset<nat>, out: seq<nat>, freq: seq<nat>, dl: seq<nat>, elems: nat, leaves: set<nat>, k: nat)
    requires Forest(queue, out, freq, dl, elems, leaves, k)
    ensures elems + k !in queue
  {
    if elems + k in queue {
      InQueue(queue, out, freq, dl, elems, leaves, k, elems + k);
    }
  }

  lemma {:induction false} FatherIn(h: seq<nat>, len: nat, freq: seq<nat>, depth: seq<nat>, p: nat, f: nat, d: nat, rest: multiset<nat>)
    requires 1 <= len < |h| && HeapOk(h, len, freq, depth, rest + multiset{h[1]})
    requires p < |freq| && p !in rest + multiset{h[1]}
    ensures Nodes(h[1 := p], len, |freq|) && HeapFrom(h[1 := p], len, freq[p := f], depth[p := d], 2)
    ensures Queue(h[1 := p], len) == rest + multiset{p}
  {
    HeapIgnores(h, len, freq, depth, p, f, d);
    ReplaceFirst(h, len, freq[p := f], depth[p := d], p);
    QueueReplaceFirst(h, len, p);
    FirstAndRest(h, len);
    SameRest(rest, Rest(h, len), h[1]);
  }

  lemma {:induction false} SameRest(a: multiset<nat>, b: multiset<nat>, x: nat)
    requires a + multiset{x} == b + multiset{x}
    ensures a == b
  {
    assert a == (a + multiset{x}) - multiset{x};
  }

  // ----- the finished tree -----

  lemma {:induction false} PairAt(out: seq<nat>, freq: seq<nat>, dl: seq<nat>, elems: nat, k: nat, i: nat)
    requires AllPairs(out, freq, dl, elems, k) && i < k
    ensures PairOk(out, freq, dl, elems, i)
    decreases k
  {
    if i < k - 1 {
      PairAt(out, freq, dl, elems, k - 1, i);
    }
  }

  lemma {:induction false} AscendingAt(out: seq<nat>, freq: seq<nat>, s: nat, t: nat)
    requires Ascending(out, freq) && s <= t < |out|
    ensures out[s] < |freq| && out[t] < |freq| && freq[out[s]] <= freq[out[t]]
    decreases |out|
  {
    var n := |out| - 1;
    if t < n {
      AscendingAt(out[..n], freq, s, t);
    } else if s < n {
      AscendingAt(out[..n], freq, s, n - 1);
    }
  }

  lemma {:induction false} Repeats(list: seq<nat>, i: nat, j: nat)
    requires i < j < |list| && list[i] == list[j]
    ensures multiset(list)[list[i]] >= 2
  {
    assert list == list[..i] + [list[i]] + list[i + 1..j] + [list[j]] + list[j + 1..];
  }

  /** A list that holds each node of a set once. */
  lemma {:induction false} ListOfNodes(list: seq<nat>, leaves: set<nat>, elems: nat, k: nat)
    requires forall x: nat :: multiset(list)[x] == Exists(leaves, elems, k, x)
    ensures Distinct(list) && Everyone(list, elems, leaves, k)
  {
    forall i: nat, j: nat | i < j < |list| ensures Differ(list, i, j) {
      if list[i] == list[j] {
        Repeats(list, i, j);
      }
    }
    forall x: nat ensures x in list <==> x in leaves || elems <= x < elems + k {
      assert x in multiset(list) <==> Exists(leaves, elems, k, x) == 1;
    }
  }

  /** The node left in the queue is the last one created. */
  lemma {:induction false} LastIsRoot(queue: multiset<nat>, out: seq<nat>, freq: seq<nat>, dl: seq<nat>,
                   elems: nat, leaves: set<nat>, k: nat, root: nat)
    requires Forest(queue, out, freq, dl, elems, leaves, k) && k >= 1 && queue == multiset{root}
    ensures root == elems + k - 1
    ensures Distinct(out + [root]) && Everyone(out + [root], elems, leaves, k)
  {
    var last := elems + k - 1;
    forall t | 0 <= t < |out| ensures out[t] != last {
      PairAt(out, freq, dl, elems, k, t / 2);
    }
    PartitionIs(queue, out, leaves, elems, k);
    assert Exists(leaves, elems, k, last) == 1;
    assert last !in multiset(out);
    assert multiset(out + [root]) == queue + multiset(out);
    ListOfNodes(out + [root], leaves, elems, k);
  }

  ghost predicate Reversed(ord: seq<nat>, out: seq<nat>)
  {
    |ord| == |out| && forall t :: 0 <= t < |out| ==> ord[t] == out[|out| - 1 - t]
  }

  lemma {:induction false} ReversedNodes(ord: seq<nat>, out: seq<nat>)
    requires Reversed(ord, out) && Distinct(out)
    ensures Distinct(ord) && forall x: nat :: x in ord <==> x in out
  {
    forall i: nat, j: nat | i < j < |ord| ensures Differ(ord, i, j) {
      assert Differ(out, |out| - 1 - j, |out| - 1 - i);
    }
    forall i | 0 <= i < |out| ensures out[i] in ord {
      assert ord[|out| - 1 - i] == out[i];
    }
  }

  lemma {:induction false} Finish(queue: multiset<nat>, out: seq<nat>, freq: seq<nat>, dl: seq<nat>,
               elems: nat, leaves: set<nat>, k: nat, root: nat, ord: seq<nat>)
    requires Forest(queue, out, freq, dl, elems, leaves, k) && k >= 1 && queue == multiset{root} && root < |freq|
    requires Top(out, freq) <= freq[root]
    requires Reversed(ord, out + [root])
    ensures Shape(ord, elems, leaves, k) && Dads(ord, dl, elems, k)
    ensures Freqs(ord, freq, elems, k) && Descending(ord, freq)
  {
    LastIsRoot(queue, out, freq, dl, elems, leaves, k, root);
    ReversedNodes(ord, out + [root]);
    var all := out + [root];
    forall t | 0 <= t <= 2 * k ensures ord[t] == all[2 * k - t] {
    }
    forall j: nat | 1 <= j <= 2 * k ensures SonOk(ord, dl, elems, k, j) && SonBelow(ord, elems, k, j) {
      FinishSon(out, freq, dl, elems, k, root, ord, j);
    }
    forall i: nat | i < k ensures FreqOk(ord, freq, elems, k, i) {
      PairAt(out, freq, dl, elems, k, i);
      assert all[2 * i] == out[2 * i] && all[2 * i + 1] == out[2 * i + 1];
    }
    FinishDescending(out, freq, root, ord);
  }

  lemma {:induction false} FinishSon(out: seq<nat>, freq: seq<nat>, dl: seq<nat>, elems: nat, k: nat, root: nat, ord: seq<nat>, j: nat)
    requires AllPairs(out, freq, dl, elems, k) && |out| == 2 * k && Reversed(ord, out + [root]) && 1 <= j <= 2 * k
    ensures SonOk(ord, dl, elems, k, j)
  {
    var t := 2 * k - j;
    PairAt(out, freq, dl, elems, k, t / 2);
    assert ord[j] == (out + [root])[t] == out[t];
    assert t == 2 * (t / 2) || t == 2 * (t / 2) + 1;
  }

  lemma {:induction false} FinishDescending(out: seq<nat>, freq: seq<nat>, root: nat, ord: seq<nat>)
    requires Ascending(out, freq) && root < |freq| && Top(out, freq) <= freq[root]
    requires Reversed(ord, out + [root])
    ensures Descending(ord, freq)
  {
    var all := out + [root];
    assert all[..|out|] == out;
    assert Ascending(all, freq);
    forall i: nat, j: nat | i <= j < |ord| ensures NotRarer(ord, freq, i, j) {
      AscendingAt(all, freq, |out| - j, |out| - i);
    }
    forall i: nat | i < |ord| ensures ord[i] < |freq| {
      assert NotRarer(ord, freq, i, i);
    }
  }

  lemma {:induction false} FinishRanked(out: seq<nat>, freq: seq<nat>, depth: seq<nat>, elems: nat, leaves: set<nat>, k: nat,
                                        root: nat, ord: seq<nat>)
    requires Levels(out, freq, depth, elems, leaves, k) && |out| == 2 * k && root < |freq| && Least(out, freq, depth, root)
    requires Reversed(ord, out + [root])
    ensures Ranked(ord, freq, depth, elems, k)
  {
    FinishDescending(out, Ranks(freq, depth), root, ord);
    forall i: nat | i < k ensures DepthOk(ord, depth, elems, k, i) {
      assert PairDepth(out, depth, elems, i);
      assert ord[2 * k - 2 * i] == (out + [root])[2 * i] && ord[2 * k - 2 * i - 1] == (out + [root])[2 * i + 1];
    }
  }

  /** All of `build_tree`'s tree, as gen_bitlen finds it from heap_max on. */
  ghost predicate TreeBuilt(h: seq<nat>, max: nat, freq: seq<nat>, dl: seq<nat>, elems: nat, leaves: set<nat>, total: nat, k: nat)
  {
    && |h| == HEAP_SIZE && max + 2 * k + 1 == HEAP_SIZE && |freq| == |dl| == 2 * elems + 1 && elems + k <= |freq|
    && 2 <= k + 1 == total <= elems <= MAX_ELEMS
    && Shape(h[max..], elems, leaves, k) && Dads(h[max..], dl, elems, k)
    && Freqs(h[max..], freq, elems, k) && Descending(h[max..], freq)
  }

  /** Combine until one node is left. */
  method CombineLoop(heap: array<nat>, len0: nat, freq0: seq<nat>, dl0: seq<nat>, depth0: seq<nat>,
                     elems: nat, ghost leaves: set<nat>, ghost total: nat, ghost queue0: multiset<nat>)
    returns (max: nat, freq: seq<nat>, dl: seq<nat>, ghost depth: seq<nat>,
             ghost out: seq<nat>, ghost k: nat, ghost queue: multiset<nat>)
    requires Combining(heap[..], len0, HEAP_SIZE, freq0, dl0, depth0, elems, leaves, total, [], 0, queue0)
    modifies heap
    ensures Combining(heap[..], 1, max, freq, dl, depth, elems, leaves, total, out, k, queue)
    ensures SymbolsKept(freq0, freq, dl0, dl, elems, leaves)
  {
    var len, deep := len0, depth0;
    max, freq, dl, k := HEAP_SIZE, freq0, dl0, 0;
    out, queue := [], queue0;
    var node := elems;
    while len >= 2
      invariant Combining(heap[..], len, max, freq, dl, deep, elems, leaves, total, out, k, queue)
      invariant node == elems + k
      invariant SymbolsKept(freq0, freq, dl0, dl, elems, leaves)
      decreases len
    {
      len, max, freq, dl, deep, out, queue :=
        Combine(heap, len, max, node, freq, dl, deep, elems, leaves, total, out, k, queue, freq0, dl0);
      node, k := node + 1, k + 1;
    }
    depth := deep;
  }

  method CombineAll(heap: array<nat>, len0: nat, freq0: seq<nat>, dl0: seq<nat>, depth0: seq<nat>,
                    elems: nat, ghost leaves: set<nat>, ghost total: nat, ghost queue0: multiset<nat>)
    returns (max: nat, freq: seq<nat>, dl: seq<nat>, ghost depth: seq<nat>, ghost k: nat)
    requires Combining(heap[..], len0, HEAP_SIZE, freq0, dl0, depth0, elems, leaves, total, [], 0, queue0)
    requires 2 <= len0
    modifies heap
    ensures TreeBuilt(heap[..], max, freq, dl, elems, leaves, total, k) && Ranked(heap[max..], freq, depth, elems, k)
    ensures SymbolsKept(freq0, freq, dl0, dl, elems, leaves)
  {
    ghost var out, queue;
    max, freq, dl, depth, out, k, queue := CombineLoop(heap, len0, freq0, dl0, depth0, elems, leaves, total, queue0);
    max := PlaceRoot(heap, max, freq, dl, depth, elems, leaves, total, out, k, queue);
  }

  method PlaceRoot(heap: array<nat>, max: nat, freq: seq<nat>, dl: seq<nat>, ghost depth: seq<nat>, ghost elems: nat,
                   ghost leaves: set<nat>, ghost total: nat, ghost out: seq<nat>, ghost k: nat, ghost queue: multiset<nat>)
    returns (max': nat)
    requires Combining(heap[..], 1, max, freq, dl, depth, elems, leaves, total, out, k, queue) && k >= 1
    modifies heap
    ensures TreeBuilt(heap[..], max', freq, dl, elems, leaves, total, k) && Ranked(heap[max'..], freq, depth, elems, k)
  {
    ghost var h := heap[..];
    LastStored(h, freq, depth, queue, out, max);
    max' := max - 1;
    heap[max'] := heap[1];
    assert heap[..] == h[max' := h[1]];
    StoredSlice(heap[..], out + [h[1]], max');
    LeastTop(out, freq, depth, elems, leaves, k, h[1]);
    Finish(queue, out, freq, dl, elems, leaves, k, h[1], heap[..][max'..]);
    FinishRanked(out, freq, depth, elems, leaves, k, h[1], heap[..][max'..]);
    assert heap[..][max'..] == heap[max'..];
  }

  lemma {:induction false} KeptAgain(f0: seq<nat>, f1: seq<nat>, f2: seq<nat>, d0: seq<nat>, d1: seq<nat>, d2: seq<nat>,
                  elems: nat, leaves: set<nat>)
    requires SymbolsKept(f0, f1, d0, d1, elems, leaves) && SymbolsKept(f1, f2, d1, d2, elems, leaves)
    ensures SymbolsKept(f0, f2, d0, d2, elems, leaves)
  {
  }

  lemma {:induction false} LastStored(h: seq<nat>, freq: seq<nat>, depth: seq<nat>, queue: multiset<nat>, out: seq<nat>, max: nat)
    requires |h| > 1 && HeapOk(h, 1, freq, depth, queue) && Stored(h, out) && 2 <= max == HEAP_SIZE - |out|
    ensures queue == multiset{h[1]} && h[1] < |freq| && Stored(h[max - 1 := h[1]], out + [h[1]])
  {
    assert Queue(h, 0) == multiset{};
  }

  lemma {:induction false} StoredSlice(h: seq<nat>, all: seq<nat>, max: nat)
    requires Stored(h, all) && max == HEAP_SIZE - |all|
    ensures Reversed(h[max..], all)
  {
    forall t | 0 <= t < |all| ensures h[max..][t] == all[|all| - 1 - t] {
      assert h[HEAP_SIZE - 1 - (|all| - 1 - t)] == all[|all| - 1 - t];
    }
  }

  // ----- the symbols in use -----

  /** The queue holds the nodes of `leaves`, which end at max_code. */
  ghost predicate Collected(h: seq<nat>, len: nat, leaves: set<nat>, max_code: int)
  {
    && len < |h| && -1 <= max_code
    && (forall x: nat :: Queue(h, len)[x] == if x in leaves then 1 else 0)
    && (forall x :: x in leaves ==> x <= max_code)
    && (max_code >= 0 ==> max_code in leaves)
  }

  lemma {:induction false} CollectOne(h: seq<nat>, len: nat, leaves: set<nat>, max_code: int, x: nat, max_code': int)
    requires Collected(h, len, leaves, max_code) && len + 1 < |h| && x !in leaves
    requires max_code' == if x > max_code then x else max_code
    ensures Collected(h[len + 1 := x], len + 1, leaves + {x}, max_code')
  {
    QueueKeeps(h, h[len + 1 := x], len);
    assert Queue(h[len + 1 := x], len + 1) == Queue(h, len) + multiset{x};
  }

  lemma {:induction false} QueueKeeps(h: seq<nat>, h': seq<nat>, len: nat)
    requires len < |h| == |h'| && forall i :: 1 <= i <= len ==> h'[i] == h[i]
    ensures Queue(h', len) == Queue(h, len)
  {
    if len > 0 {
      QueueKeeps(h, h', len - 1);
    }
  }

  /** Put every symbol in use into the queue and clear the lengths of the others. */
  method Collect(heap: array<nat>, freq: seq<nat>, dl0: seq<nat>, elems: nat)
    returns (len: nat, max_code: int, dl: seq<nat>, ghost leaves: set<nat>)
    requires elems <= MAX_ELEMS && elems <= |freq| == |dl0| && heap.Length == HEAP_SIZE
    modifies heap
    ensures len <= elems && max_code < elems && Collected(heap[..], len, leaves, max_code)
    ensures forall x: nat :: x in leaves <==> x < elems && freq[x] != 0
    ensures |dl| == |dl0| && forall x :: 0 <= x < elems && freq[x] == 0 ==> dl[x] == 0
    ensures FewLeaves(len, leaves, max_code)
  {
    len, max_code, dl, leaves := 0, -1, dl0, {};
    var n: nat := 0;
    while n < elems
      invariant n <= elems && len <= n && max_code < n && Collected(heap[..], len, leaves, max_code)
      invariant forall x: nat :: x in leaves <==> x < n && freq[x] != 0
      invariant |dl| == |dl0| && forall x :: 0 <= x < n && freq[x] == 0 ==> dl[x] == 0
      invariant FewLeaves(len, leaves, max_code)
    {
      if freq[n] != 0 {
        CollectOne(heap[..], len, leaves, max_code, n, n);
        ghost var h := heap[..];
        len := len + 1;
        heap[len] := n;
        assert heap[..] == h[len := n];
        max_code := n;
        leaves := leaves + {n};
      } else {
        dl := dl[n := 0];
      }
      n := n + 1;
    }
  }

  /** What forcing two codes adds: unused symbols 0, 1 or 2 at frequency 1. */
  ghost predicate Forced(desc: Desc, leaves0: set<nat>, leaves: set<nat>, freq0: seq<nat>, freq: seq<nat>, dummies: seq<nat>)
  {
    && Distinct(dummies) && |freq| == |freq0|
    && (forall i :: 0 <= i < |dummies| ==> dummies[i] <= 2 && dummies[i] !in leaves0)
    && (forall x: nat :: x in leaves <==> x in leaves0 || x in dummies)
    && (forall x: nat :: x < |freq| ==> freq[x] == if x in dummies then 1 else freq0[x])
  }

  ghost function StaticBits(desc: Desc, list: seq<nat>): nat
  {
    if list == [] then 0 else StaticBits(desc, list[..|list| - 1]) + desc.StaticLen(list[|list| - 1])
  }

  lemma {:induction false} ForceOne(desc: Desc, leaves0: set<nat>, leaves: set<nat>, freq0: seq<nat>, freq: seq<nat>, dummies: seq<nat>, node: nat)
    requires Forced(desc, leaves0, leaves, freq0, freq, dummies) && node <= 2 && node !in leaves && node < |freq|
    ensures Forced(desc, leaves0, leaves + {node}, freq0, freq[node := 1], dummies + [node])
    ensures StaticBits(desc, dummies + [node]) == StaticBits(desc, dummies) + desc.StaticLen(node)
  {
    var more := dummies + [node];
    assert more[..|dummies|] == dummies;
    forall i: nat, j: nat | i < j < |more| ensures Differ(more, i, j) {
      assert j < |dummies| ==> Differ(dummies, i, j);
      assert more[i] == dummies[i] && dummies[i] in dummies;
    }
    assert forall x: nat :: x in more <==> x in dummies || x == node;
  }

  method AddDummy(heap: array<nat>, len: nat, node: nat, freq: seq<nat>, ghost desc: Desc, ghost leaves0: set<nat>,
                  ghost leaves: set<nat>, ghost freq0: seq<nat>, ghost dummies: seq<nat>, ghost max0: int, ghost max1: int)
    returns (len': nat, freq': seq<nat>)
    requires heap.Length == HEAP_SIZE && len < 2 && Collected(heap[..], len, leaves, max0)
    requires Forced(desc, leaves0, leaves, freq0, freq, dummies) && node <= 2 && node !in leaves && node < |freq|
    requires max1 == if node > max0 then node else max0
    modifies heap
    ensures len' == len + 1 && Collected(heap[..], len', leaves + {node}, max1)
    ensures Forced(desc, leaves0, leaves + {node}, freq0, freq', dummies + [node])
    ensures StaticBits(desc, dummies + [node]) == StaticBits(desc, dummies) + desc.StaticLen(node)
  {
    CollectOne(heap[..], len, leaves, max0, node, max1);
    ForceOne(desc, leaves0, leaves, freq0, freq, dummies, node);
    ghost var h := heap[..];
    len' := len + 1;
    heap[len'] := node;
    assert heap[..] == h[len' := node];
    freq' := freq[node := 1];
  }

  /** Force at least two codes of non-zero frequency. */
  method ForceTwo(heap: array<nat>, len0: nat, max_code0: int, freq0: seq<nat>, desc: Desc,
                  opt_len0: int, static_len0: int, ghost leaves0: set<nat>)
    returns (len: nat, max_code: int, freq: seq<nat>, opt_len: int, static_len: int,
             ghost leaves: set<nat>, ghost dummies: seq<nat>)
    requires desc.Valid() && desc.elems <= |freq0| && heap.Length == HEAP_SIZE && len0 <= desc.elems
    requires Collected(heap[..], len0, leaves0, max_code0) && max_code0 < desc.elems
    requires FewLeaves(len0, leaves0, max_code0)
    modifies heap
    ensures len == (if len0 < 2 then 2 else len0) && max_code < desc.elems
    ensures Collected(heap[..], len, leaves, max_code)
    ensures Forced(desc, leaves0, leaves, freq0, freq, dummies) && len == len0 + |dummies|
    ensures opt_len == opt_len0 - |dummies| && static_len == static_len0 - StaticBits(desc, dummies)
  {
    len, max_code, freq, opt_len, static_len := len0, max_code0, freq0, opt_len0, static_len0;
    leaves, dummies := leaves0, [];
    while len < 2
      invariant (if len0 >= 2 then len == len0 else len0 <= len <= 2) && max_code < desc.elems
      invariant Collected(heap[..], len, leaves, max_code)
      invariant Forced(desc, leaves0, leaves, freq0, freq, dummies) && len == len0 + |dummies|
      invariant opt_len == opt_len0 - |dummies| && static_len == static_len0 - StaticBits(desc, dummies)
      invariant FewLeaves(len, leaves, max_code)
      decreases 2 - len
    {
      ghost var max0 := max_code;
      var node: nat;
      node, max_code := NextDummy(len, max_code, leaves);
      len, freq := AddDummy(heap, len, node, freq, desc, leaves0, leaves, freq0, dummies, max0, max_code);
      opt_len := opt_len - 1;
      static_len := static_len - desc.StaticLen(node);
      leaves, dummies := leaves + {node}, dummies + [node];
    }
  }

  /** With fewer than two leaves, max_code is the only one. */
  ghost predicate FewLeaves(len: nat, leaves: set<nat>, max_code: int)
  {
    && (len == 0 <==> max_code == -1) && (len == 0 ==> leaves == {})
    && (len == 1 ==> forall x :: x in leaves ==> x == max_code)
  }

  method NextDummy(ghost len: nat, max_code: int, ghost leaves: set<nat>) returns (node: nat, max_code': int)
    requires len < 2 && FewLeaves(len, leaves, max_code) && -1 <= max_code
    requires forall x :: x in leaves ==> x <= max_code
    ensures node <= 2 && node !in leaves && max_code' == (if node > max_code then node else max_code)
    ensures max_code < max_code' ==> max_code' <= 2
    ensures FewLeaves(len + 1, leaves + {node}, max_code')
  {
    if max_code < 2 {
      max_code' := max_code + 1;
      node := max_code';
    } else {
      max_code' := max_code;
      node := 0;
    }
  }

  lemma {:induction false} CollectedNodes(h: seq<nat>, len: nat, leaves: set<nat>, max_code: int, bound: nat)
    requires Collected(h, len, leaves, max_code) && max_code < bound
    ensures Nodes(h, len, bound)
  {
    forall i | 1 <= i <= len ensures h[i] < bound {
      QueueHolds(h, len, i);
    }
  }

  lemma {:induction false} FirstForest(h: seq<nat>, len: nat, leaves: set<nat>, max_code: int, queue: multiset<nat>,
                    freq: seq<nat>, dl: seq<nat>, elems: nat)
    requires Collected(h, len, leaves, max_code) && max_code < elems <= |freq| == |dl| && Queue(h, len) == queue
    ensures Forest(queue, [], freq, dl, elems, leaves, 0)
  {
  }

  ghost predicate AtMost(leaves: set<nat>, max_code: int)
  {
    max_code in leaves && forall x :: x in leaves ==> x <= max_code
  }

  /** The leaves are the symbols in use and the dummies. */
  ghost predicate LeavesAre(desc: Desc, freq0: seq<nat>, freq: seq<nat>, leaves: set<nat>, dummies: seq<nat>)
  {
    && |freq0| == |freq| >= desc.elems
    && Distinct(dummies)
    && (forall i :: 0 <= i < |dummies| ==> dummies[i] <= 2 && dummies[i] < desc.elems && freq0[dummies[i]] == 0)
    && (forall x: nat :: x in leaves <==> (x < desc.elems && freq0[x] != 0) || x in dummies)
    && (forall x: nat :: x < |freq| ==> freq[x] == if x in dummies then 1 else freq0[x])
  }

  lemma {:induction false} LeavesMeet(desc: Desc, leaves0: set<nat>, leaves: set<nat>, freq0: seq<nat>, freq: seq<nat>, dummies: seq<nat>)
    requires desc.Valid() && desc.elems <= |freq0| && Forced(desc, leaves0, leaves, freq0, freq, dummies)
    requires forall x: nat :: x in leaves0 <==> x < desc.elems && freq0[x] != 0
    ensures LeavesAre(desc, freq0, freq, leaves, dummies) && Positive(freq, desc.elems, leaves, 0)
  {
  }

  lemma {:induction false} FirstLengths(desc: Desc, freq0: seq<nat>, freq: seq<nat>, leaves: set<nat>, dummies: seq<nat>, dl: seq<nat>)
    requires LeavesAre(desc, freq0, freq, leaves, dummies) && |dl| == |freq0|
    requires forall x :: 0 <= x < desc.elems && freq0[x] == 0 ==> dl[x] == 0
    ensures forall x :: 0 <= x < desc.elems && x !in leaves ==> dl[x] == 0
  {
  }

  lemma {:induction false} FirstCombining(h: seq<nat>, len: nat, freq: seq<nat>, dl: seq<nat>, depth: seq<nat>, elems: nat,
                       leaves: set<nat>, queue: multiset<nat>)
    requires |h| == HEAP_SIZE && 1 <= len <= elems <= MAX_ELEMS && |freq| == 2 * elems + 1
    requires HeapOk(h, len, freq, depth, queue) && Forest(queue, [], freq, dl, elems, leaves, 0)
    requires (forall x :: 0 <= x < |depth| ==> depth[x] == 0) && Positive(freq, elems, leaves, 0)
    ensures Combining(h, len, HEAP_SIZE, freq, dl, depth, elems, leaves, len, [], 0, queue)
  {
  }

  /** Sub-heaps of increasing size over the symbols in use. */
  method FirstHeap(heap: array<nat>, len: nat, freq: seq<nat>, ghost dl: seq<nat>, ghost elems: nat, ghost leaves: set<nat>,
                   ghost max_code: int, ghost queue: multiset<nat>)
    returns (depth: seq<nat>)
    requires heap.Length == HEAP_SIZE && 1 <= len <= elems <= MAX_ELEMS && |freq| == 2 * elems + 1 && max_code < elems
    requires Collected(heap[..], len, leaves, max_code) && queue == Queue(heap[..], len)
    requires Forest(queue, [], freq, dl, elems, leaves, 0) && Positive(freq, elems, leaves, 0)
    modifies heap
    ensures Combining(heap[..], len, HEAP_SIZE, freq, dl, depth, elems, leaves, len, [], 0, queue)
  {
    depth := seq(|freq|, _ => 0);
    CollectedNodes(heap[..], len, leaves, max_code, |freq|);
    Heapify(heap, len, freq, depth);
    QueueHolds(heap[..], len, 1);
    FirstCombining(heap[..], len, freq, dl, depth, elems, leaves, queue);
  }

  /** The initial heap over the symbols in use. */
  method StartQueue(heap: array<nat>, freq0: seq<nat>, dl0: seq<nat>, desc: Desc, opt_len0: int, static_len0: int)
    returns (len: nat, freq: seq<nat>, dl: seq<nat>, depth: seq<nat>, max_code: int, opt_len: int, static_len: int,
             ghost leaves: set<nat>, ghost dummies: seq<nat>, ghost queue: multiset<nat>)
    requires desc.Valid() && |freq0| == |dl0| == 2 * desc.elems + 1 && heap.Length == HEAP_SIZE
    modifies heap
    ensures 2 <= len && (dummies != [] ==> len == 2) && |dummies| <= 2
    ensures Combining(heap[..], len, HEAP_SIZE, freq, dl, depth, desc.elems, leaves, len, [], 0, queue)
    ensures AtMost(leaves, max_code) && max_code < desc.elems && LeavesAre(desc, freq0, freq, leaves, dummies)
    ensures opt_len == opt_len0 - |dummies| && static_len == static_len0 - StaticBits(desc, dummies)
    ensures forall x :: 0 <= x < desc.elems && x !in leaves ==> dl[x] == 0
  {
    ghost var leaves0;
    len, max_code, dl, leaves0 := Collect(heap, freq0, dl0, desc.elems);
    len, max_code, freq, opt_len, static_len, leaves, dummies :=
      ForceTwo(heap, len, max_code, freq0, desc, opt_len0, static_len0, leaves0);
    LeavesMeet(desc, leaves0, leaves, freq0, freq, dummies);
    FirstLengths(desc, freq0, freq, leaves, dummies, dl);
    queue := Queue(heap[..], len);
    FirstForest(heap[..], len, leaves, max_code, queue, freq, dl, desc.elems);
    depth := FirstHeap(heap, len, freq, dl, desc.elems, leaves, max_code, queue);
  }

  /** `build_tree` up to the call of gen_bitlen. */
  method MakeTree(heap: array<nat>, freq0: seq<nat>, dl0: seq<nat>, desc: Desc, opt_len0: int, static_len0: int)
    returns (max: nat, freq: seq<nat>, dl: seq<nat>, max_code: int, opt_len: int, static_len: int,
             ghost leaves: set<nat>, ghost dummies: seq<nat>, ghost total: nat, ghost k: nat, ghost freq1: seq<nat>,
             ghost depth: seq<nat>)
    requires desc.Valid() && |freq0| == |dl0| == 2 * desc.elems + 1 && heap.Length == HEAP_SIZE
    modifies heap
    ensures TreeBuilt(heap[..], max, freq, dl, desc.elems, leaves, total, k)
    ensures Ranked(heap[max..], freq, depth, desc.elems, k)
    ensures AtMost(leaves, max_code) && max_code < desc.elems
    ensures LeavesAre(desc, freq0, freq1, leaves, dummies) && (dummies != [] ==> k == 1) && |dummies| <= 2
    ensures opt_len == opt_len0 - |dummies| && static_len == static_len0 - StaticBits(desc, dummies)
    ensures |freq1| == |freq| && forall x :: 0 <= x < desc.elems ==> freq[x] == freq1[x]
    ensures forall x :: 0 <= x < desc.elems && x !in leaves ==> dl[x] == 0
  {
    var len, freq2, dl2, depth2;
    ghost var queue;
    len, freq2, dl2, depth2, max_code, opt_len, static_len, leaves, dummies, queue :=
      StartQueue(heap, freq0, dl0, desc, opt_len0, static_len0);
    total, freq1 := len, freq2;
    max, freq, dl, depth, k := CombineAll(heap, len, freq2, dl2, depth2, desc.elems, leaves, total, queue);
  }
}
