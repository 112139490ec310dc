/**
 What `smaller` breaks ties for: of all codes of least cost, the tree `build_tree` makes has
 one whose longest length is least.  So gen_bitlen shortens lengths only when no code of
 least cost keeps to the limit.
 */
module HuffmanShortest {
  import opened Sums
  import opened Bits
  import opened HuffmanTree
  import opened HuffmanOptimal

  // ----- lengths that leave room for the subtrees -----

  /** Below every node of q its subtree ends at length h or before. */
  ghost predicate Within(q: set<nat>, lens: seq<nat>, depth: seq<nat>, h: nat)
  {
    forall x: nat :: x in q && x < |lens| && x < |depth| ==> lens[x] + depth[x] <= h
  }

  lemma {:induction false} NoGain(f: nat, g: nat, l: nat, m: nat)
    requires f < g && l < m
    ensures f * m + g * l < f * l + g * m
  {
    var d, e := g - f, m - l;
    assert g * m == (f + d) * m && g * l == (f + d) * l;
    assert (f + d) * m == f * m + d * m && (f + d) * l == f * l + d * l;
    assert d * m == d * l + d * e;
    MulMono(e, 1, d);
  }

  /** An exchange that costs the same is one of equal frequencies or of equal lengths. */
  lemma {:induction false} EvenExchange(q: set<nat>, freq: seq<nat>, lens: seq<nat>, a: nat, y: nat)
    requires |freq| == |lens| && a in q && y in q && a < |freq| && y < |freq|
    requires freq[a] <= freq[y] && lens[a] <= lens[y] && Cost(q, freq, Exchanged(lens, a, y)) == Cost(q, freq, lens)
    ensures freq[a] == freq[y] || lens[a] == lens[y]
  {
    if freq[a] < freq[y] && lens[a] < lens[y] {
      MaskTwo(q, Products(freq, lens), Products(freq, Exchanged(lens, a, y)), a, y);
      NoGain(freq[a], freq[y], lens[a], lens[y]);
    }
  }

  lemma {:induction false} ExchangeWithin(q: set<nat>, freq: seq<nat>, depth: seq<nat>, lens: seq<nat>, a: nat, y: nat, h: nat)
    requires |freq| == |lens| == |depth| && a in q && y in q && a < |freq| && y < |freq|
    requires freq[a] <= freq[y] && lens[a] <= lens[y] && Cost(q, freq, Exchanged(lens, a, y)) == Cost(q, freq, lens)
    requires freq[a] == freq[y] ==> depth[a] <= depth[y]
    requires Within(q, lens, depth, h)
    ensures Within(q, Exchanged(lens, a, y), depth, h)
  {
    EvenExchange(q, freq, lens, a, y);
  }

  /** A father that costs no less than its sons has sons of one length. */
  lemma {:induction false} EvenSons(f: nat, g: nat, l: nat, m: nat)
    requires 1 <= m <= l && f >= 1 && f * l + g * m == (f + g) * (m - 1) + (f + g)
    ensures l == m
  {
    assert (f + g) * (m - 1) + (f + g) == (f + g) * m == f * m + g * m;
    if l > m {
      Longer(f, m, l);
    }
  }

  lemma {:induction false} Longer(f: nat, m: nat, l: nat)
    requires f >= 1 && m < l
    ensures f * m < f * l
  {
    MulMono(f, m + 1, l);
    assert f * (m + 1) == f * m + f;
  }

  /** If the merged lengths cost exactly the father's frequency less, they leave room as before. */
  lemma {:induction false} MergeWithin(q: set<nat>, q': set<nat>, a: nat, b: nat, p: nat, freq: seq<nat>, depth: seq<nat>,
                                       lens: seq<nat>, h: nat)
    requires Merged(q, q', a, b, p) && |freq| == |lens| == |depth| && a < |lens| && b < |lens| && p < |lens|
    requires 1 <= lens[b] <= lens[a] && freq[p] == freq[a] + freq[b] && freq[a] >= 1
    requires depth[p] == Deeper(depth, a, b) + 1 && Within(q, lens, depth, h)
    requires Cost(q, freq, lens) == Cost(q', freq, lens[p := lens[b] - 1]) + freq[p]
    ensures Within(q', lens[p := lens[b] - 1], depth, h)
  {
    var lens' := lens[p := lens[b] - 1];
    MergeSum(q, q', a, b, p, Products(freq, lens), Products(freq, lens'));
    EvenSons(freq[a], freq[b], lens[a], lens[b]);
  }

  /** No node of q but a comes before b. */
  ghost predicate Second(q: set<nat>, freq: seq<nat>, depth: seq<nat>, a: nat, b: nat)
  {
    && |freq| == |depth| && a < |freq| && b < |freq|
    && Before(freq, depth, a, b)
    && forall x: nat :: x in q && x != a && x < |freq| ==> Before(freq, depth, b, x)
  }

  ghost predicate Before(freq: seq<nat>, depth: seq<nat>, a: nat, b: nat)
    requires |freq| == |depth| && a < |freq| && b < |freq|
  {
    freq[a] <= freq[b] && (freq[a] == freq[b] ==> depth[a] <= depth[b])
  }

  /** One combination: lengths of least cost stay so, and leave room as before. */
  lemma {:induction false} MergingWithin(q: set<nat>, q': set<nat>, a: nat, b: nat, p: nat, freq: seq<nat>, depth: seq<nat>,
                                         lens: seq<nat>, y: nat, z: nat, lens': seq<nat>, top: nat, h: nat)
    requires Merged(q, q', a, b, p) && |freq| == |lens| == |depth| && Merging(q, a, b, p, lens, y, z, lens')
    requires freq[p] == freq[a] + freq[b] && freq[a] >= 1 && depth[p] == Deeper(depth, a, b) + 1
    requires Second(q, freq, depth, a, b) && Feasible(q, lens, top) && Within(q, lens, depth, h)
    requires Cost(q, freq, lens) <= Cost(q', freq, lens') + freq[p]
    ensures Within(q', lens', depth, h)
  {
    var lens1 := Exchanged(lens, a, y);
    var lens2 := Exchanged(lens1, b, z);
    assert Before(freq, depth, b, z) && (y != a ==> Before(freq, depth, b, y));
    EvenSteps(q, q', a, b, p, freq, lens, y, z, lens1, lens2, lens', top);
    ExchangeWithin(q, freq, depth, lens, a, y, h);
    ExchangeWithin(q, freq, depth, lens1, b, z, h);
    MergeWithin(q, q', a, b, p, freq, depth, lens2, h);
  }

  /** When a combination saves no more than the father's count, none of its steps saves anything. */
  lemma {:induction false} EvenSteps(q: set<nat>, q': set<nat>, a: nat, b: nat, p: nat, freq: seq<nat>, lens: seq<nat>, y: nat, z: nat,
                                     lens1: seq<nat>, lens2: seq<nat>, lens': seq<nat>, top: nat)
    requires Merged(q, q', a, b, p) && |freq| == |lens| && a < |lens| && b < |lens| && p < |lens| && y < |lens| && z < |lens|
    requires y in q && z in q && freq[a] <= freq[y] && freq[b] <= freq[z] && freq[p] == freq[a] + freq[b]
    requires lens[a] <= lens[y] && lens1 == Exchanged(lens, a, y) && lens1[b] <= lens1[z] && lens2 == Exchanged(lens1, b, z)
    requires 1 <= lens2[b] <= lens2[a] && lens' == lens2[p := lens2[b] - 1]
    requires Feasible(q, lens, top) && Cost(q, freq, lens) <= Cost(q', freq, lens') + freq[p]
    ensures Cost(q, freq, lens1) == Cost(q, freq, lens) && Cost(q, freq, lens2) == Cost(q, freq, lens1)
    ensures Cost(q, freq, lens2) == Cost(q', freq, lens') + freq[p]
  {
    Exchange(q, freq, lens, top, a, y);
    Exchange(q, freq, lens1, top, b, z);
    MergeCost(q, q', a, b, p, freq, lens2);
  }

  // ----- the whole tree -----

  /** A tree with exact depths, combined in order of frequency and depth. */
  ghost predicate Exact(ord: seq<nat>, freq: seq<nat>, depth: seq<nat>, elems: nat, k: nat)
  {
    && Ranked(ord, freq, depth, elems, k) && |ord| == 2 * k + 1
    && forall i: nat :: i < k ==> DepthIs(ord, depth, elems, k, i)
  }

  ghost predicate DepthIs(ord: seq<nat>, depth: seq<nat>, elems: nat, k: nat, i: nat)
  {
    && i < k && 2 * k < |ord| && elems + i < |depth| && ord[2 * k - 2 * i] < |depth| && ord[2 * k - 2 * i - 1] < |depth|
    && depth[elems + i] == Deeper(depth, ord[2 * k - 2 * i], ord[2 * k - 2 * i - 1]) + 1
  }

  /** Ranks order nodes by frequency and then by depth. */
  lemma {:induction false} RankBefore(ord: seq<nat>, freq: seq<nat>, depth: seq<nat>, elems: nat, k: nat, i: nat, j: nat)
    requires Ranked(ord, freq, depth, elems, k) && i <= j < |ord|
    ensures ord[i] < |freq| && ord[j] < |freq| && Before(freq, depth, ord[j], ord[i])
  {
    assert NotRarer(ord, Ranks(freq, depth), i, j);
  }

  lemma {:induction false} RankedDescends(ord: seq<nat>, freq: seq<nat>, depth: seq<nat>, elems: nat, k: nat)
    requires Ranked(ord, freq, depth, elems, k)
    ensures Descending(ord, freq)
  {
    forall i: nat, j: nat | i <= j < |ord| ensures NotRarer(ord, freq, i, j) {
      RankBefore(ord, freq, depth, elems, k, i, j);
    }
  }

  lemma {:induction false} StageSecond(ord: seq<nat>, freq: seq<nat>, depth: seq<nat>, elems: nat, k: nat, i: nat)
    requires Ranked(ord, freq, depth, elems, k) && |ord| == 2 * k + 1 && i < k
    ensures Second(Stage(ord, elems, k, i), freq, depth, ord[2 * k - 2 * i], ord[2 * k - 2 * i - 1])
  {
    var a, b := ord[2 * k - 2 * i], ord[2 * k - 2 * i - 1];
    RankBefore(ord, freq, depth, elems, k, 2 * k - 2 * i - 1, 2 * k - 2 * i);
    forall x: nat | x in Stage(ord, elems, k, i) && x != a && x < |freq| ensures Before(freq, depth, b, x) {
      var j: nat :| j < |ord| && j <= 2 * k - 2 * i && ord[j] == x;
      RankBefore(ord, freq, depth, elems, k, j, 2 * k - 2 * i - 1);
    }
  }

  /** The last node of the list is a leaf, and no node is rarer. */
  lemma {:induction false} AllCounted(ord: seq<nat>, freq: seq<nat>, elems: nat, leaves: set<nat>, k: nat, j: nat)
    requires Shape(ord, elems, leaves, k) && Descending(ord, freq) && j < |ord|
    requires forall x :: x in leaves && 0 <= x < |freq| ==> freq[x] >= 1
    ensures freq[ord[j]] >= 1
  {
    assert SonBelow(ord, elems, k, 2 * k) && Dad(elems, k, 2 * k) == elems;
    assert ord[2 * k] in ord;
    assert NotRarer(ord, freq, j, 2 * k);
  }

  lemma {:induction false} StageMerging(ord: seq<nat>, freq: seq<nat>, depth: seq<nat>, elems: nat, leaves: set<nat>, k: nat, i: nat,
                                        lens: seq<nat>, y: nat, z: nat, lens': seq<nat>, top: nat, h: nat)
    requires Shape(ord, elems, leaves, k) && FreqOk(ord, freq, elems, k, i) && Exact(ord, freq, depth, elems, k)
    requires i < k && elems + k <= |freq| == |lens| && Feasible(Stage(ord, elems, k, i), lens, top)
    requires freq[ord[2 * k - 2 * i]] >= 1 && Within(Stage(ord, elems, k, i), lens, depth, h)
    requires Merging(Stage(ord, elems, k, i), ord[2 * k - 2 * i], ord[2 * k - 2 * i - 1], elems + i, lens, y, z, lens')
    requires Cost(Stage(ord, elems, k, i), freq, lens) <= Cost(Stage(ord, elems, k, i + 1), freq, lens') + freq[elems + i]
    ensures Within(Stage(ord, elems, k, i + 1), lens', depth, h)
  {
    assert DepthIs(ord, depth, elems, k, i);
    StageMerges(ord, elems, leaves, k, i);
    StageSecond(ord, freq, depth, elems, k, i);
    MergingWithin(Stage(ord, elems, k, i), Stage(ord, elems, k, i + 1), ord[2 * k - 2 * i], ord[2 * k - 2 * i - 1], elems + i,
                  freq, depth, lens, y, z, lens', top, h);
  }

  lemma {:induction false} StageKeeps(ord: seq<nat>, freq: seq<nat>, depth: seq<nat>, elems: nat, leaves: set<nat>, k: nat, i: nat,
                                      lens: seq<nat>, top: nat, h: nat)
    returns (lens': seq<nat>)
    requires Huffman(ord, freq, elems, leaves, k) && Exact(ord, freq, depth, elems, k)
    requires i < k && elems + k <= |freq| == |lens| && Feasible(Stage(ord, elems, k, i), lens, top)
    requires freq[ord[2 * k - 2 * i]] >= 1 && Within(Stage(ord, elems, k, i), lens, depth, h)
    ensures |lens'| == |lens| && Feasible(Stage(ord, elems, k, i + 1), lens', top)
    ensures Cost(Stage(ord, elems, k, i), freq, lens) >= Cost(Stage(ord, elems, k, i + 1), freq, lens') + freq[elems + i]
    ensures Cost(Stage(ord, elems, k, i), freq, lens) == Cost(Stage(ord, elems, k, i + 1), freq, lens') + freq[elems + i] ==>
              Within(Stage(ord, elems, k, i + 1), lens', depth, h)
  {
    assert FreqOk(ord, freq, elems, k, i);
    var y, z;
    lens', y, z := StageStep(ord, freq, elems, leaves, k, i, lens, top);
    if Cost(Stage(ord, elems, k, i), freq, lens) == Cost(Stage(ord, elems, k, i + 1), freq, lens') + freq[elems + i] {
      StageMerging(ord, freq, depth, elems, leaves, k, i, lens, y, z, lens', top, h);
    }
  }

  /** The tree of build_tree with exact depths, all of its symbols counted. */
  ghost predicate SharpTree(ord: seq<nat>, freq: seq<nat>, depth: seq<nat>, elems: nat, leaves: set<nat>, k: nat)
  {
    var tree := Huffman(ord, freq, elems, leaves, k) && Exact(ord, freq, depth, elems, k);
    tree && forall x :: x in leaves && 0 <= x < |freq| ==> freq[x] >= 1
  }

  /** Lengths of least cost for the nodes of a stage, with room for the subtrees. */
  ghost predicate Sharp(ord: seq<nat>, freq: seq<nat>, depth: seq<nat>, elems: nat, k: nat, i: nat, lens: seq<nat>, top: nat, h: nat)
  {
    var sizes := |ord| == 2 * k + 1 && i <= k && elems + k <= |freq| == |lens|;
    sizes && Feasible(Stage(ord, elems, k, i), lens, top) && Within(Stage(ord, elems, k, i), lens, depth, h)
    && Cost(Stage(ord, elems, k, i), freq, lens) == RangeSum(freq, elems + i, elems + k)
  }

  lemma {:induction false} StageRange(freq: seq<nat>, elems: nat, k: nat, i: nat)
    requires i < k && elems + k <= |freq|
    ensures RangeSum(freq, elems + i, elems + k) == freq[elems + i] + RangeSum(freq, elems + (i + 1), elems + k)
  {
  }

  lemma {:induction false} StageWithin(ord: seq<nat>, freq: seq<nat>, depth: seq<nat>, elems: nat, leaves: set<nat>, k: nat, i: nat,
                                       lens: seq<nat>, top: nat, h: nat)
    returns (lens': seq<nat>)
    requires SharpTree(ord, freq, depth, elems, leaves, k) && i < k && Sharp(ord, freq, depth, elems, k, i, lens, top, h)
    ensures Sharp(ord, freq, depth, elems, k, i + 1, lens', top, h)
  {
    AllCounted(ord, freq, elems, leaves, k, 2 * k - 2 * i);
    lens' := StageKeeps(ord, freq, depth, elems, leaves, k, i, lens, top, h);
    StageCost(ord, freq, elems, leaves, k, i + 1, lens', top);
    StageRange(freq, elems, k, i);
  }

  lemma {:induction false} StagesWithin(ord: seq<nat>, freq: seq<nat>, depth: seq<nat>, elems: nat, leaves: set<nat>, k: nat, i: nat,
                                        lens: seq<nat>, top: nat, h: nat)
    requires SharpTree(ord, freq, depth, elems, leaves, k) && Sharp(ord, freq, depth, elems, k, i, lens, top, h)
    ensures elems + k <= |depth| && k >= 1 && depth[elems + k - 1] <= h
    decreases k - i
  {
    if i < k {
      var lens' := StageWithin(ord, freq, depth, elems, leaves, k, i, lens, top, h);
      StagesWithin(ord, freq, depth, elems, leaves, k, i + 1, lens', top, h);
    } else {
      LastStage(ord, elems, leaves, k);
    }
  }

  /** In the end only the root is left. */
  lemma {:induction false} LastStage(ord: seq<nat>, elems: nat, leaves: set<nat>, k: nat)
    requires Shape(ord, elems, leaves, k)
    ensures elems + k - 1 in Stage(ord, elems, k, k)
  {
    assert InStage(ord, elems, k, k, ord[0]);
    StageHas(ord, elems, k, k, ord[0]);
  }

  /** Lengths of least cost are nowhere all shorter than the tree is deep. */
  lemma {:induction false} Shortest(ord: seq<nat>, freq: seq<nat>, depth: seq<nat>, elems: nat, leaves: set<nat>, k: nat,
                                    other: seq<nat>, top: nat, h: nat)
    requires Shape(ord, elems, leaves, k) && Freqs(ord, freq, elems, k) && Exact(ord, freq, depth, elems, k)
    requires elems + k <= |freq| == |other| && (forall x :: x in leaves && 0 <= x < |freq| ==> freq[x] >= 1)
    requires Feasible(leaves, other, top) && Cost(leaves, freq, other) == RangeSum(freq, elems, elems + k)
    requires forall x :: x in leaves && 0 <= x < |other| ==> other[x] <= h
    ensures depth[elems + k - 1] <= h
  {
    RankedDescends(ord, freq, depth, elems, k);
    FirstStage(ord, elems, leaves, k);
    assert Within(leaves, other, depth, h);
    StagesWithin(ord, freq, depth, elems, leaves, k, 0, other, top, h);
  }

  // ----- how deep a tree can be -----

  ghost function Fib(n: nat): nat { if n < 2 then n else Fib(n - 1) + Fib(n - 2) }

  lemma {:induction false} FibMono(a: nat, b: nat)
    requires a <= b
    ensures Fib(a) <= Fib(b)
  {
    if a < b {
      FibMono(a, b - 1);
      assert b >= 2 ==> Fib(b) == Fib(b - 1) + Fib(b - 2);
    }
  }

  ghost predicate NodeHeavy(freq: seq<nat>, depth: seq<nat>, x: nat)
  {
    x < |freq| == |depth| && freq[x] >= Fib(depth[x] + 2)
  }

  /** Its more frequent son, too, has been counted often enough for the depth. */
  ghost predicate SonHeavy(ord: seq<nat>, freq: seq<nat>, depth: seq<nat>, elems: nat, k: nat, i: nat)
  {
    && DepthIs(ord, depth, elems, k, i) && |freq| == |depth|
    && freq[ord[2 * k - 2 * i - 1]] >= Fib(depth[elems + i] + 1)
  }

  /** What the source's counts and the tree give at one internal node: sons a and b, b the more frequent. */
  lemma {:induction false} FatherHeavy(freq: seq<nat>, depth: seq<nat>, a: nat, b: nat, p: nat, small: nat, d: nat)
    requires NodeHeavy(freq, depth, a) && NodeHeavy(freq, depth, b) && p < |freq| && freq[p] == freq[a] + freq[b]
    requires freq[a] <= freq[b] && d == Deeper(depth, a, b) + 1
    requires depth[b] >= 1 ==> small <= freq[a] && small >= Fib(depth[b] + 1)
    requires freq[a] >= 1
    ensures freq[b] >= Fib(d + 1) && freq[p] >= Fib(d + 2)
  {
    assert Fib(d + 2) == Fib(d + 1) + Fib(d);
    if depth[a] >= depth[b] {
      FibMono(d, d + 1);
    } else {
      assert d == depth[b] + 1;
    }
  }

  /** A son that is an internal node was made before its father. */
  lemma {:induction false} EarlierSon(ord: seq<nat>, elems: nat, leaves: set<nat>, k: nat, i: nat, j: nat)
    requires Shape(ord, elems, leaves, k) && i < k && 2 * k - 2 * i - 1 <= j <= 2 * k - 2 * i
    ensures ord[j] < elems ==> ord[j] in leaves
    ensures ord[j] >= elems ==> ord[j] - elems < i
  {
    assert SonBelow(ord, elems, k, j);
    assert Dad(elems, k, j) == elems + i;
    assert ord[j] in ord;
  }

  /** Counts of sixteen bits and two forced codes cannot make a tree so deep that its depth does not fit in a byte. */
  lemma {:induction false} DepthFits(d: nat, f: nat)
    requires d <= 256 && f >= Fib(d + 2) && f <= 0xffff + 2
    ensures d < 256
  {
    if d == 256 {
      FibBig(d + 2);
    }
  }

  lemma {:induction false} FibBig(n: nat)
    requires n >= 25
    ensures Fib(n) > 0xffff + 2
  {
    FibMono(25, n);
    FibValues();
  }

  lemma {:induction false} FibValues()
    ensures Fib(10) == 55 && Fib(18) == 2584 && Fib(25) == 75025
  {
    assert Fib(5) == 5 && Fib(6) == 8;
    assert Fib(10) == 55 && Fib(11) == 89;
    assert Fib(14) == 377 && Fib(15) == 610;
    assert Fib(18) == 2584 && Fib(19) == 4181;
    assert Fib(22) == 17711 && Fib(23) == 28657;
  }

  /** The tree's facts that the depths rest on. */
  ghost predicate RankedTree(ord: seq<nat>, freq: seq<nat>, depth: seq<nat>, elems: nat, leaves: set<nat>, k: nat)
  {
    && Shape(ord, elems, leaves, k) && Freqs(ord, freq, elems, k) && Ranked(ord, freq, depth, elems, k)
    && (forall x :: x in leaves && 0 <= x < |freq| ==> freq[x] >= 1)
    && ord[0] < |freq| && freq[ord[0]] <= 0xffff + 2
  }

  lemma {:induction false} NodeIsHeavy(ord: seq<nat>, freq: seq<nat>, depth: seq<nat>, elems: nat, leaves: set<nat>, k: nat, i: nat, j: nat)
    requires RankedTree(ord, freq, depth, elems, leaves, k) && i < k && 2 * k - 2 * i - 1 <= j <= 2 * k - 2 * i
    ensures NodeHeavy(freq, depth, ord[j])
    ensures ord[j] >= elems ==> ord[j] - elems < i && SonHeavy(ord, freq, depth, elems, k, ord[j] - elems)
    ensures ord[j] < elems ==> depth[ord[j]] == 0
    decreases i, 0
  {
    EarlierSon(ord, elems, leaves, k, i, j);
    if ord[j] >= elems {
      InternalHeavy(ord, freq, depth, elems, leaves, k, ord[j] - elems);
    } else {
      assert Fib(2) == 1;
    }
  }

  lemma {:induction false} InternalHeavy(ord: seq<nat>, freq: seq<nat>, depth: seq<nat>, elems: nat, leaves: set<nat>, k: nat, i: nat)
    requires RankedTree(ord, freq, depth, elems, leaves, k) && i < k
    ensures NodeHeavy(freq, depth, elems + i) && SonHeavy(ord, freq, depth, elems, k, i)
    decreases i, 1
  {
    var a, b := ord[2 * k - 2 * i], ord[2 * k - 2 * i - 1];
    NodeIsHeavy(ord, freq, depth, elems, leaves, k, i, 2 * k - 2 * i);
    NodeIsHeavy(ord, freq, depth, elems, leaves, k, i, 2 * k - 2 * i - 1);
    var small := LessThanBoth(ord, freq, depth, elems, leaves, k, i);
    RootMost(ord, freq, elems, leaves, k, i);
    FatherFits(freq, depth, a, b, elems + i, small, Deeper(depth, a, b) + 1);
    DepthKept(ord, freq, depth, elems, k, i);
  }

  lemma {:induction false} FatherFits(freq: seq<nat>, depth: seq<nat>, a: nat, b: nat, p: nat, small: nat, d: nat)
    requires NodeHeavy(freq, depth, a) && NodeHeavy(freq, depth, b) && p < |freq| && freq[p] == freq[a] + freq[b]
    requires 1 <= freq[a] <= freq[b] && depth[a] < 256 && depth[b] < 256 && d == Deeper(depth, a, b) + 1
    requires depth[b] >= 1 ==> small <= freq[a] && small >= Fib(depth[b] + 1)
    requires freq[p] <= 0xffff + 2
    ensures d < 256 && freq[b] >= Fib(d + 1) && freq[p] >= Fib(d + 2)
  {
    FatherHeavy(freq, depth, a, b, p, small, d);
    DepthFits(d, freq[p]);
  }

  lemma {:induction false} DepthKept(ord: seq<nat>, freq: seq<nat>, depth: seq<nat>, elems: nat, k: nat, i: nat)
    requires Ranked(ord, freq, depth, elems, k) && i < k
    requires 2 * k < |ord| && ord[2 * k - 2 * i] < |depth| && ord[2 * k - 2 * i - 1] < |depth|
    requires Deeper(depth, ord[2 * k - 2 * i], ord[2 * k - 2 * i - 1]) + 1 < 256
    ensures DepthIs(ord, depth, elems, k, i)
  {
    assert DepthOk(ord, depth, elems, k, i);
  }

  /** The sons by frequency; if the more frequent one is a father, its own more frequent son left
      the queue before both. */
  lemma {:induction false} LessThanBoth(ord: seq<nat>, freq: seq<nat>, depth: seq<nat>, elems: nat, leaves: set<nat>, k: nat, i: nat)
    returns (small: nat)
    requires RankedTree(ord, freq, depth, elems, leaves, k) && i < k
    requires var b := ord[2 * k - 2 * i - 1];
             if b >= elems then b - elems < i && SonHeavy(ord, freq, depth, elems, k, b - elems) else b < |depth| && depth[b] == 0
    ensures var a, b := ord[2 * k - 2 * i], ord[2 * k - 2 * i - 1];
            && a < |freq| && b < |freq| && elems + i < |freq|
            && freq[elems + i] == freq[a] + freq[b] && 1 <= freq[a] <= freq[b] && depth[a] < 256 && depth[b] < 256
            && (depth[b] >= 1 ==> small <= freq[a] && small >= Fib(depth[b] + 1))
    ensures Descending(ord, freq)
  {
    var a, b := ord[2 * k - 2 * i], ord[2 * k - 2 * i - 1];
    RankedDescends(ord, freq, depth, elems, k);
    AllCounted(ord, freq, elems, leaves, k, 2 * k - 2 * i);
    assert FreqOk(ord, freq, elems, k, i);
    assert NotRarer(ord, freq, 2 * k - 2 * i - 1, 2 * k - 2 * i);
    small := 0;
    if b >= elems {
      assert NotRarer(ord, freq, 2 * k - 2 * i, 2 * k - 2 * (b - elems) - 1);
      small := freq[ord[2 * k - 2 * (b - elems) - 1]];
    }
  }

  lemma {:induction false} RootMost(ord: seq<nat>, freq: seq<nat>, elems: nat, leaves: set<nat>, k: nat, i: nat)
    requires Shape(ord, elems, leaves, k) && Descending(ord, freq) && i < k
    ensures elems + i < |freq| && freq[elems + i] <= freq[ord[0]]
  {
    var pos := InternalAt(ord, elems, leaves, k, i);
    assert NotRarer(ord, freq, 0, pos);
  }

  lemma {:induction false} DepthsExact(ord: seq<nat>, freq: seq<nat>, depth: seq<nat>, elems: nat, leaves: set<nat>, k: nat)
    requires RankedTree(ord, freq, depth, elems, leaves, k)
    ensures Exact(ord, freq, depth, elems, k)
  {
    forall i: nat | i < k ensures DepthIs(ord, depth, elems, k, i) {
      InternalHeavy(ord, freq, depth, elems, leaves, k, i);
    }
  }

  /** A deep tree has been counted often: at least Fib(h + 3) if it is deeper than h. */
  lemma {:induction false} DeepNeedsMany(ord: seq<nat>, freq: seq<nat>, depth: seq<nat>, elems: nat, leaves: set<nat>, k: nat, h: nat)
    requires RankedTree(ord, freq, depth, elems, leaves, k) && freq[ord[0]] < Fib(h + 3)
    ensures depth[elems + k - 1] <= h
  {
    InternalHeavy(ord, freq, depth, elems, leaves, k, k - 1);
    if depth[elems + k - 1] > h {
      FibMono(h + 3, depth[elems + k - 1] + 2);
    }
  }

  /** The root's frequency is the leaves' together. */
  lemma {:induction false} RootCount(ord: seq<nat>, freq: seq<nat>, elems: nat, leaves: set<nat>, k: nat)
    requires Shape(ord, elems, leaves, k) && Freqs(ord, freq, elems, k) && InRange(ord, |freq|) && elems + k <= |freq|
    ensures freq[ord[0]] == MaskSum(leaves, freq)
  {
    forall j: nat | j < k ensures PairWeighs(ord, freq, freq, elems, k, j) {
      assert FreqOk(ord, freq, elems, k, k - 1 - j);
    }
    TreeSum(ord, freq, freq, elems, leaves, k);
  }

  // ----- the limit -----

  /** Along every path the length grows by one as the depth falls by at least one. */
  lemma {:induction false} LengthAndDepth(ord: seq<nat>, depth: seq<nat>, elems: nat, leaves: set<nat>, k: nat, lens: seq<nat>,
                                          limit: nat, h: nat, i: nat)
    requires Shape(ord, elems, leaves, k) && Clamped(ord, lens, elems, k, limit) && elems + k <= |lens| == |depth| && i < k
    requires (forall j: nat :: j < k ==> DepthIs(ord, depth, elems, k, j)) && depth[elems + k - 1] <= h
    ensures depth[elems + i] >= 1 && lens[elems + i] + depth[elems + i] <= h
    decreases k - i
  {
    assert DepthIs(ord, depth, elems, k, i);
    var pos := InternalAt(ord, elems, leaves, k, i);
    if pos > 0 {
      var f := Dad(elems, k, pos) - elems;
      assert SonBelow(ord, elems, k, pos) && LenOk(ord, lens, elems, k, limit, pos) && DepthIs(ord, depth, elems, k, f);
      assert pos == 2 * k - 2 * f || pos == 2 * k - 2 * f - 1;
      LengthAndDepth(ord, depth, elems, leaves, k, lens, limit, h, f);
    }
  }

  lemma {:induction false} NoneMarked(lens: seq<nat>, elems: nat, a: nat, k: nat, limit: nat)
    requires elems + k <= |lens| && a <= k && forall x :: elems <= x < elems + k ==> lens[x] < limit
    ensures RangeSum(Marks(lens, limit), elems + a, elems + k) == 0
    decreases k - a
  {
    if a < k {
      NoneMarked(lens, elems, a + 1, k, limit);
    }
  }

  /** Lengths are clamped if and only if the tree is deeper than the limit. */
  lemma {:induction false} ClampedIfDeep(ord: seq<nat>, freq: seq<nat>, depth: seq<nat>, elems: nat, leaves: set<nat>, k: nat,
                                         lens: seq<nat>, limit: nat)
    requires RankedTree(ord, freq, depth, elems, leaves, k) && elems + k <= |freq| == |lens|
    requires Clamped(ord, lens, elems, k, limit)
    ensures AtLimit(lens, elems, k, limit) == 0 <==> depth[elems + k - 1] <= limit
  {
    DepthsExact(ord, freq, depth, elems, leaves, k);
    RankedDescends(ord, freq, depth, elems, k);
    if depth[elems + k - 1] <= limit {
      forall x | elems <= x < elems + k ensures lens[x] < limit {
        LengthAndDepth(ord, depth, elems, leaves, k, lens, limit, limit, x - elems);
      }
      NoneMarked(lens, elems, 0, k, limit);
    }
    if AtLimit(lens, elems, k, limit) == 0 {
      TreeFits(ord, freq, elems, leaves, k, lens, limit);
      Shortest(ord, freq, depth, elems, leaves, k, lens, limit, limit);
    }
  }

  /** Lengths that were not clamped leave room for a code, cost what the tree does and keep to the limit. */
  lemma {:induction false} TreeFits(ord: seq<nat>, freq: seq<nat>, elems: nat, leaves: set<nat>, k: nat, lens: seq<nat>, limit: nat)
    requires Shape(ord, elems, leaves, k) && Freqs(ord, freq, elems, k) && InRange(ord, |freq|)
    requires elems + k <= |freq| == |lens| && Clamped(ord, lens, elems, k, limit) && AtLimit(lens, elems, k, limit) == 0
    ensures forall x :: x in leaves && 0 <= x < |lens| ==> lens[x] <= limit
    ensures Feasible(leaves, lens, limit) && Cost(leaves, freq, lens) == RangeSum(freq, elems, elems + k)
  {
    forall x: nat | x in leaves && x < |lens| ensures lens[x] <= limit {
      assert x in ord;
      var j: nat :| j < |ord| && ord[j] == x;
      assert j > 0 ==> LenOk(ord, lens, elems, k, limit, j);
    }
    LeafKraft(ord, elems, leaves, k, lens, limit, limit);
    TreeCost(ord, freq, elems, leaves, k, lens, limit);
  }

  // ----- codes of least cost -----

  /** Lengths that leave room for a prefix code; no others cost less. */
  ghost predicate BestLens(leaves: set<nat>, freq: seq<nat>, lens: seq<nat>)
  {
    && |freq| == |lens| && (exists top: nat :: Feasible(leaves, lens, top))
    && forall other: seq<nat>, top: nat :: |other| == |lens| && Feasible(leaves, other, top) ==>
         Cost(leaves, freq, lens) <= Cost(leaves, freq, other)
  }

  /** Such lengths, none longer than the limit. */
  ghost predicate BestWithin(leaves: set<nat>, freq: seq<nat>, lens: seq<nat>, limit: nat)
  {
    BestLens(leaves, freq, lens) && forall x :: x in leaves && 0 <= x < |lens| ==> lens[x] <= limit
  }

  lemma {:induction false} TreeIsBest(ord: seq<nat>, freq: seq<nat>, elems: nat, leaves: set<nat>, k: nat, lens: seq<nat>, limit: nat)
    requires Shape(ord, elems, leaves, k) && Freqs(ord, freq, elems, k) && Descending(ord, freq)
    requires elems + k <= |freq| == |lens| && Clamped(ord, lens, elems, k, limit) && AtLimit(lens, elems, k, limit) == 0
    ensures BestWithin(leaves, freq, lens, limit)
  {
    TreeFits(ord, freq, elems, leaves, k, lens, limit);
    forall other: seq<nat>, top: nat | |other| == |lens| && Feasible(leaves, other, top)
      ensures Cost(leaves, freq, lens) <= Cost(leaves, freq, other)
    {
      Optimal(ord, freq, elems, leaves, k, lens, limit, other, top);
    }
  }

  /** Lengths by depth in the tree, for the first nodes of the list. */
  ghost predicate Free(ord: seq<nat>, lens: seq<nat>, elems: nat, k: nat, limit: nat, n: nat)
  {
    && ord != [] && ord[0] < |lens| && lens[ord[0]] == 0
    && (forall j: nat :: 1 <= j <= n ==> LenOk(ord, lens, elems, k, limit, j))
    && (forall j: nat :: j <= n ==> AtMostAt(ord, lens, j))
  }

  ghost predicate AtMostAt(ord: seq<nat>, lens: seq<nat>, j: nat)
  {
    j < |ord| && ord[j] < |lens| && lens[ord[j]] <= j
  }

  /** Where the father of the j-th node stands. */
  lemma {:induction false} DadAt(ord: seq<nat>, elems: nat, leaves: set<nat>, k: nat, j: nat) returns (pos: nat)
    requires Shape(ord, elems, leaves, k) && 1 <= j <= 2 * k
    ensures pos < j && ord[pos] == Dad(elems, k, j)
  {
    var i := Dad(elems, k, j) - elems;
    assert j == 2 * k - 2 * i || j == 2 * k - 2 * i - 1;
    pos := InternalAt(ord, elems, leaves, k, i);
  }

  lemma {:induction false} FreeLens(ord: seq<nat>, size: nat, elems: nat, leaves: set<nat>, k: nat, limit: nat, n: nat) returns (lens: seq<nat>)
    requires Shape(ord, elems, leaves, k) && InRange(ord, size) && elems + k <= size && n <= 2 * k < limit
    ensures |lens| == size && Free(ord, lens, elems, k, limit, n)
  {
    if n == 0 {
      lens := seq(size, _ => 0);
      assert AtMostAt(ord, lens, 0);
    } else {
      var lens0 := FreeLens(ord, size, elems, leaves, k, limit, n - 1);
      var pos := DadAt(ord, elems, leaves, k, n);
      assert AtMostAt(ord, lens0, pos);
      lens := lens0[ord[n] := lens0[ord[pos]] + 1];
      forall j: nat | j <= n ensures AtMostAt(ord, lens, j) && (1 <= j ==> LenOk(ord, lens, elems, k, limit, j)) {
        FreeAt(ord, lens0, elems, leaves, k, limit, n, pos, lens, j);
      }
      assert AtMostAt(ord, lens, 0);
    }
  }

  lemma {:induction false} FreeAt(ord: seq<nat>, lens0: seq<nat>, elems: nat, leaves: set<nat>, k: nat, limit: nat, n: nat, pos: nat, lens: seq<nat>, j: nat)
    requires Shape(ord, elems, leaves, k) && 1 <= n <= 2 * k < limit && Free(ord, lens0, elems, k, limit, n - 1) && j <= n
    requires pos < n && ord[pos] == Dad(elems, k, n) && InRange(ord, |lens0|) && elems + k <= |lens0|
    requires lens == lens0[ord[n] := lens0[ord[pos]] + 1]
    ensures AtMostAt(ord, lens, j) && (1 <= j ==> LenOk(ord, lens, elems, k, limit, j))
  {
    assert AtMostAt(ord, lens0, pos);
    assert Differ(ord, pos, n);
    if j < n {
      assert AtMostAt(ord, lens0, j) && Differ(ord, j, n);
      if j >= 1 {
        var p := DadAt(ord, elems, leaves, k, j);
        assert LenOk(ord, lens0, elems, k, limit, j) && Differ(ord, p, n);
      }
    }
  }

  lemma {:induction false} FreeFits(ord: seq<nat>, elems: nat, leaves: set<nat>, k: nat, lens: seq<nat>, limit: nat)
    requires Shape(ord, elems, leaves, k) && Free(ord, lens, elems, k, limit, 2 * k) && elems + k <= |lens| && 2 * k < limit
    ensures Clamped(ord, lens, elems, k, limit) && AtLimit(lens, elems, k, limit) == 0
  {
    forall x | elems <= x < elems + k ensures lens[x] < limit {
      var pos := InternalAt(ord, elems, leaves, k, x - elems);
      assert AtMostAt(ord, lens, pos);
    }
    NoneMarked(lens, elems, 0, k, limit);
  }

  /** Lengths of least cost cost what the tree costs. */
  lemma {:induction false} BestCost(ord: seq<nat>, freq: seq<nat>, elems: nat, leaves: set<nat>, k: nat, lens: seq<nat>)
    requires Shape(ord, elems, leaves, k) && Freqs(ord, freq, elems, k) && Descending(ord, freq)
    requires elems + k <= |freq| && BestLens(leaves, freq, lens)
    ensures Cost(leaves, freq, lens) == RangeSum(freq, elems, elems + k)
  {
    var free := FreeLens(ord, |freq|, elems, leaves, k, 2 * k + 1, 2 * k);
    FreeFits(ord, elems, leaves, k, free, 2 * k + 1);
    TreeFits(ord, freq, elems, leaves, k, free, 2 * k + 1);
    var top: nat :| Feasible(leaves, lens, top);
    FirstStage(ord, elems, leaves, k);
    StageCost(ord, freq, elems, leaves, k, 0, lens, top);
  }

  /** Lengths by depth, clamped to the limit, are of least cost if any within the limit are:
      the tree is then no deeper than the limit. */
  lemma {:induction false} BestIfAnyFits(ord: seq<nat>, freq: seq<nat>, depth: seq<nat>, elems: nat, leaves: set<nat>, k: nat,
                                         other: seq<nat>, limit: nat)
    requires RankedTree(ord, freq, depth, elems, leaves, k) && elems + k <= |freq| && BestWithin(leaves, freq, other, limit)
    ensures depth[elems + k - 1] <= limit
  {
    DepthsExact(ord, freq, depth, elems, leaves, k);
    RankedDescends(ord, freq, depth, elems, k);
    BestCost(ord, freq, elems, leaves, k, other);
    var top: nat :| Feasible(leaves, other, top);
    Shortest(ord, freq, depth, elems, leaves, k, other, top, limit);
  }

  // ----- a tree that is too deep -----

  /** Nine symbols of which two need eight bits in every code of least cost. */
  const UNEVEN: seq<nat> := [1, 1, 1, 3, 4, 7, 11, 18, 29]
  const FATHERS: seq<nat> := [2, 3, 6, 10, 17, 28, 46, 75]
  const UNEVEN_ORD: seq<nat> := [16, 15, 8, 14, 7, 13, 6, 12, 5, 11, 4, 10, 3, 9, 2, 1, 0]

  ghost function Nine(): set<nat> { Internals(0, 9) }

  lemma {:induction false} UnevenSon(j: nat)
    requires 1 <= j <= 16
    ensures SonBelow(UNEVEN_ORD, 9, 8, j)
  {
  }

  lemma {:induction false} UnevenShape()
    ensures Shape(UNEVEN_ORD, 9, Nine(), 8)
  {
    forall i: nat, j: nat | i < j < |UNEVEN_ORD| ensures Differ(UNEVEN_ORD, i, j) {
    }
    forall x: nat ensures x in UNEVEN_ORD <==> x in Nine() || 9 <= x < 17 {
    }
    forall j: nat | 1 <= j <= 16 ensures SonBelow(UNEVEN_ORD, 9, 8, j) {
      UnevenSon(j);
    }
  }

  lemma {:induction false} UnevenPair(freq: seq<nat>, depth: seq<nat>, i: nat)
    requires |freq| == |depth| >= 17 && freq[..17] == UNEVEN + FATHERS && i < 8
    requires forall x :: 0 <= x < |depth| ==> depth[x] == if 9 <= x < 17 then x - 8 else 0
    ensures FreqOk(UNEVEN_ORD, freq, 9, 8, i) && DepthOk(UNEVEN_ORD, depth, 9, 8, i)
  {
    assert forall x :: 0 <= x < 17 ==> freq[x] == (UNEVEN + FATHERS)[x];
  }

  lemma {:induction false} UnevenRank(freq: seq<nat>, depth: seq<nat>, i: nat, j: nat)
    requires |freq| == |depth| >= 17 && freq[..17] == UNEVEN + FATHERS && i <= j < 17
    requires forall x :: 0 <= x < |depth| ==> depth[x] == if 9 <= x < 17 then x - 8 else 0
    ensures NotRarer(UNEVEN_ORD, Ranks(freq, depth), i, j)
    decreases j - i
  {
    assert forall x :: 0 <= x < 17 ==> freq[x] == (UNEVEN + FATHERS)[x];
    if i < j {
      UnevenRank(freq, depth, i + 1, j);
    }
  }

  lemma {:induction false} UnevenTree(freq: seq<nat>, depth: seq<nat>)
    requires |freq| == |depth| >= 17 && freq[..17] == UNEVEN + FATHERS
    requires forall x :: 0 <= x < |depth| ==> depth[x] == if 9 <= x < 17 then x - 8 else 0
    ensures RankedTree(UNEVEN_ORD, freq, depth, 9, Nine(), 8)
  {
    UnevenShape();
    UnevenCounts(freq);
    forall i: nat | i < 8 ensures FreqOk(UNEVEN_ORD, freq, 9, 8, i) && DepthOk(UNEVEN_ORD, depth, 9, 8, i) {
      UnevenPair(freq, depth, i);
    }
    UnevenRanks(freq, depth);
  }

  lemma {:induction false} UnevenCounts(freq: seq<nat>)
    requires |freq| >= 17 && freq[..17] == UNEVEN + FATHERS
    ensures freq[UNEVEN_ORD[0]] == 75 && forall x: nat :: x < 9 ==> freq[x] >= 1
  {
    assert forall x :: 0 <= x < 17 ==> freq[x] == (UNEVEN + FATHERS)[x];
  }

  lemma {:induction false} UnevenRanks(freq: seq<nat>, depth: seq<nat>)
    requires |freq| == |depth| >= 17 && freq[..17] == UNEVEN + FATHERS
    requires forall x :: 0 <= x < |depth| ==> depth[x] == if 9 <= x < 17 then x - 8 else 0
    ensures Descending(UNEVEN_ORD, Ranks(freq, depth))
  {
    forall i: nat, j: nat | i <= j < 17 ensures NotRarer(UNEVEN_ORD, Ranks(freq, depth), i, j) {
      UnevenRank(freq, depth, i, j);
    }
  }

  /** For these counts no lengths of least cost keep to seven bits. */
  lemma {:induction false} SevenIsTooFew(freq: seq<nat>, other: seq<nat>)
    requires |freq| >= 17 && freq[..9] == UNEVEN
    ensures !BestWithin(Nine(), freq, other, 7)
  {
    var freq1 := UNEVEN + FATHERS + freq[17..];
    var depth: seq<nat> := seq(|freq|, x requires 0 <= x < |freq| => if 9 <= x < 17 then x - 8 else 0);
    UnevenTree(freq1, depth);
    if BestWithin(Nine(), freq, other, 7) {
      forall x | 0 <= x < 9 ensures freq1[x] == freq[x] {
        assert freq[..9][x] == UNEVEN[x];
      }
      SameBest(Nine(), freq, freq1, other, 7);
      BestIfAnyFits(UNEVEN_ORD, freq1, depth, 9, Nine(), 8, other, 7);
    }
  }

  /** Only the leaves' counts matter. */
  lemma {:induction false} SameBest(leaves: set<nat>, freq: seq<nat>, freq': seq<nat>, lens: seq<nat>, limit: nat)
    requires |freq| == |freq'| && (forall x :: x in leaves && 0 <= x < |freq| ==> freq'[x] == freq[x])
    requires BestWithin(leaves, freq, lens, limit)
    ensures BestWithin(leaves, freq', lens, limit)
  {
    SameCost(leaves, freq, freq', lens);
    forall other: seq<nat>, top: nat | |other| == |lens| && Feasible(leaves, other, top)
      ensures Cost(leaves, freq', lens) <= Cost(leaves, freq', other)
    {
      SameCost(leaves, freq, freq', other);
    }
  }

  lemma {:induction false} SameCost(leaves: set<nat>, freq: seq<nat>, freq': seq<nat>, lens: seq<nat>)
    requires |freq| == |freq'| == |lens| && (forall x :: x in leaves && 0 <= x < |freq| ==> freq'[x] == freq[x])
    ensures Cost(leaves, freq', lens) == Cost(leaves, freq, lens)
  {
    MaskSame(leaves, Products(freq', lens), Products(freq, lens));
  }
}
