/**
 Optimality of the unlimited tree: no assignment of code lengths that satisfies the Kraft
 inequality costs less than the tree `build_tree` makes.
 */
module HuffmanOptimal {
  import opened Sums
  import opened Bits
  import opened HuffmanTree

  /** Lengths for the nodes of q that leave room for a prefix code, in units of 2^-top. */
  ghost predicate Feasible(q: set<nat>, lens: seq<nat>, top: nat)
  {
    && (forall x :: x in q && x < |lens| ==> lens[x] <= top)
    && MaskSum(q, Weights(lens, top)) <= Pow2(top)
  }

  ghost function Products(freq: seq<nat>, lens: seq<nat>): (w: seq<nat>)
    requires |freq| == |lens|
    ensures |w| == |freq| && forall x :: 0 <= x < |freq| ==> w[x] == freq[x] * lens[x]
  {
    seq(|freq|, x requires 0 <= x < |freq| => freq[x] * lens[x])
  }

  /** Total length of the coded text. */
  ghost function Cost(q: set<nat>, freq: seq<nat>, lens: seq<nat>): nat
    requires |freq| == |lens|
  {
    MaskSum(q, Products(freq, lens))
  }

  // ----- exchanging two lengths -----

  ghost function Exchanged(lens: seq<nat>, a: nat, y: nat): seq<nat>
    requires a < |lens| && y < |lens|
  {
    lens[a := lens[y]][y := lens[a]]
  }

  lemma {:induction false} MaskTwo(q: set<nat>, w: seq<nat>, w': seq<nat>, a: nat, y: nat)
    requires |w| == |w'| && a in q && y in q && a != y && a < |w| && y < |w|
    requires forall x :: 0 <= x < |w| && x != a && x != y ==> w'[x] == w[x]
    ensures MaskSum(q, w') == MaskSum(q, w) - w[a] - w[y] + w'[a] + w'[y]
  {
    MaskUpdate(q, w, a, w'[a]);
    var v := w[a := w'[a]];
    MaskUpdate(q, v, y, w'[y]);
    assert w' == v[y := w'[y]];
  }

  lemma {:induction false} ExchangeGain(f: nat, g: nat, l: nat, m: nat)
    requires f <= g && l <= m
    ensures f * m + g * l <= f * l + g * m
  {
    var d, e := g - f, m - l;
    assert g * m == (f + d) * m && g * l == (f + d) * l;
    assert (f + d) * m == f * m + d * m && (f + d) * l == f * l + d * l;
    assert d * m == d * l + d * e;
  }

  lemma {:induction false} ExchangeKraft(q: set<nat>, lens: seq<nat>, top: nat, a: nat, y: nat)
    requires a in q && y in q && a < |lens| && y < |lens| && a != y && Feasible(q, lens, top)
    ensures Feasible(q, Exchanged(lens, a, y), top)
  {
    MaskTwo(q, Weights(lens, top), Weights(Exchanged(lens, a, y), top), a, y);
  }

  lemma {:induction false} ExchangeCost(q: set<nat>, freq: seq<nat>, lens: seq<nat>, a: nat, y: nat)
    requires |freq| == |lens| && a in q && y in q && a < |freq| && y < |freq| && a != y
    requires freq[a] <= freq[y] && lens[a] <= lens[y]
    ensures Cost(q, freq, Exchanged(lens, a, y)) <= Cost(q, freq, lens)
  {
    MaskTwo(q, Products(freq, lens), Products(freq, Exchanged(lens, a, y)), a, y);
    ExchangeGain(freq[a], freq[y], lens[a], lens[y]);
  }

  /** Giving the longer code to the rarer node costs no more. */
  lemma {:induction false} Exchange(q: set<nat>, freq: seq<nat>, lens: seq<nat>, top: nat, a: nat, y: nat)
    requires |freq| == |lens| && a in q && y in q && a < |freq| && y < |freq|
    requires freq[a] <= freq[y] && lens[a] <= lens[y] && Feasible(q, lens, top)
    ensures Feasible(q, Exchanged(lens, a, y), top)
    ensures Cost(q, freq, Exchanged(lens, a, y)) <= Cost(q, freq, lens)
  {
    if a == y {
      assert Exchanged(lens, a, y) == lens;
    } else {
      ExchangeKraft(q, lens, top, a, y);
      ExchangeCost(q, freq, lens, a, y);
    }
  }

  // ----- the longest code -----

  lemma {:induction false} LongestIn(q: set<nat>, lens: seq<nat>, n: nat, a: nat) returns (y: nat)
    requires a in q && a < n <= |lens|
    ensures y in q && y < n && forall x :: x in q && 0 <= x < n ==> lens[x] <= lens[y]
    decreases n
  {
    var last := n - 1;
    if a == last && forall x :: 0 <= x < last ==> x !in q {
      y := a;
    } else if a == last {
      var b :| 0 <= b < last && b in q;
      y := LongestIn(q, lens, last, b);
      if lens[y] < lens[last] { y := last; }
    } else {
      y := LongestIn(q, lens, last, a);
      if last in q && lens[y] < lens[last] { y := last; }
    }
  }

  /** Only the sum over the rest is in multiples of the longest width. */
  lemma {:induction false} Multiple(q: set<nat>, lens: seq<nat>, top: nat, m: nat) returns (n: nat)
    requires m <= top && forall x :: x in q && 0 <= x < |lens| ==> lens[x] <= m
    ensures MaskSum(q, Weights(lens, top)) == n * Pow2(top - m)
  {
    if lens == [] {
      n := 0;
      assert Weights(lens, top) == [];
    } else {
      var last := |lens| - 1;
      assert Weights(lens, top)[..last] == Weights(lens[..last], top);
      n := Multiple(q, lens[..last], top, m);
      if last in q {
        Pow2Add(m - lens[last], top - m);
        AddMultiple(n, Pow2(m - lens[last]), Pow2(top - m));
        n := n + Pow2(m - lens[last]);
      }
    }
  }

  lemma {:induction false} AddMultiple(a: nat, b: nat, u: nat)
    ensures a * u + b * u == (a + b) * u
  {
  }

  // ----- merging the two rarest nodes -----

  /** q without a and b and with p. */
  ghost predicate Merged(q: set<nat>, q': set<nat>, a: nat, b: nat, p: nat)
  {
    && a in q && b in q && a != b && p !in q
    && forall x: nat :: x in q' <==> (x in q && x != a && x != b) || x == p
  }

  lemma {:induction false} MergeSum(q: set<nat>, q': set<nat>, a: nat, b: nat, p: nat, w: seq<nat>, w': seq<nat>)
    requires Merged(q, q', a, b, p) && |w| == |w'| && a < |w| && b < |w| && p < |w|
    requires forall x :: x in q && 0 <= x < |w| ==> w'[x] == w[x]
    ensures MaskSum(q, w) == MaskSum(q - {a, b}, w) + w[a] + w[b]
    ensures MaskSum(q', w') == MaskSum(q - {a, b}, w) + w'[p]
  {
    var r := q - {a, b};
    assert q == r + {a} + {b};
    MaskAdd(r, w, a);
    MaskAdd(r + {a}, w, b);
    MaskAdd(r, w', p);
    MaskAgree(q', r + {p}, w');
    MaskSame(r, w', w);
  }

  /** N + 1 whole units and a bit more fit in K units, so N + 2 do. */
  lemma {:induction false} RoomForTwo(n: nat, k: nat, u: nat, bit: nat)
    requires u > 0 && bit > 0 && n * u + bit + u <= k * u
    ensures (n + 2) * u <= k * u && n + 2 <= k
  {
    AddMultiple(n, 1, u);
    if k <= n + 1 {
      MulMono(u, k, n + 1);
    }
    MulMono(u, n + 2, k);
  }

  lemma {:induction false} MergeKraft(q: set<nat>, q': set<nat>, a: nat, b: nat, p: nat, lens: seq<nat>, top: nat)
    requires Merged(q, q', a, b, p) && a < |lens| && b < |lens| && p < |lens| && Feasible(q, lens, top)
    requires lens[b] <= lens[a] && forall x :: x in q && x != a && 0 <= x < |lens| ==> lens[x] <= lens[b]
    ensures lens[b] >= 1 && Feasible(q', lens[p := lens[b] - 1], top)
  {
    var m := lens[b];
    var w := Weights(lens, top);
    MergeSum(q, q', a, b, p, w, w);
    var n := Multiple(q - {a, b}, lens, top, m);
    Pow2Add(m, top - m);
    RoomForTwo(n, Pow2(m), Pow2(top - m), Pow2(top - lens[a]));
    assert m >= 1 by { assert Pow2(0) == 1; }
    var lens' := lens[p := m - 1];
    var w' := Weights(lens', top);
    MergeSum(q, q', a, b, p, w, w');
    assert w'[p] == 2 * Pow2(top - m);
    AddMultiple(n, 2, Pow2(top - m));
  }

  lemma {:induction false} FatherCost(f: nat, g: nat, l: nat, m: nat)
    requires 1 <= m <= l
    ensures f * l + g * m >= (f + g) * (m - 1) + (f + g)
  {
    MulMono(f, m, l);
    assert (f + g) * (m - 1) + (f + g) == (f + g) * m == f * m + g * m;
  }

  lemma {:induction false} MergeCost(q: set<nat>, q': set<nat>, a: nat, b: nat, p: nat, freq: seq<nat>, lens: seq<nat>)
    requires Merged(q, q', a, b, p) && |freq| == |lens| && a < |lens| && b < |lens| && p < |lens|
    requires 1 <= lens[b] <= lens[a] && freq[p] == freq[a] + freq[b]
    ensures Cost(q, freq, lens) >= Cost(q', freq, lens[p := lens[b] - 1]) + freq[p]
  {
    var lens' := lens[p := lens[b] - 1];
    MergeSum(q, q', a, b, p, Products(freq, lens), Products(freq, lens'));
    FatherCost(freq[a], freq[b], lens[a], lens[b]);
  }

  /** The rarest node of r, a subset of q, takes the longest length in r. */
  lemma {:induction false} Lengthen(q: set<nat>, r: set<nat>, freq: seq<nat>, lens: seq<nat>, top: nat, a: nat) returns (y: nat)
    requires |freq| == |lens| && a in r && a < |lens| && Feasible(q, lens, top) && r <= q
    requires forall x :: x in r && 0 <= x < |freq| ==> freq[a] <= freq[x]
    ensures y in r && y < |lens| && lens[a] <= lens[y] && Feasible(q, Exchanged(lens, a, y), top)
    ensures Cost(q, freq, Exchanged(lens, a, y)) <= Cost(q, freq, lens)
    ensures forall x :: x in r && 0 <= x < |lens| ==> Exchanged(lens, a, y)[x] <= Exchanged(lens, a, y)[a]
  {
    y := LongestIn(r, lens, |lens|, a);
    Exchange(q, freq, lens, top, a, y);
  }

  lemma {:induction false} TwoLongest(q: set<nat>, lens1: seq<nat>, a: nat, b: nat, z: nat)
    requires a < |lens1| && b < |lens1| && z < |lens1| && a in q && b in q && z in q && a != b && a != z
    requires forall x :: x in q && 0 <= x < |lens1| ==> lens1[x] <= lens1[a]
    requires forall x :: x in q - {a} && 0 <= x < |lens1| ==> Exchanged(lens1, b, z)[x] <= Exchanged(lens1, b, z)[b]
    ensures Exchanged(lens1, b, z)[b] <= Exchanged(lens1, b, z)[a]
    ensures forall x :: x in q && x != a && 0 <= x < |lens1| ==> Exchanged(lens1, b, z)[x] <= Exchanged(lens1, b, z)[b]
  {
  }

  /** How lens' comes from lens: a and b take the longest lengths, from y and z, and their father
      one less. */
  ghost predicate Merging(q: set<nat>, a: nat, b: nat, p: nat, lens: seq<nat>, y: nat, z: nat, lens': seq<nat>)
  {
    var nodes := a < |lens| && b < |lens| && p < |lens| && y < |lens| && z < |lens| && y in q && z in q && z != a;
    nodes && lens[a] <= lens[y]
    && var lens1 := Exchanged(lens, a, y);
       var lens2 := Exchanged(lens1, b, z);
       lens1[b] <= lens1[z] && 1 <= lens2[b] <= lens2[a] && lens' == lens2[p := lens2[b] - 1]
  }

  /** Lengths for q give lengths for q with its two rarest nodes merged. */
  lemma {:induction false} MergeStep(q: set<nat>, q': set<nat>, a: nat, b: nat, p: nat, freq: seq<nat>, lens: seq<nat>, top: nat)
    returns (lens': seq<nat>, y: nat, z: nat)
    requires Merged(q, q', a, b, p) && |freq| == |lens| && a < |lens| && b < |lens| && p < |lens|
    requires freq[p] == freq[a] + freq[b] && freq[a] <= freq[b]
    requires forall x :: x in q && x != a && 0 <= x < |freq| ==> freq[b] <= freq[x]
    requires Feasible(q, lens, top)
    ensures |lens'| == |lens| && Feasible(q', lens', top)
    ensures Cost(q, freq, lens) >= Cost(q', freq, lens') + freq[p]
    ensures Merging(q, a, b, p, lens, y, z, lens')
  {
    y := Lengthen(q, q, freq, lens, top, a);
    var lens1 := Exchanged(lens, a, y);
    z := Lengthen(q, q - {a}, freq, lens1, top, b);
    var lens2 := Exchanged(lens1, b, z);
    TwoLongest(q, lens1, a, b, z);
    lens' := MergeLongest(q, q', a, b, p, freq, lens2, top);
    IsMerging(q, a, b, p, lens, y, z, lens1, lens2, lens');
  }

  lemma {:induction false} IsMerging(q: set<nat>, a: nat, b: nat, p: nat, lens: seq<nat>, y: nat, z: nat,
                                     lens1: seq<nat>, lens2: seq<nat>, lens': seq<nat>)
    requires a < |lens| && b < |lens| && p < |lens| && y < |lens| && z < |lens| && y in q && z in q && z != a
    requires lens[a] <= lens[y] && lens1 == Exchanged(lens, a, y) && lens1[b] <= lens1[z] && lens2 == Exchanged(lens1, b, z)
    requires 1 <= lens2[b] <= lens2[a] && lens' == lens2[p := lens2[b] - 1]
    ensures Merging(q, a, b, p, lens, y, z, lens')
  {
  }

  lemma {:induction false} MergeLongest(q: set<nat>, q': set<nat>, a: nat, b: nat, p: nat, freq: seq<nat>, lens: seq<nat>, top: nat)
    returns (lens': seq<nat>)
    requires Merged(q, q', a, b, p) && |freq| == |lens| && a < |lens| && b < |lens| && p < |lens| && Feasible(q, lens, top)
    requires lens[b] <= lens[a] && forall x :: x in q && x != a && 0 <= x < |lens| ==> lens[x] <= lens[b]
    requires freq[p] == freq[a] + freq[b]
    ensures lens[b] >= 1 && lens' == lens[p := lens[b] - 1] && Feasible(q', lens', top)
    ensures Cost(q, freq, lens) >= Cost(q', freq, lens') + freq[p]
  {
    MergeKraft(q, q', a, b, p, lens, top);
    MergeCost(q, q', a, b, p, freq, lens);
    lens' := lens[p := lens[b] - 1];
  }

  // ----- the whole tree -----

  /** The nodes in the queue after i combinations. */
  ghost function Stage(ord: seq<nat>, elems: nat, k: nat, i: nat): set<nat>
    requires |ord| == 2 * k + 1 && i <= k
  {
    set x: nat | x < elems + i && InStage(ord, elems, k, i, x)
  }

  ghost predicate InStage(ord: seq<nat>, elems: nat, k: nat, i: nat, x: nat)
  {
    x < elems + i && exists j: nat :: j < |ord| && j <= 2 * k - 2 * i && ord[j] == x
  }

  lemma {:induction false} StageHas(ord: seq<nat>, elems: nat, k: nat, i: nat, x: nat)
    requires |ord| == 2 * k + 1 && i <= k
    ensures x in Stage(ord, elems, k, i) <==> InStage(ord, elems, k, i, x)
  {
  }

  lemma {:induction false} StageNext(ord: seq<nat>, elems: nat, leaves: set<nat>, k: nat, i: nat, x: nat)
    requires Shape(ord, elems, leaves, k) && i < k
    ensures InStage(ord, elems, k, i + 1, x) <==>
              (InStage(ord, elems, k, i, x) && x != ord[2 * k - 2 * i] && x != ord[2 * k - 2 * i - 1]) || x == elems + i
  {
    if InStage(ord, elems, k, i + 1, x) && x != elems + i {
      var j: nat :| j < |ord| && j <= 2 * k - 2 * (i + 1) && ord[j] == x;
      assert Differ(ord, j, 2 * k - 2 * i) && Differ(ord, j, 2 * k - 2 * i - 1);
      assert InStage(ord, elems, k, i, x);
    }
    if InStage(ord, elems, k, i, x) && x != ord[2 * k - 2 * i] && x != ord[2 * k - 2 * i - 1] {
      var j: nat :| j < |ord| && j <= 2 * k - 2 * i && ord[j] == x;
      assert j <= 2 * k - 2 * (i + 1);
    }
    if x == elems + i {
      var pos := InternalAt(ord, elems, leaves, k, i);
    }
  }

  lemma {:induction false} StageMerges(ord: seq<nat>, elems: nat, leaves: set<nat>, k: nat, i: nat)
    requires Shape(ord, elems, leaves, k) && i < k
    ensures Merged(Stage(ord, elems, k, i), Stage(ord, elems, k, i + 1), ord[2 * k - 2 * i], ord[2 * k - 2 * i - 1], elems + i)
  {
    var a, b, p := ord[2 * k - 2 * i], ord[2 * k - 2 * i - 1], elems + i;
    assert SonBelow(ord, elems, k, 2 * k - 2 * i) && SonBelow(ord, elems, k, 2 * k - 2 * i - 1);
    assert Differ(ord, 2 * k - 2 * i - 1, 2 * k - 2 * i);
    assert Dad(elems, k, 2 * k - 2 * i) == p && Dad(elems, k, 2 * k - 2 * i - 1) == p;
    assert InStage(ord, elems, k, i, a) && InStage(ord, elems, k, i, b);
    StageHas(ord, elems, k, i, a);
    StageHas(ord, elems, k, i, b);
    StageHas(ord, elems, k, i, p);
    forall x: nat
      ensures x in Stage(ord, elems, k, i + 1) <==> (x in Stage(ord, elems, k, i) && x != a && x != b) || x == p
    {
      StageHas(ord, elems, k, i, x);
      StageHas(ord, elems, k, i + 1, x);
      StageNext(ord, elems, leaves, k, i, x);
    }
  }

  lemma {:induction false} StageRarest(ord: seq<nat>, freq: seq<nat>, elems: nat, k: nat, i: nat)
    requires |ord| == 2 * k + 1 && Descending(ord, freq) && i < k
    ensures var a, b := ord[2 * k - 2 * i], ord[2 * k - 2 * i - 1];
            && freq[a] <= freq[b]
            && forall x :: x in Stage(ord, elems, k, i) && x != a && 0 <= x < |freq| ==> freq[b] <= freq[x]
  {
    var a, b := ord[2 * k - 2 * i], ord[2 * k - 2 * i - 1];
    assert NotRarer(ord, freq, 2 * k - 2 * i - 1, 2 * k - 2 * i);
    forall x | x in Stage(ord, elems, k, i) && x != a && 0 <= x < |freq| ensures freq[b] <= freq[x] {
      var j: nat :| j < |ord| && j <= 2 * k - 2 * i && ord[j] == x;
      assert NotRarer(ord, freq, j, 2 * k - 2 * i - 1);
    }
  }

  lemma {:induction false} StageStep(ord: seq<nat>, freq: seq<nat>, elems: nat, leaves: set<nat>, k: nat, i: nat, lens: seq<nat>, top: nat)
    returns (lens': seq<nat>, y: nat, z: nat)
    requires Shape(ord, elems, leaves, k) && FreqOk(ord, freq, elems, k, i) && Descending(ord, freq)
    requires i < k && elems + k <= |freq| == |lens| && Feasible(Stage(ord, elems, k, i), lens, top)
    ensures |lens'| == |lens| && Feasible(Stage(ord, elems, k, i + 1), lens', top)
    ensures Cost(Stage(ord, elems, k, i), freq, lens) >= Cost(Stage(ord, elems, k, i + 1), freq, lens') + freq[elems + i]
    ensures Merging(Stage(ord, elems, k, i), ord[2 * k - 2 * i], ord[2 * k - 2 * i - 1], elems + i, lens, y, z, lens')
  {
    StageMerges(ord, elems, leaves, k, i);
    StageRarest(ord, freq, elems, k, i);
    lens', y, z := MergeStep(Stage(ord, elems, k, i), Stage(ord, elems, k, i + 1),
                             ord[2 * k - 2 * i], ord[2 * k - 2 * i - 1], elems + i, freq, lens, top);
  }

  lemma {:induction false} StageSaves(ord: seq<nat>, freq: seq<nat>, elems: nat, leaves: set<nat>, k: nat, i: nat, lens: seq<nat>, top: nat)
    returns (lens': seq<nat>)
    requires Huffman(ord, freq, elems, leaves, k)
    requires i < k && |ord| == 2 * k + 1 && elems + k <= |freq| == |lens| && Feasible(Stage(ord, elems, k, i), lens, top)
    ensures |lens'| == |lens| && Feasible(Stage(ord, elems, k, i + 1), lens', top)
    ensures Cost(Stage(ord, elems, k, i), freq, lens) >= Cost(Stage(ord, elems, k, i + 1), freq, lens') + freq[elems + i]
  {
    assert FreqOk(ord, freq, elems, k, i);
    var y, z;
    lens', y, z := StageStep(ord, freq, elems, leaves, k, i, lens, top);
  }

  /** The tree of build_tree. */
  ghost predicate Huffman(ord: seq<nat>, freq: seq<nat>, elems: nat, leaves: set<nat>, k: nat)
  {
    var shape := Shape(ord, elems, leaves, k);
    shape && Freqs(ord, freq, elems, k) && Descending(ord, freq)
  }

  lemma {:induction false} RangeFirst(w: seq<nat>, a: nat, b: nat)
    requires a < b <= |w|
    ensures RangeSum(w, a, b) == w[a] + RangeSum(w, a + 1, b)
  {
  }

  /** Any feasible lengths for a stage cost at least what the remaining combinations add. */
  lemma {:induction false} StageCost(ord: seq<nat>, freq: seq<nat>, elems: nat, leaves: set<nat>, k: nat, i: nat,
                                     lens: seq<nat>, top: nat)
    requires Huffman(ord, freq, elems, leaves, k)
    requires i <= k && |ord| == 2 * k + 1 && elems + k <= |freq| == |lens| && Feasible(Stage(ord, elems, k, i), lens, top)
    ensures Cost(Stage(ord, elems, k, i), freq, lens) >= RangeSum(freq, elems + i, elems + k)
    decreases k - i
  {
    if i < k {
      var lens' := StageSaves(ord, freq, elems, leaves, k, i, lens, top);
      StageCost(ord, freq, elems, leaves, k, i + 1, lens', top);
      RangeFirst(freq, elems + i, elems + k);
    }
  }

  lemma {:induction false} FirstStage(ord: seq<nat>, elems: nat, leaves: set<nat>, k: nat)
    requires Shape(ord, elems, leaves, k)
    ensures Stage(ord, elems, k, 0) == leaves
  {
    forall x: nat ensures x in Stage(ord, elems, k, 0) <==> x in leaves {
      StageHas(ord, elems, k, 0, x);
      assert x in ord <==> x in leaves || elems <= x < elems + k;
    }
  }

  // ----- what the tree itself costs -----

  lemma {:induction false} PairCost(ord: seq<nat>, freq: seq<nat>, elems: nat, k: nat, lens: seq<nat>, limit: nat, i: nat)
    requires |ord| == 2 * k + 1 && elems + k <= |freq| == |lens| && i < k
    requires Freqs(ord, freq, elems, k) && Clamped(ord, lens, elems, k, limit)
    requires lens[elems + k - 1 - i] < limit
    ensures PairWeighs(ord, Products(freq, lens), Scaled(Products(freq, lens), 1, freq), elems, k, i)
  {
    var d := elems + k - 1 - i;
    assert LenOk(ord, lens, elems, k, limit, 2 * i + 1) && LenOk(ord, lens, elems, k, limit, 2 * i + 2);
    assert Dad(elems, k, 2 * i + 1) == d && Dad(elems, k, 2 * i + 2) == d;
    assert FreqOk(ord, freq, elems, k, k - 1 - i);
    SonsCost(freq[ord[2 * i + 1]], freq[ord[2 * i + 2]], lens[d]);
  }

  lemma {:induction false} SonsCost(f: nat, g: nat, l: nat)
    ensures f * (l + 1) + g * (l + 1) == (f + g) * l + 1 * (f + g)
  {
  }

  lemma {:induction false} RangeZero(o: seq<nat>, a: nat, b: nat, x: nat)
    requires b <= |o| && RangeSum(o, a, b) == 0 && a <= x < b
    ensures o[x] == 0
    decreases b - a
  {
    if a < x {
      RangeZero(o, a + 1, b, x);
    }
  }

  lemma {:induction false} NotAtLimit(ord: seq<nat>, elems: nat, leaves: set<nat>, k: nat, lens: seq<nat>, limit: nat, i: nat)
    requires Shape(ord, elems, leaves, k) && Clamped(ord, lens, elems, k, limit) && i < k && elems + k <= |lens|
    requires AtLimit(lens, elems, k, limit) == 0
    ensures lens[elems + i] < limit
  {
    RangeZero(Marks(lens, limit), elems, elems + k, elems + i);
    InternalLens(ord, elems, leaves, k, lens, limit, i);
  }

  lemma {:induction false} AllPairCosts(ord: seq<nat>, freq: seq<nat>, elems: nat, leaves: set<nat>, k: nat, lens: seq<nat>, limit: nat)
    requires Shape(ord, elems, leaves, k) && Freqs(ord, freq, elems, k)
    requires elems + k <= |freq| == |lens| && Clamped(ord, lens, elems, k, limit) && AtLimit(lens, elems, k, limit) == 0
    ensures forall j: nat :: j < k ==> PairWeighs(ord, Products(freq, lens), Scaled(Products(freq, lens), 1, freq), elems, k, j)
  {
    var w := Products(freq, lens);
    var u := Scaled(w, 1, freq);
    forall j: nat | j < k ensures PairWeighs(ord, w, u, elems, k, j) {
      NotAtLimit(ord, elems, leaves, k, lens, limit, k - 1 - j);
      PairCost(ord, freq, elems, k, lens, limit, j);
    }
  }

  /** Without clamping, the leaves cost the frequencies of the internal nodes together. */
  lemma {:induction false} TreeCost(ord: seq<nat>, freq: seq<nat>, elems: nat, leaves: set<nat>, k: nat, lens: seq<nat>, limit: nat)
    requires Shape(ord, elems, leaves, k) && Freqs(ord, freq, elems, k) && InRange(ord, |freq|)
    requires elems + k <= |freq| == |lens| && Clamped(ord, lens, elems, k, limit) && AtLimit(lens, elems, k, limit) == 0
    ensures Cost(leaves, freq, lens) == RangeSum(freq, elems, elems + k)
  {
    var w := Products(freq, lens);
    AllPairCosts(ord, freq, elems, leaves, k, lens, limit);
    TreeSum(ord, w, Scaled(w, 1, freq), elems, leaves, k);
    RangeAdd(Scaled(w, 1, freq), w, 1, freq, elems, elems + k);
  }

  /** The tree's lengths cost no more than any others, unless a length was clamped. */
  lemma {:induction false} Optimal(ord: seq<nat>, freq: seq<nat>, elems: nat, leaves: set<nat>, k: nat, lens: seq<nat>, limit: nat,
                other: seq<nat>, top: nat)
    requires Shape(ord, elems, leaves, k) && Freqs(ord, freq, elems, k) && Descending(ord, freq)
    requires elems + k <= |freq| == |lens| == |other|
    requires Clamped(ord, lens, elems, k, limit) && AtLimit(lens, elems, k, limit) == 0
    requires Feasible(leaves, other, top)
    ensures Cost(leaves, freq, lens) <= Cost(leaves, freq, other)
  {
    TreeCost(ord, freq, elems, leaves, k, lens, limit);
    FirstStage(ord, elems, leaves, k);
    StageCost(ord, freq, elems, leaves, k, 0, other, top);
  }
}
