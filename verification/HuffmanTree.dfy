/**
 The tree that `build_tree` leaves for `gen_bitlen`: `ord` lists all nodes from the root
 down, in the order they stand in heap[heap_max..HEAP_SIZE].  Nodes below `elems` are
 symbols; the k internal nodes are elems..elems+k-1, and the j-th node of the list (j >= 1)
 is a son of internal node Dad(j), so sons stand in pairs.
 */
module HuffmanTree {
  import opened Sums
  import opened Bits

  ghost function Internals(elems: nat, k: nat): (s: set<nat>)
    ensures forall x :: x in s <==> elems <= x < elems + k
  {
    if k == 0 then {} else Internals(elems, k - 1) + {elems + k - 1}
  }

  ghost function Dad(elems: nat, k: nat, j: nat): nat
    requires 1 <= j <= 2 * k
  {
    elems + (2 * k - j) / 2
  }

  ghost predicate SonOk(ord: seq<nat>, dl: seq<nat>, elems: nat, k: nat, j: nat)
  {
    && 1 <= j <= 2 * k && j < |ord| && ord[j] < |dl|
    && dl[ord[j]] == Dad(elems, k, j) && ord[j] < Dad(elems, k, j)
  }

  /** An internal node is as frequent as its two sons together. */
  ghost predicate FreqOk(ord: seq<nat>, freq: seq<nat>, elems: nat, k: nat, i: nat)
  {
    && i < k && 2 * k < |ord| && elems + i < |freq| && ord[2 * k - 2 * i] < |freq| && ord[2 * k - 2 * i - 1] < |freq|
    && freq[elems + i] == freq[ord[2 * k - 2 * i]] + freq[ord[2 * k - 2 * i - 1]]
  }

  ghost predicate SonBelow(ord: seq<nat>, elems: nat, k: nat, j: nat)
  {
    1 <= j <= 2 * k && j < |ord| && ord[j] < Dad(elems, k, j)
  }

  /** The list holds the leaves and the internal nodes. */
  ghost predicate Everyone(ord: seq<nat>, elems: nat, leaves: set<nat>, k: nat)
  {
    forall x: nat :: x in ord <==> x in leaves || elems <= x < elems + k
  }

  /** Every node occurs once, sons below their father. */
  ghost predicate Shape(ord: seq<nat>, elems: nat, leaves: set<nat>, k: nat)
  {
    && k >= 1 && |ord| == 2 * k + 1 && ord[0] == elems + k - 1
    && Distinct(ord) && Everyone(ord, elems, leaves, k)
    && (forall x :: x in leaves ==> x < elems)
    && (forall j: nat :: 1 <= j <= 2 * k ==> SonBelow(ord, elems, k, j))
  }

  ghost predicate Dads(ord: seq<nat>, dl: seq<nat>, elems: nat, k: nat)
  {
    forall j: nat :: 1 <= j <= 2 * k ==> SonOk(ord, dl, elems, k, j)
  }

  ghost predicate Freqs(ord: seq<nat>, freq: seq<nat>, elems: nat, k: nat)
  {
    forall i :: 0 <= i < k ==> FreqOk(ord, freq, elems, k, i)
  }

  ghost predicate NotRarer(ord: seq<nat>, freq: seq<nat>, i: nat, j: nat)
  {
    i < |ord| && j < |ord| && ord[i] < |freq| && ord[j] < |freq| && freq[ord[j]] <= freq[ord[i]]
  }

  /** Most frequent first. */
  ghost predicate Descending(ord: seq<nat>, freq: seq<nat>)
  {
    && InRange(ord, |freq|)
    && forall i: nat, j: nat :: i <= j < |ord| ==> NotRarer(ord, freq, i, j)
  }

  // ----- depths of subtrees -----

  /** The order in which nodes leave the queue: by frequency, then by the depth of the subtree. */
  ghost function Ranks(freq: seq<nat>, depth: seq<nat>): (w: seq<nat>)
    requires |freq| == |depth|
    ensures |w| == |freq| && forall x :: 0 <= x < |w| ==> w[x] == 256 * freq[x] + depth[x]
  {
    seq(|freq|, x requires 0 <= x < |freq| => 256 * freq[x] + depth[x])
  }

  ghost function Deeper(depth: seq<nat>, a: nat, b: nat): nat
    requires a < |depth| && b < |depth|
  {
    if depth[a] >= depth[b] then depth[a] else depth[b]
  }

  /** An internal node is one deeper than the deeper of its sons; depths are kept in a byte. */
  ghost predicate DepthOk(ord: seq<nat>, depth: seq<nat>, elems: nat, k: nat, i: nat)
  {
    && i < k && 2 * k < |ord| && elems + i < |depth| && ord[2 * k - 2 * i] < |depth| && ord[2 * k - 2 * i - 1] < |depth|
    && depth[elems + i] == (Deeper(depth, ord[2 * k - 2 * i], ord[2 * k - 2 * i - 1]) + 1) % 256
  }

  /** Among equally frequent nodes the shallower were combined first. */
  ghost predicate Ranked(ord: seq<nat>, freq: seq<nat>, depth: seq<nat>, elems: nat, k: nat)
  {
    && |freq| == |depth| && elems + k <= |freq|
    && (forall x :: 0 <= x < elems ==> depth[x] == 0)
    && (forall x :: 0 <= x < |depth| ==> depth[x] < 256)
    && (forall i: nat :: i < k ==> DepthOk(ord, depth, elems, k, i))
    && Descending(ord, Ranks(freq, depth))
  }

  // ----- sums over the tree -----

  ghost function RangeSum(w: seq<nat>, a: nat, b: nat): nat
    requires b <= |w|
    decreases b - a
  {
    if a >= b then 0 else w[a] + RangeSum(w, a + 1, b)
  }

  /** The sons of one father, the i-th pair below the root, weigh what u says. */
  ghost predicate PairWeighs(ord: seq<nat>, w: seq<nat>, u: seq<nat>, elems: nat, k: nat, i: nat)
  {
    && i < k && 2 * i + 2 < |ord| && ord[2 * i + 1] < |w| && ord[2 * i + 2] < |w| && elems + k <= |u|
    && w[ord[2 * i + 1]] + w[ord[2 * i + 2]] == u[elems + k - 1 - i]
  }

  lemma {:induction false} PickPairs(ord: seq<nat>, w: seq<nat>, u: seq<nat>, elems: nat, k: nat, i: nat)
    requires |ord| == 2 * k + 1 && InRange(ord, |w|) && i <= k && elems + k <= |u|
    requires forall j: nat :: j < k ==> PairWeighs(ord, w, u, elems, k, j)
    ensures PickSum(ord[..2 * i + 1], w) == w[ord[0]] + RangeSum(u, elems + k - i, elems + k)
  {
    if i == 0 {
      assert ord[..1][..0] == [];
      assert PickSum(ord[..1][..0], w) == 0;
    } else {
      PickPairs(ord, w, u, elems, k, i - 1);
      assert PairWeighs(ord, w, u, elems, k, i - 1);
      assert ord[..2 * i + 1][..2 * i] == ord[..2 * i];
      assert ord[..2 * i][..2 * i - 1] == ord[..2 * i - 1];
    }
  }

  lemma {:induction false} MaskInternals(elems: nat, k: nat, w: seq<nat>)
    requires elems + k <= |w|
    ensures MaskSum(Internals(elems, k), w) == RangeSum(w, elems, elems + k)
  {
    if k == 0 {
      MaskEmpty(w);
    } else {
      MaskInternals(elems, k - 1, w);
      MaskAdd(Internals(elems, k - 1), w, elems + k - 1);
      RangeLast(w, elems, elems + k - 1);
    }
  }

  lemma {:induction false} RangeLast(w: seq<nat>, a: nat, b: nat)
    requires a <= b < |w|
    ensures RangeSum(w, a, b + 1) == RangeSum(w, a, b) + w[b]
    decreases b - a
  {
    if a < b {
      RangeLast(w, a + 1, b);
    } else {
      assert RangeSum(w, b + 1, b + 1) == 0;
    }
  }

  lemma {:induction false} EveryoneSum(ord: seq<nat>, w: seq<nat>, elems: nat, leaves: set<nat>, k: nat)
    requires Everyone(ord, elems, leaves, k) && elems + k <= |w| && forall x :: x in leaves ==> x < elems
    ensures MaskSum(SetOf(ord), w) == MaskSum(leaves, w) + RangeSum(w, elems, elems + k)
  {
    MaskAgree(SetOf(ord), leaves + Internals(elems, k), w);
    MaskDisjoint(leaves, Internals(elems, k), w);
    MaskInternals(elems, k, w);
  }

  /** Leaves and internal nodes together weigh as much as the root and all pairs of sons. */
  lemma {:induction false} TreeSum(ord: seq<nat>, w: seq<nat>, u: seq<nat>, elems: nat, leaves: set<nat>, k: nat)
    requires Shape(ord, elems, leaves, k) && InRange(ord, |w|) && |w| == |u| && elems + k <= |u|
    requires forall j: nat :: j < k ==> PairWeighs(ord, w, u, elems, k, j)
    ensures MaskSum(leaves, w) + RangeSum(w, elems, elems + k) == w[ord[0]] + RangeSum(u, elems, elems + k)
  {
    PickPairs(ord, w, u, elems, k, k);
    assert ord[..2 * k + 1] == ord;
    PickIsMask(ord, w);
    EveryoneSum(ord, w, elems, leaves, k);
  }

  lemma {:induction false} RangeAdd(u: seq<nat>, w: seq<nat>, c: nat, o: seq<nat>, a: nat, b: nat)
    requires |u| == |w| == |o| && b <= |u| && forall x :: a <= x < b ==> u[x] == w[x] + c * o[x]
    ensures RangeSum(u, a, b) == RangeSum(w, a, b) + c * RangeSum(o, a, b)
    decreases b - a
  {
    if a < b {
      RangeAdd(u, w, c, o, a + 1, b);
    }
  }

  // ----- clamped lengths -----

  /** A node is one longer than its father, but no longer than the limit. */
  ghost predicate LenOk(ord: seq<nat>, lens: seq<nat>, elems: nat, k: nat, limit: nat, j: nat)
  {
    && 1 <= j <= 2 * k && j < |ord| && ord[j] < |lens| && elems + k <= |lens|
    && lens[ord[j]] == (if lens[Dad(elems, k, j)] + 1 > limit then limit else lens[Dad(elems, k, j)] + 1)
  }

  ghost predicate Clamped(ord: seq<nat>, lens: seq<nat>, elems: nat, k: nat, limit: nat)
  {
    && ord != [] && ord[0] < |lens| && lens[ord[0]] == 0
    && forall j: nat :: 1 <= j <= 2 * k ==> LenOk(ord, lens, elems, k, limit, j)
  }

  /** Where an internal node stands: above the sons of every earlier father. */
  lemma {:induction false} InternalAt(ord: seq<nat>, elems: nat, leaves: set<nat>, k: nat, i: nat) returns (pos: nat)
    requires Shape(ord, elems, leaves, k) && i < k
    ensures pos < |ord| && ord[pos] == elems + i && pos + 2 * i + 2 <= 2 * k
  {
    assert elems + i in ord;
    pos :| pos < |ord| && ord[pos] == elems + i;
    if pos >= 1 {
      assert SonBelow(ord, elems, k, pos);
    }
  }

  lemma {:induction false} InternalLens(ord: seq<nat>, elems: nat, leaves: set<nat>, k: nat, lens: seq<nat>, limit: nat, i: nat)
    requires Shape(ord, elems, leaves, k) && Clamped(ord, lens, elems, k, limit) && i < k && elems + k <= |lens|
    ensures lens[elems + i] <= limit
  {
    var pos := InternalAt(ord, elems, leaves, k, i);
    if pos >= 1 {
      assert LenOk(ord, lens, elems, k, limit, pos);
    }
  }

  /** Interval widths in units of 2^-top. */
  ghost function Weights(lens: seq<nat>, top: nat): (w: seq<nat>)
    ensures |w| == |lens|
    ensures forall x :: 0 <= x < |lens| ==> w[x] == if lens[x] <= top then Pow2(top - lens[x]) else 0
  {
    seq(|lens|, x requires 0 <= x < |lens| => if lens[x] <= top then Pow2(top - lens[x]) else 0)
  }

  /** Marks the nodes of one length. */
  ghost function Marks(lens: seq<nat>, l: nat): (o: seq<nat>)
    ensures |o| == |lens|
    ensures forall x :: 0 <= x < |lens| ==> o[x] == if lens[x] == l then 1 else 0
  {
    seq(|lens|, x requires 0 <= x < |lens| => if lens[x] == l then 1 else 0)
  }

  ghost function Scaled(w: seq<nat>, c: nat, o: seq<nat>): (u: seq<nat>)
    requires |w| == |o|
    ensures |u| == |w| && forall x :: 0 <= x < |w| ==> u[x] == w[x] + c * o[x]
  {
    seq(|w|, x requires 0 <= x < |w| => w[x] + c * o[x])
  }

  lemma {:induction false} SonWeight(father: nat, son: nat, limit: nat, top: nat)
    requires father <= limit <= top && son == if father + 1 > limit then limit else father + 1
    ensures Pow2(top - son) + Pow2(top - son) ==
              Pow2(top - father) + Pow2(top - limit) * (if father == limit then 1 else 0)
  {
  }

  /** Clamping one level of sons adds one unit of the last length per clamped pair. */
  lemma {:induction false} PairKraft(ord: seq<nat>, elems: nat, leaves: set<nat>, k: nat, lens: seq<nat>, limit: nat, top: nat, i: nat)
    requires Shape(ord, elems, leaves, k) && Clamped(ord, lens, elems, k, limit) && i < k && elems + k <= |lens|
    requires limit <= top && InRange(ord, |lens|)
    ensures PairWeighs(ord, Weights(lens, top), Scaled(Weights(lens, top), Pow2(top - limit), Marks(lens, limit)), elems, k, i)
  {
    var d := elems + k - 1 - i;
    assert LenOk(ord, lens, elems, k, limit, 2 * i + 1) && LenOk(ord, lens, elems, k, limit, 2 * i + 2);
    assert Dad(elems, k, 2 * i + 1) == d && Dad(elems, k, 2 * i + 2) == d;
    InternalLens(ord, elems, leaves, k, lens, limit, k - 1 - i);
    SonWeight(lens[d], lens[ord[2 * i + 1]], limit, top);
  }

  /** Number of internal nodes at the limit: half the number of clamped nodes. */
  ghost function AtLimit(lens: seq<nat>, elems: nat, k: nat, limit: nat): nat
    requires elems + k <= |lens|
  {
    RangeSum(Marks(lens, limit), elems, elems + k)
  }

  /** The Kraft sum of the leaves exceeds 1 by one unit of the last length per clamped pair. */
  lemma {:induction false} LeafKraft(ord: seq<nat>, elems: nat, leaves: set<nat>, k: nat, lens: seq<nat>, limit: nat, top: nat)
    requires Shape(ord, elems, leaves, k) && Clamped(ord, lens, elems, k, limit) && elems + k <= |lens|
    requires limit <= top && InRange(ord, |lens|)
    ensures MaskSum(leaves, Weights(lens, top)) == Pow2(top) + Pow2(top - limit) * AtLimit(lens, elems, k, limit)
  {
    var w, o, c := Weights(lens, top), Marks(lens, limit), Pow2(top - limit);
    var u := Scaled(w, c, o);
    forall j: nat | j < k ensures PairWeighs(ord, w, u, elems, k, j) {
      PairKraft(ord, elems, leaves, k, lens, limit, top, j);
    }
    TreeSum(ord, w, u, elems, leaves, k);
    RangeAdd(u, w, c, o, elems, elems + k);
  }

  /** What the sons of each internal node weigh. */
  ghost function SonSums(ord: seq<nat>, w: seq<nat>, elems: nat, k: nat): (u: seq<nat>)
    requires |ord| == 2 * k + 1 && InRange(ord, |w|) && elems + k <= |w|
    ensures |u| == |w|
    ensures forall j: nat :: j < k ==> PairWeighs(ord, w, u, elems, k, j)
  {
    var u := seq(|w|, x requires 0 <= x < |w| =>
      if elems <= x < elems + k then
        w[ord[2 * (elems + k - 1 - x) + 1]] + w[ord[2 * (elems + k - 1 - x) + 2]]
      else 0);
    assert forall j: nat :: j < k ==> u[elems + k - 1 - j] == w[ord[2 * j + 1]] + w[ord[2 * j + 2]];
    u
  }

  lemma {:induction false} RangeAtLeast(u: seq<nat>, o: seq<nat>, a: nat, b: nat)
    requires |u| == |o| && b <= |u| && forall x :: a <= x < b ==> u[x] >= 2 * o[x]
    ensures RangeSum(u, a, b) >= 2 * RangeSum(o, a, b)
    decreases b - a
  {
    if a < b {
      RangeAtLeast(u, o, a + 1, b);
    }
  }

  lemma {:induction false} SonsAtLimit(ord: seq<nat>, elems: nat, k: nat, lens: seq<nat>, limit: nat, o: seq<nat>, u: seq<nat>, i: nat)
    requires Clamped(ord, lens, elems, k, limit) && elems + k <= |lens| && i < k && o == Marks(lens, limit)
    requires PairWeighs(ord, o, u, elems, k, i)
    ensures u[elems + k - 1 - i] >= 2 * o[elems + k - 1 - i]
  {
    assert LenOk(ord, lens, elems, k, limit, 2 * i + 1) && LenOk(ord, lens, elems, k, limit, 2 * i + 2);
    assert Dad(elems, k, 2 * i + 1) == elems + k - 1 - i && Dad(elems, k, 2 * i + 2) == elems + k - 1 - i;
  }

  lemma {:induction false} SonsTwice(ord: seq<nat>, elems: nat, k: nat, lens: seq<nat>, limit: nat, o: seq<nat>, u: seq<nat>)
    requires Clamped(ord, lens, elems, k, limit) && elems + k <= |lens| == |u| && o == Marks(lens, limit)
    requires forall j: nat :: j < k ==> PairWeighs(ord, o, u, elems, k, j)
    ensures RangeSum(u, elems, elems + k) >= 2 * RangeSum(o, elems, elems + k)
  {
    forall x: nat | elems <= x < elems + k ensures u[x] >= 2 * o[x] {
      SonsAtLimit(ord, elems, k, lens, limit, o, u, elems + k - 1 - x);
    }
    RangeAtLeast(u, o, elems, elems + k);
  }

  /** At least as many leaves stand at the limit as pairs were clamped. */
  lemma {:induction false} LeavesAtLimit(ord: seq<nat>, elems: nat, leaves: set<nat>, k: nat, lens: seq<nat>, limit: nat)
    requires Shape(ord, elems, leaves, k) && Clamped(ord, lens, elems, k, limit) && elems + k <= |lens|
    requires InRange(ord, |lens|)
    ensures MaskSum(leaves, Marks(lens, limit)) >= AtLimit(lens, elems, k, limit)
  {
    var o := Marks(lens, limit);
    var u := SonSums(ord, o, elems, k);
    TreeSum(ord, o, u, elems, leaves, k);
    SonsTwice(ord, elems, k, lens, limit, o, u);
  }
}
