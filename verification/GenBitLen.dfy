/**
 `gen_bitlen` of trees.c: code lengths from the tree, limited to max_length.

 Clamping lengths over-subscribes the code; the repair moves leaves down until the Kraft
 sum is exactly 1 again, and the lengths are handed out anew from the rarest symbol up.
 */
module GenBitLen {
  import opened Bits
  import opened Huffman
  import opened Sums
  import opened HuffmanTree
  import opened BuildTree

  // ----- counts of leaves by length -----

  /** Kraft sum of bl_count, lengths 1..l. */
  ghost function KraftOf(c: seq<nat>, l: nat): nat
    requires l <= MAX_BITS < |c|
  {
    if l == 0 then 0 else KraftOf(c, l - 1) + c[l] * Width(l)
  }

  ghost function Total(c: seq<nat>, l: nat): nat
    requires l <= MAX_BITS < |c|
  {
    if l == 0 then 0 else Total(c, l - 1) + c[l]
  }

  lemma {:induction false} ScaleChange(v: int, c: int, w: int)
    ensures v * w == c * w + (v - c) * w
  {
  }

  lemma {:induction false} KraftUpdate(c: seq<nat>, b: nat, v: nat, l: nat)
    requires l <= MAX_BITS < |c| && 1 <= b <= MAX_BITS
    ensures KraftOf(c[b := v], l) == KraftOf(c, l) + (if b <= l then (v - c[b]) * Width(b) else 0)
    ensures Total(c[b := v], l) == Total(c, l) + (if b <= l then v - c[b] else 0)
  {
    if l > 0 {
      KraftUpdate(c, b, v, l - 1);
      if b == l {
        ScaleChange(v, c[b], Width(b));
      }
    }
  }

  /** With one length in use only, sum and number of leaves are that length's. */
  lemma {:induction false} OneLength(c: seq<nat>, limit: nat, l: nat)
    requires 1 <= limit <= MAX_BITS < |c| && l <= MAX_BITS
    requires forall b :: 1 <= b <= MAX_BITS && b != limit ==> c[b] == 0
    ensures KraftOf(c, l) == (if limit <= l then c[limit] * Width(limit) else 0)
    ensures Total(c, l) == (if limit <= l then c[limit] else 0)
  {
    if l > 0 {
      OneLength(c, limit, l - 1);
    }
  }

  /** State of the repair with `half` units of the last length too many. */
  ghost predicate Excess(c: seq<nat>, limit: nat, half: nat)
  {
    && |c| == MAX_BITS + 1 && 1 <= limit <= MAX_BITS && c[0] == 0
    && (forall b :: limit < b <= MAX_BITS ==> c[b] == 0)
    && KraftOf(c, MAX_BITS) == Pow2(MAX_BITS) + half * Width(limit)
    && Total(c, MAX_BITS) <= Pow2(limit) && half <= c[limit]
  }

  lemma {:induction false} NoRoom(c: nat, n: nat, w: nat, half: nat)
    requires c <= n && w > 0 && half > 0
    ensures c * w < n * w + half * w
  {
    MulMono(w, c, n);
    MulMono(w, 1, half);
  }

  /** While the code is over-subscribed some leaf is shorter than the limit. */
  lemma {:induction false} ShorterLeaf(c: seq<nat>, limit: nat, half: nat) returns (b: nat)
    requires Excess(c, limit, half) && half > 0
    ensures 1 <= b < limit && c[b] > 0
  {
    Pow2Add(limit, MAX_BITS - limit);
    if forall b :: 1 <= b < limit ==> c[b] == 0 {
      OneLength(c, limit, MAX_BITS);
      NoRoom(c[limit], Pow2(limit), Width(limit), half);
      b := 1;
    } else {
      b :| 1 <= b < limit && c[b] > 0;
    }
  }

  lemma {:induction false} OneLess(c: seq<nat>, b: nat)
    requires |c| == MAX_BITS + 1 && 1 <= b <= MAX_BITS && c[b] > 0
    ensures KraftOf(c[b := c[b] - 1], MAX_BITS) == KraftOf(c, MAX_BITS) - Width(b)
    ensures Total(c[b := c[b] - 1], MAX_BITS) == Total(c, MAX_BITS) - 1
  {
    KraftUpdate(c, b, c[b] - 1, MAX_BITS);
  }

  lemma {:induction false} TwoMore(c: seq<nat>, b: nat)
    requires |c| == MAX_BITS + 1 && 1 <= b <= MAX_BITS
    ensures KraftOf(c[b := c[b] + 2], MAX_BITS) == KraftOf(c, MAX_BITS) + 2 * Width(b)
    ensures Total(c[b := c[b] + 2], MAX_BITS) == Total(c, MAX_BITS) + 2
  {
    KraftUpdate(c, b, c[b] + 2, MAX_BITS);
  }

  lemma {:induction false} OneUnitLess(half: int, v: int)
    ensures half * v - v == (half - 1) * v
  {
  }

  /** Move one leaf of length b down, with one leaf of the last length as its brother. */
  lemma {:induction false} MoveKraft(c: seq<nat>, limit: nat, half: nat, b: nat, c1: seq<nat>, c2: seq<nat>, c3: seq<nat>)
    requires |c| == MAX_BITS + 1 && 1 <= b < limit <= MAX_BITS && c[b] > 0 && half > 0
    requires KraftOf(c, MAX_BITS) == Pow2(MAX_BITS) + half * Width(limit)
    requires c1 == c[b := c[b] - 1] && c2 == c1[b + 1 := c1[b + 1] + 2] && c2[limit] >= 1 && c3 == c2[limit := c2[limit] - 1]
    ensures KraftOf(c3, MAX_BITS) == Pow2(MAX_BITS) + (half - 1) * Width(limit)
    ensures Total(c3, MAX_BITS) == Total(c, MAX_BITS)
  {
    OneLess(c, b);
    TwoMore(c1, b + 1);
    OneLess(c2, limit);
    assert Width(b) == 2 * Width(b + 1);
    OneUnitLess(half, Width(limit));
  }

  lemma {:induction false} MoveLeaf(c: seq<nat>, limit: nat, half: nat, b: nat, c1: seq<nat>, c2: seq<nat>, c3: seq<nat>)
    requires Excess(c, limit, half) && half > 0 && 1 <= b < limit && c[b] > 0
    requires c1 == c[b := c[b] - 1] && c2 == c1[b + 1 := c1[b + 1] + 2] && c2[limit] >= 1 && c3 == c2[limit := c2[limit] - 1]
    ensures Excess(c3, limit, half - 1) && Total(c3, MAX_BITS) == Total(c, MAX_BITS)
  {
    MoveKraft(c, limit, half, b, c1, c2, c3);
  }

  /** The repair loop. */
  method Repair(counts: seq<nat>, limit: nat, over: nat, ghost half0: nat) returns (c: seq<nat>)
    requires Excess(counts, limit, half0) && over == 2 * half0
    ensures Excess(c, limit, 0) && Total(c, MAX_BITS) == Total(counts, MAX_BITS)
  {
    c := counts;
    var overflow: int := over;
    ghost var half := half0;
    while overflow > 0
      invariant overflow == 2 * half && Excess(c, limit, half) && Total(c, MAX_BITS) == Total(counts, MAX_BITS)
    {
      ghost var found := ShorterLeaf(c, limit, half);
      var bits := LastShorter(c, limit, found);
      ghost var c0 := c;
      c := c[bits := c[bits] - 1];
      ghost var c1 := c;
      c := c[bits + 1 := c[bits + 1] + 2];
      ghost var c2 := c;
      c := c[limit := c[limit] - 1];
      MoveLeaf(c0, limit, half, bits, c1, c2, c);
      overflow := overflow - 2;
      half := half - 1;
    }
  }

  /** The longest length below the limit that is in use. */
  method LastShorter(c: seq<nat>, limit: nat, ghost found: nat) returns (bits: nat)
    requires |c| == MAX_BITS + 1 && 1 <= found < limit <= MAX_BITS && c[found] > 0
    ensures 1 <= bits < limit && c[bits] > 0 && forall b :: bits < b < limit ==> c[b] == 0
  {
    bits := limit - 1;
    while c[bits] == 0
      invariant found <= bits < limit && forall b :: bits < b < limit ==> c[b] == 0
      decreases bits
    {
      bits := bits - 1;
    }
  }

  // ----- the first pass -----

  function Clamp(bits: nat, limit: nat): nat { if bits > limit then limit else bits }

  /** The root's slice of the heap is a tree whose fathers are in dl. */
  ghost predicate Tree(ord: seq<nat>, dl: seq<nat>, elems: nat, leaves: set<nat>, k: nat)
  {
    && Shape(ord, elems, leaves, k) && Dads(ord, dl, elems, k)
    && InRange(ord, |dl|) && elems + k <= |dl|
  }

  /** The root and i more nodes have their lengths in dl, the others still their fathers. */
  ghost predicate Halfway(ord: seq<nat>, dl: seq<nat>, elems: nat, k: nat, limit: nat, i: nat)
  {
    && ord != [] && ord[0] < |dl| && dl[ord[0]] == 0
    && (forall j: nat :: 1 <= j <= i && j <= 2 * k ==> LenOk(ord, dl, elems, k, limit, j))
    && (forall j: nat :: i < j <= 2 * k ==> SonOk(ord, dl, elems, k, j))
  }

  lemma {:induction false} DadAt(ord: seq<nat>, elems: nat, leaves: set<nat>, k: nat, i: nat) returns (pos: nat)
    requires Shape(ord, elems, leaves, k) && 1 <= i <= 2 * k
    ensures pos < i && ord[pos] == Dad(elems, k, i)
  {
    pos := InternalAt(ord, elems, leaves, k, (2 * k - i) / 2);
  }

  /** Fathers come before their sons, so they are not overwritten with them. */
  lemma {:induction false} DadDiffers(ord: seq<nat>, elems: nat, leaves: set<nat>, k: nat, j: nat, i: nat)
    requires Shape(ord, elems, leaves, k) && 1 <= j <= i <= 2 * k
    ensures Dad(elems, k, j) != ord[i]
  {
    var pos := DadAt(ord, elems, leaves, k, j);
    assert Differ(ord, pos, i);
  }

  lemma {:induction false} HalfwayStart(ord: seq<nat>, dl: seq<nat>, elems: nat, leaves: set<nat>, k: nat, limit: nat)
    requires Tree(ord, dl, elems, leaves, k)
    ensures Halfway(ord, dl[ord[0] := 0], elems, k, limit, 0)
  {
    var dl' := dl[ord[0] := 0];
    forall j: nat | 0 < j <= 2 * k ensures SonOk(ord, dl', elems, k, j) {
      assert SonOk(ord, dl, elems, k, j) && Differ(ord, 0, j);
    }
  }

  lemma {:induction false} HalfwayStep(ord: seq<nat>, dl: seq<nat>, elems: nat, leaves: set<nat>, k: nat, limit: nat, i: nat, dl': seq<nat>)
    requires Shape(ord, elems, leaves, k) && Halfway(ord, dl, elems, k, limit, i) && i < 2 * k && InRange(ord, |dl|)
    requires elems + k <= |dl| && dl' == dl[ord[i + 1] := Clamp(dl[Dad(elems, k, i + 1)] + 1, limit)]
    ensures Halfway(ord, dl', elems, k, limit, i + 1)
  {
    assert Differ(ord, 0, i + 1);
    forall j: nat | 1 <= j <= i + 1 ensures LenOk(ord, dl', elems, k, limit, j) {
      DadDiffers(ord, elems, leaves, k, j, i + 1);
      if j <= i {
        assert LenOk(ord, dl, elems, k, limit, j) && Differ(ord, j, i + 1);
      }
    }
    forall j: nat | i + 1 < j <= 2 * k ensures SonOk(ord, dl', elems, k, j) {
      assert SonOk(ord, dl, elems, k, j) && Differ(ord, i + 1, j);
    }
  }

  lemma {:induction false} HalfwayEnd(ord: seq<nat>, dl: seq<nat>, elems: nat, k: nat, limit: nat)
    requires Halfway(ord, dl, elems, k, limit, 2 * k)
    ensures Clamped(ord, dl, elems, k, limit)
  {
  }

  /** Symbols of length b in the list. */
  ghost function LeafCount(list: seq<nat>, lens: seq<nat>, elems: nat, b: nat): nat
  {
    if list == [] then 0
    else
      var n := list[|list| - 1];
      LeafCount(list[..|list| - 1], lens, elems, b) + (if n < elems && n < |lens| && lens[n] == b then 1 else 0)
  }

  /** Bits all occurrences of a symbol take. */
  ghost function SymbolBits(freq: seq<nat>, lens: seq<nat>, desc: Desc, n: nat): nat
  {
    if n < desc.elems && n < |freq| && n < |lens| then freq[n] * (lens[n] + desc.Xbits(n)) else 0
  }

  /** The same with the static code. */
  ghost function StaticSymbolBits(freq: seq<nat>, desc: Desc, n: nat): nat
  {
    if desc.hasStatic && n < desc.elems && n < |freq| then freq[n] * (desc.StaticLen(n) + desc.Xbits(n)) else 0
  }

  ghost function ListBits(list: seq<nat>, freq: seq<nat>, lens: seq<nat>, desc: Desc): nat
  {
    if list == [] then 0
    else ListBits(list[..|list| - 1], freq, lens, desc) + SymbolBits(freq, lens, desc, list[|list| - 1])
  }

  ghost function ListStatic(list: seq<nat>, freq: seq<nat>, desc: Desc): nat
  {
    if list == [] then 0
    else ListStatic(list[..|list| - 1], freq, desc) + StaticSymbolBits(freq, desc, list[|list| - 1])
  }

  lemma {:induction false} CountAgrees(list: seq<nat>, lens: seq<nat>, lens': seq<nat>, elems: nat, b: nat)
    requires |lens| == |lens'| && forall t :: 0 <= t < |list| && list[t] < |lens| ==> lens'[list[t]] == lens[list[t]]
    ensures LeafCount(list, lens', elems, b) == LeafCount(list, lens, elems, b)
  {
    if list != [] {
      CountAgrees(list[..|list| - 1], lens, lens', elems, b);
    }
  }

  lemma {:induction false} BitsAgree(list: seq<nat>, freq: seq<nat>, lens: seq<nat>, lens': seq<nat>, desc: Desc)
    requires |lens| == |lens'| && forall t :: 0 <= t < |list| && list[t] < |lens| ==> lens'[list[t]] == lens[list[t]]
    ensures ListBits(list, freq, lens', desc) == ListBits(list, freq, lens, desc)
  {
    if list != [] {
      BitsAgree(list[..|list| - 1], freq, lens, lens', desc);
    }
  }

  /** Clamped nodes among the first i. */
  ghost function OverCount(lens: seq<nat>, elems: nat, k: nat, limit: nat, i: nat): nat
    requires i <= 2 * k && elems + k <= |lens|
  {
    if i == 0 then 0
    else OverCount(lens, elems, k, limit, i - 1) + (if lens[Dad(elems, k, i)] + 1 > limit then 1 else 0)
  }

  lemma {:induction false} OverAgrees(ord: seq<nat>, lens: seq<nat>, lens': seq<nat>, elems: nat, leaves: set<nat>, k: nat, limit: nat, i: nat, n: nat)
    requires Shape(ord, elems, leaves, k) && i <= n <= 2 * k && elems + k <= |lens| == |lens'| && n >= 1
    requires forall x :: 0 <= x < |lens| && x != ord[n] ==> lens'[x] == lens[x]
    ensures OverCount(lens', elems, k, limit, i) == OverCount(lens, elems, k, limit, i)
  {
    if i > 0 {
      OverAgrees(ord, lens, lens', elems, leaves, k, limit, i - 1, n);
      DadDiffers(ord, elems, leaves, k, i, n);
    }
  }

  lemma {:induction false} OverIsTwice(ord: seq<nat>, lens: seq<nat>, elems: nat, leaves: set<nat>, k: nat, limit: nat, i: nat)
    requires Shape(ord, elems, leaves, k) && Clamped(ord, lens, elems, k, limit) && i <= k && elems + k <= |lens|
    ensures OverCount(lens, elems, k, limit, 2 * i) == 2 * RangeSum(Marks(lens, limit), elems + k - i, elems + k)
  {
    if i > 0 {
      OverIsTwice(ord, lens, elems, leaves, k, limit, i - 1);
      InternalLens(ord, elems, leaves, k, lens, limit, k - i);
      assert Dad(elems, k, 2 * i) == elems + k - i && Dad(elems, k, 2 * i - 1) == elems + k - i;
      assert OverCount(lens, elems, k, limit, 2 * i) ==
             OverCount(lens, elems, k, limit, 2 * i - 2) + 2 * (if lens[elems + k - i] + 1 > limit then 1 else 0);
    }
  }

  /** bl_count, as far as the list goes. */
  ghost predicate Counted(c: seq<nat>, list: seq<nat>, lens: seq<nat>, elems: nat)
  {
    |c| == MAX_BITS + 1 && forall b: nat :: b <= MAX_BITS ==> c[b] == LeafCount(list, lens, elems, b)
  }

  /** All that the first pass has computed for the nodes of a list. */
  ghost predicate Passed(list: seq<nat>, lens: seq<nat>, freq: seq<nat>, desc: Desc, c: seq<nat>, opt: int, stat: int)
  {
    && Counted(c, list, lens, desc.elems)
    && opt == ListBits(list, freq, lens, desc) && stat == ListStatic(list, freq, desc)
  }

  /** The prefix of the list is not affected by the length of a later node. */
  lemma {:induction false} PassedAgrees(ord: seq<nat>, i: nat, lens: seq<nat>, v: nat, freq: seq<nat>, desc: Desc, c: seq<nat>, opt: int, stat: int)
    requires i < |ord| && Distinct(ord) && ord[i] < |lens| && Passed(ord[..i], lens, freq, desc, c, opt, stat)
    ensures Passed(ord[..i], lens[ord[i] := v], freq, desc, c, opt, stat)
  {
    var lens' := lens[ord[i] := v];
    forall t | 0 <= t < i ensures ord[..i][t] != ord[i] {
      assert Differ(ord, t, i);
    }
    forall b: nat | b <= MAX_BITS ensures LeafCount(ord[..i], lens', desc.elems, b) == LeafCount(ord[..i], lens, desc.elems, b) {
      CountAgrees(ord[..i], lens, lens', desc.elems, b);
    }
    BitsAgree(ord[..i], freq, lens, lens', desc);
  }

  lemma {:induction false} PassInternal(list: seq<nat>, n: nat, lens: seq<nat>, freq: seq<nat>, desc: Desc, c: seq<nat>, opt: int, stat: int)
    requires Passed(list, lens, freq, desc, c, opt, stat) && n >= desc.elems
    ensures Passed(list + [n], lens, freq, desc, c, opt, stat)
  {
    assert (list + [n])[..|list|] == list;
  }

  lemma {:induction false} PassLeaf(list: seq<nat>, n: nat, lens: seq<nat>, freq: seq<nat>, desc: Desc, c: seq<nat>, opt: int, stat: int,
                 c': seq<nat>, opt': int, stat': int)
    requires Passed(list, lens, freq, desc, c, opt, stat) && n < desc.elems && n < |lens| == |freq| && lens[n] <= MAX_BITS
    requires c' == c[lens[n] := c[lens[n]] + 1]
    requires opt' == opt + SymbolBits(freq, lens, desc, n) && stat' == stat + StaticSymbolBits(freq, desc, n)
    ensures Passed(list + [n], lens, freq, desc, c', opt', stat')
  {
    assert (list + [n])[..|list|] == list;
    forall b: nat | b <= MAX_BITS ensures c'[b] == LeafCount(list + [n], lens, desc.elems, b) {
      assert LeafCount(list + [n], lens, desc.elems, b) ==
             LeafCount(list, lens, desc.elems, b) + (if lens[n] == b then 1 else 0);
    }
  }

  lemma {:induction false} LeafTest(ord: seq<nat>, elems: nat, leaves: set<nat>, k: nat, max_code: int, i: nat)
    requires Shape(ord, elems, leaves, k) && AtMost(leaves, max_code) && max_code < elems && i < |ord|
    ensures ord[i] > max_code <==> ord[i] >= elems
    ensures ord[i] < elems <==> ord[i] in leaves
  {
    assert ord[i] in ord;
  }

  lemma {:induction false} ClampedBound(ord: seq<nat>, lens: seq<nat>, elems: nat, k: nat, limit: nat, j: nat)
    requires Clamped(ord, lens, elems, k, limit) && |ord| == 2 * k + 1 && j < |ord|
    ensures ord[j] < |lens| && lens[ord[j]] <= limit && (j >= 1 && limit >= 1 ==> lens[ord[j]] >= 1)
  {
    if j >= 1 {
      assert LenOk(ord, lens, elems, k, limit, j);
    }
  }

  /** One node of the first pass: n is the i-th of the list. */
  method PassOne(n: nat, dl: seq<nat>, c: seq<nat>, over: nat, opt_len: int, static_len: int,
                 freq: seq<nat>, desc: Desc, max_code: int, ghost ord: seq<nat>, ghost i: nat, ghost opt: int, ghost stat: int)
    returns (dl': seq<nat>, c': seq<nat>, over': nat, opt_len': int, static_len': int)
    requires desc.Valid() && i < |ord| && n == ord[i] && Distinct(ord)
    requires Passed(ord[..i], dl, freq, desc, c, opt_len - opt, static_len - stat)
    requires n < |dl| == |freq| && dl[n] < |dl| && (n > max_code <==> n >= desc.elems)
    ensures dl' == dl[n := Clamp(dl[dl[n]] + 1, desc.maxLength)]
    ensures over' == over + (if dl[dl[n]] + 1 > desc.maxLength then 1 else 0)
    ensures Passed(ord[..i + 1], dl', freq, desc, c', opt_len' - opt, static_len' - stat)
  {
    var bits := dl[dl[n]] + 1;
    c', over', opt_len', static_len' := c, over, opt_len, static_len;
    if bits > desc.maxLength {
      bits := desc.maxLength;
      over' := over + 1;
    }
    dl' := dl[n := bits];
    PassedAgrees(ord, i, dl, bits, freq, desc, c, opt_len - opt, static_len - stat);
    assert ord[..i] + [n] == ord[..i + 1];
    if n > max_code {
      PassInternal(ord[..i], n, dl', freq, desc, c, opt_len - opt, static_len - stat);
    } else {
      c' := c[bits := c[bits] + 1];
      var xbits := 0;
      if n >= desc.base { xbits := desc.extra[n - desc.base]; }
      var f := freq[n];
      opt_len' := opt_len + f * (bits + xbits);
      if desc.hasStatic { static_len' := static_len + f * (desc.staticLens[n] + xbits); }
      PassLeaf(ord[..i], n, dl', freq, desc, c, opt_len - opt, static_len - stat, c', opt_len' - opt, static_len' - stat);
    }
  }

  lemma {:induction false} NodeFacts(ord: seq<nat>, dl: seq<nat>, elems: nat, leaves: set<nat>, k: nat, limit: nat, i: nat, max_code: int)
    requires Shape(ord, elems, leaves, k) && InRange(ord, |dl|) && elems + k <= |dl|
    requires Halfway(ord, dl, elems, k, limit, i) && i < 2 * k && AtMost(leaves, max_code) && max_code < elems
    ensures dl[ord[i + 1]] == Dad(elems, k, i + 1) < |dl|
    ensures ord[i + 1] > max_code <==> ord[i + 1] >= elems
  {
    assert SonOk(ord, dl, elems, k, i + 1);
    LeafTest(ord, elems, leaves, k, max_code, i + 1);
  }

  /** The state of the first pass after i nodes below the root. */
  ghost predicate Walking(ord: seq<nat>, dl: seq<nat>, dl0: seq<nat>, freq: seq<nat>, desc: Desc, k: nat, i: nat,
                          over: nat, c: seq<nat>, opt: int, stat: int)
  {
    var sizes := i <= 2 * k && |ord| == 2 * k + 1 && InRange(ord, |dl|) && |dl| == |dl0| == |freq| && desc.elems + k <= |dl|;
    sizes && (forall x :: 0 <= x < |dl| && x !in ord ==> dl[x] == dl0[x])
    && Halfway(ord, dl, desc.elems, k, desc.maxLength, i)
    && over == OverCount(dl, desc.elems, k, desc.maxLength, i)
    && Passed(ord[..i + 1], dl, freq, desc, c, opt, stat)
  }

  lemma {:induction false} WalkStart(ord: seq<nat>, dl0: seq<nat>, freq: seq<nat>, desc: Desc, leaves: set<nat>, k: nat, c: seq<nat>)
    requires Tree(ord, dl0, desc.elems, leaves, k) && |freq| == |dl0| && c == seq(MAX_BITS + 1, _ => 0)
    ensures Walking(ord, dl0[ord[0] := 0], dl0, freq, desc, k, 0, 0, c, 0, 0)
  {
    HalfwayStart(ord, dl0, desc.elems, leaves, k, desc.maxLength);
    assert ord[..1] == [] + [ord[0]];
    PassInternal([], ord[0], dl0[ord[0] := 0], freq, desc, c, 0, 0);
    assert ord[0] in ord;
  }

  lemma {:induction false} WalkEnd(ord: seq<nat>, dl: seq<nat>, dl0: seq<nat>, freq: seq<nat>, desc: Desc, k: nat,
                over: nat, c: seq<nat>, opt: int, stat: int)
    requires Walking(ord, dl, dl0, freq, desc, k, 2 * k, over, c, opt, stat)
    ensures Clamped(ord, dl, desc.elems, k, desc.maxLength)
    ensures Passed(ord, dl, freq, desc, c, opt, stat)
  {
    assert ord[..2 * k + 1] == ord;
    HalfwayEnd(ord, dl, desc.elems, k, desc.maxLength);
  }

  method WalkOne(n: nat, dl: seq<nat>, c: seq<nat>, over: nat, opt_len: int, static_len: int,
                 freq: seq<nat>, desc: Desc, max_code: int, ghost ord: seq<nat>, ghost dl0: seq<nat>,
                 ghost leaves: set<nat>, ghost k: nat, ghost i: nat, ghost opt: int, ghost stat: int)
    returns (dl': seq<nat>, c': seq<nat>, over': nat, opt_len': int, static_len': int)
    requires desc.Valid() && Shape(ord, desc.elems, leaves, k) && AtMost(leaves, max_code) && max_code < desc.elems
    requires i < 2 * k && n == ord[i + 1]
    requires Walking(ord, dl, dl0, freq, desc, k, i, over, c, opt_len - opt, static_len - stat)
    ensures Walking(ord, dl', dl0, freq, desc, k, i + 1, over', c', opt_len' - opt, static_len' - stat)
  {
    NodeFacts(ord, dl, desc.elems, leaves, k, desc.maxLength, i, max_code);
    dl', c', over', opt_len', static_len' :=
      PassOne(n, dl, c, over, opt_len, static_len, freq, desc, max_code, ord, i + 1, opt, stat);
    HalfwayStep(ord, dl, desc.elems, leaves, k, desc.maxLength, i, dl');
    OverStep(ord, dl, dl', desc.elems, leaves, k, desc.maxLength, i);
    assert n in ord;
  }

  /** Lengths by depth in the tree, clamped to the limit. */
  method FirstPass(heap: array<nat>, max: nat, freq: seq<nat>, dl0: seq<nat>, desc: Desc, max_code: int,
                   opt: int, stat: int, ghost leaves: set<nat>, ghost k: nat)
    returns (dl: seq<nat>, c: seq<nat>, over: nat, opt_len: int, static_len: int)
    requires desc.Valid() && heap.Length == HEAP_SIZE && max + 2 * k + 1 == HEAP_SIZE && |freq| == |dl0|
    requires Tree(heap[max..], dl0, desc.elems, leaves, k) && AtMost(leaves, max_code) && max_code < desc.elems
    ensures Walking(heap[max..], dl, dl0, freq, desc, k, 2 * k, over, c, opt_len - opt, static_len - stat)
  {
    ghost var ord := heap[max..];
    c := seq(MAX_BITS + 1, _ => 0);
    over, opt_len, static_len := 0, opt, stat;
    dl := dl0[heap[max] := 0];
    WalkStart(ord, dl0, freq, desc, leaves, k, c);
    var h := max + 1;
    ghost var i: nat := 0;
    while h < HEAP_SIZE
      invariant h == max + 1 + i
      invariant Walking(ord, dl, dl0, freq, desc, k, i, over, c, opt_len - opt, static_len - stat)
    {
      dl, c, over, opt_len, static_len := WalkOne(heap[h], dl, c, over, opt_len, static_len, freq, desc, max_code,
                                                  ord, dl0, leaves, k, i, opt, stat);
      h, i := h + 1, i + 1;
    }
  }

  lemma {:induction false} OverStep(ord: seq<nat>, dl: seq<nat>, dl': seq<nat>, elems: nat, leaves: set<nat>, k: nat, limit: nat, i: nat)
    requires Shape(ord, elems, leaves, k) && i < 2 * k && elems + k <= |dl| == |dl'|
    requires forall x :: 0 <= x < |dl| && x != ord[i + 1] ==> dl'[x] == dl[x]
    ensures OverCount(dl', elems, k, limit, i + 1) ==
              OverCount(dl, elems, k, limit, i) + (if dl[Dad(elems, k, i + 1)] + 1 > limit then 1 else 0)
  {
    OverAgrees(ord, dl, dl', elems, leaves, k, limit, i, i + 1);
    DadDiffers(ord, elems, leaves, k, i + 1, i + 1);
  }

  // ----- handing the repaired lengths out -----

  lemma {:induction false} CountConcat(a: seq<nat>, b: seq<nat>, lens: seq<nat>, elems: nat, l: nat)
    ensures LeafCount(a + b, lens, elems, l) == LeafCount(a, lens, elems, l) + LeafCount(b, lens, elems, l)
  {
    if b == [] {
      assert a + b == a;
    } else {
      CountConcat(a, b[..|b| - 1], lens, elems, l);
      assert (a + b)[..|a + b| - 1] == a + b[..|b| - 1];
    }
  }

  lemma {:induction false} BitsConcat(a: seq<nat>, b: seq<nat>, freq: seq<nat>, lens: seq<nat>, desc: Desc)
    ensures ListBits(a + b, freq, lens, desc) == ListBits(a, freq, lens, desc) + ListBits(b, freq, lens, desc)
  {
    if b == [] {
      assert a + b == a;
    } else {
      BitsConcat(a, b[..|b| - 1], freq, lens, desc);
      assert (a + b)[..|a + b| - 1] == a + b[..|b| - 1];
    }
  }

  /** Symbols in the list. */
  ghost function Leaves(list: seq<nat>, elems: nat): nat
  {
    if list == [] then 0
    else Leaves(list[..|list| - 1], elems) + (if list[|list| - 1] < elems then 1 else 0)
  }

  /** Changing the length of the j-th node. */
  lemma {:induction false} NodeChange(ord: seq<nat>, j: nat, freq: seq<nat>, lens: seq<nat>, v: nat, desc: Desc)
    requires Distinct(ord) && j < |ord| && ord[j] < |lens|
    ensures var lens' := lens[ord[j] := v];
            ListBits(ord, freq, lens', desc) ==
              ListBits(ord, freq, lens, desc) - SymbolBits(freq, lens, desc, ord[j]) + SymbolBits(freq, lens', desc, ord[j])
  {
    var n, lens' := ord[j], lens[ord[j] := v];
    var a, b := ord[..j], ord[j + 1..];
    forall t | 0 <= t < |a| ensures a[t] != n { assert Differ(ord, t, j); }
    forall t | 0 <= t < |b| ensures b[t] != n { assert Differ(ord, j, j + 1 + t); }
    SplitBits(ord, j, freq, lens, desc);
    SplitBits(ord, j, freq, lens', desc);
    BitsAgree(a, freq, lens, lens', desc);
    BitsAgree(b, freq, lens, lens', desc);
  }

  lemma {:induction false} RestUnchanged(ord: seq<nat>, j: nat, lens: seq<nat>, v: nat, elems: nat, b: nat)
    requires Distinct(ord) && j < |ord| && ord[j] < |lens|
    ensures LeafCount(ord[j + 1..], lens[ord[j] := v], elems, b) == LeafCount(ord[j + 1..], lens, elems, b)
  {
    var rest := ord[j + 1..];
    forall t | 0 <= t < |rest| ensures rest[t] != ord[j] { assert Differ(ord, j, j + 1 + t); }
    CountAgrees(rest, lens, lens[ord[j] := v], elems, b);
  }

  lemma {:induction false} SplitBits(ord: seq<nat>, j: nat, freq: seq<nat>, lens: seq<nat>, desc: Desc)
    requires j < |ord|
    ensures ListBits(ord, freq, lens, desc) ==
              ListBits(ord[..j], freq, lens, desc) + SymbolBits(freq, lens, desc, ord[j]) + ListBits(ord[j + 1..], freq, lens, desc)
  {
    assert ord == ord[..j + 1] + ord[j + 1..];
    BitsConcat(ord[..j + 1], ord[j + 1..], freq, lens, desc);
    assert ord[..j + 1][..j] == ord[..j];
  }

  ghost predicate GivenAt(ord: seq<nat>, lens: seq<nat>, elems: nat, c: seq<nat>, j: nat, bits: nat, n: nat, b: nat)
  {
    && j <= |ord| && b < |c|
    && LeafCount(ord[j..], lens, elems, b) == if b > bits then c[b] else if b == bits then c[b] - n else 0
  }

  /** Lengths given to the leaves from the j-th node on: all of the lengths above `bits`,
      and all but n of the length `bits`. */
  ghost predicate Given(ord: seq<nat>, lens: seq<nat>, elems: nat, c: seq<nat>, j: nat, bits: nat, n: nat)
  {
    && |c| == MAX_BITS + 1 && j <= |ord| && bits <= MAX_BITS && n <= c[bits] && (bits == 0 ==> n == 0)
    && (forall b: nat :: 1 <= b <= MAX_BITS ==> GivenAt(ord, lens, elems, c, j, bits, n, b))
    && Leaves(ord[..j], elems) == n + (if bits == 0 then 0 else Total(c, bits - 1))
  }

  lemma {:induction false} GiveNone(ord: seq<nat>, lens: seq<nat>, elems: nat, c: seq<nat>, j: nat, bits: nat, n: nat)
    requires Given(ord, lens, elems, c, j, bits, n) && j >= 1 && ord[j - 1] >= elems
    ensures Given(ord, lens, elems, c, j - 1, bits, n)
  {
    assert ord[j - 1..] == [ord[j - 1]] + ord[j..];
    assert ord[..j][..j - 1] == ord[..j - 1];
    var i: nat := j - 1;
    forall b: nat | 1 <= b <= MAX_BITS
      ensures GivenAt(ord, lens, elems, c, i, bits, n, b)
    {
      assert GivenAt(ord, lens, elems, c, j, bits, n, b);
      CountConcat([ord[j - 1]], ord[j..], lens, elems, b);
      assert [ord[j - 1]][..0] == [];
    }
  }

  lemma {:induction false} GiveOne(ord: seq<nat>, lens: seq<nat>, elems: nat, c: seq<nat>, j: nat, bits: nat, n: nat, lens': seq<nat>)
    requires Given(ord, lens, elems, c, j, bits, n) && j >= 1 && n >= 1 && ord[j - 1] < elems
    requires Distinct(ord) && ord[j - 1] < |lens| && lens' == lens[ord[j - 1] := bits]
    ensures Given(ord, lens', elems, c, j - 1, bits, n - 1)
  {
    assert ord[j - 1..] == [ord[j - 1]] + ord[j..];
    assert ord[..j][..j - 1] == ord[..j - 1];
    assert Leaves(ord[..j], elems) == Leaves(ord[..j - 1], elems) + 1;
    var i: nat, n': nat := j - 1, n - 1;
    forall b: nat | 1 <= b <= MAX_BITS
      ensures GivenAt(ord, lens', elems, c, i, bits, n', b)
    {
      assert GivenAt(ord, lens, elems, c, j, bits, n, b);
      RestUnchanged(ord, j - 1, lens, bits, elems, b);
      CountConcat([ord[j - 1]], ord[j..], lens', elems, b);
      assert [ord[j - 1]][..0] == [];
      assert LeafCount([], lens', elems, b) == 0;
      assert LeafCount([ord[j - 1]], lens', elems, b) == if b == bits then 1 else 0;
      assert LeafCount(ord[j..], lens', elems, b) == LeafCount(ord[j..], lens, elems, b);
    }
  }

  /** The next shorter length. */
  lemma {:induction false} NextBits(ord: seq<nat>, lens: seq<nat>, elems: nat, c: seq<nat>, j: nat, bits: nat)
    requires Given(ord, lens, elems, c, j, bits, 0) && bits >= 1 && c[0] == 0
    ensures Given(ord, lens, elems, c, j, bits - 1, c[bits - 1])
  {
    assert bits >= 2 ==> Total(c, bits - 1) == Total(c, bits - 2) + c[bits - 1];
    assert bits == 1 ==> Total(c, 0) == 0;
    var bits': nat := bits - 1;
    var n := c[bits'];
    forall b: nat | 1 <= b <= MAX_BITS
      ensures GivenAt(ord, lens, elems, c, j, bits', n, b)
    {
      assert GivenAt(ord, lens, elems, c, j, bits, 0, b);
    }
  }

  /** Every leaf has a length within the limit; other symbols keep theirs. */
  ghost predicate InLimits(dl: seq<nat>, dl0: seq<nat>, elems: nat, leaves: set<nat>, limit: nat)
  {
    && |dl| == |dl0| && elems <= |dl|
    && (forall x :: 0 <= x < elems ==> if x in leaves then 1 <= dl[x] <= limit else dl[x] == dl0[x])
  }

  ghost predicate Handing(ord: seq<nat>, dl: seq<nat>, dl0: seq<nat>, freq: seq<nat>, desc: Desc, leaves: set<nat>,
                          c: seq<nat>, j: nat, bits: nat, n: nat, opt: int)
  {
    && Given(ord, dl, desc.elems, c, j, bits, n) && InLimits(dl, dl0, desc.elems, leaves, desc.maxLength)
    && opt == ListBits(ord, freq, dl, desc)
  }

  lemma {:induction false} LeafLeft(ord: seq<nat>, lens: seq<nat>, elems: nat, c: seq<nat>, j: nat, bits: nat, n: nat)
    requires Given(ord, lens, elems, c, j, bits, n) && n > 0
    ensures j > 0
  {
    assert ord[..0] == [];
  }

  lemma {:induction false} HandLeaf(ord: seq<nat>, dl: seq<nat>, dl0: seq<nat>, freq: seq<nat>, desc: Desc, leaves: set<nat>,
                 c: seq<nat>, j: nat, bits: nat, n: nat, opt: int, dl': seq<nat>, opt': int)
    requires Handing(ord, dl, dl0, freq, desc, leaves, c, j, bits, n, opt) && 1 <= j && 1 <= n && Distinct(ord)
    requires ord[j - 1] < desc.elems && ord[j - 1] in leaves && |freq| == |dl| && 1 <= bits <= desc.maxLength
    requires dl' == dl[ord[j - 1] := bits] && opt' == opt + (bits - dl[ord[j - 1]]) * freq[ord[j - 1]]
    ensures Handing(ord, dl', dl0, freq, desc, leaves, c, j - 1, bits, n - 1, opt')
  {
    var m := ord[j - 1];
    GiveOne(ord, dl, desc.elems, c, j, bits, n, dl');
    NodeChange(ord, j - 1, freq, dl, bits, desc);
    BitsChange(freq[m], dl[m], bits, desc.Xbits(m));
  }

  lemma {:induction false} BitsChange(f: nat, l: nat, b: nat, x: nat)
    ensures f * (b + x) == f * (l + x) + (b - l) * f
  {
    assert f * (b + x) == f * b + f * x && f * (l + x) == f * l + f * x;
  }

  lemma {:induction false} SameUpdate(dl: seq<nat>, m: nat)
    requires m < |dl|
    ensures dl[m := dl[m]] == dl
  {
  }

  lemma {:induction false} HandNext(ord: seq<nat>, dl: seq<nat>, dl0: seq<nat>, freq: seq<nat>, desc: Desc, leaves: set<nat>,
                 c: seq<nat>, j: nat, bits: nat, opt: int)
    requires Handing(ord, dl, dl0, freq, desc, leaves, c, j, bits, 0, opt) && bits >= 1 && c[0] == 0
    ensures Handing(ord, dl, dl0, freq, desc, leaves, c, j, bits - 1, c[bits - 1], opt)
  {
    NextBits(ord, dl, desc.elems, c, j, bits);
  }

  /** The length of a leaf, if it changes. */
  method SetLength(dl: seq<nat>, m: nat, bits: nat, freq: seq<nat>, opt_len: int) returns (dl': seq<nat>, opt_len': int)
    requires m < |dl| && m < |freq|
    ensures dl' == dl[m := bits] && opt_len' == opt_len + (bits - dl[m]) * freq[m]
  {
    dl', opt_len' := dl, opt_len;
    if dl[m] != bits {
      opt_len' := opt_len + (bits - dl[m]) * freq[m];
      dl' := dl[m := bits];
    } else {
      SameUpdate(dl, m);
    }
  }

  /** One node, going up the list: m is the node before the j-th. */
  method GiveNode(m: nat, bits: nat, n: nat, dl: seq<nat>, freq: seq<nat>, desc: Desc, max_code: int, opt_len: int,
                  ghost ord: seq<nat>, ghost dl0: seq<nat>, ghost leaves: set<nat>, ghost k: nat, ghost c: seq<nat>,
                  ghost j: nat, ghost opt: int)
    returns (n': nat, dl': seq<nat>, opt_len': int)
    requires Shape(ord, desc.elems, leaves, k) && AtMost(leaves, max_code) && max_code < desc.elems
    requires 1 <= j <= |ord| && m == ord[j - 1] && n > 0 && 1 <= bits <= desc.maxLength
    requires |freq| == |dl0| && Handing(ord, dl, dl0, freq, desc, leaves, c, j, bits, n, opt_len - opt)
    ensures Handing(ord, dl', dl0, freq, desc, leaves, c, j - 1, bits, n', opt_len' - opt)
  {
    LeafTest(ord, desc.elems, leaves, k, max_code, j - 1);
    n', dl', opt_len' := n, dl, opt_len;
    if m > max_code {
      GiveNone(ord, dl, desc.elems, c, j, bits, n);
      return;
    }
    dl', opt_len' := SetLength(dl, m, bits, freq, opt_len);
    HandLeaf(ord, dl, dl0, freq, desc, leaves, c, j, bits, n, opt_len - opt, dl', opt_len' - opt);
    n' := n - 1;
  }

  /** Give the length `bits` to the next n symbols. */
  method GiveBits(heap: array<nat>, h0: nat, bits: nat, dl1: seq<nat>, freq: seq<nat>, desc: Desc, max_code: int, opt_len0: int, c: seq<nat>,
                  ghost max: nat, ghost ord: seq<nat>, ghost dl0: seq<nat>, ghost leaves: set<nat>, ghost k: nat, ghost opt: int)
    returns (h: nat, dl: seq<nat>, opt_len: int)
    requires heap.Length == HEAP_SIZE && max <= h0 <= HEAP_SIZE && ord == heap[max..] && |c| == MAX_BITS + 1
    requires Shape(ord, desc.elems, leaves, k) && AtMost(leaves, max_code) && max_code < desc.elems
    requires |freq| == |dl0| && 1 <= bits <= desc.maxLength && bits <= MAX_BITS
    requires Handing(ord, dl1, dl0, freq, desc, leaves, c, h0 - max, bits, c[bits], opt_len0 - opt)
    ensures max <= h <= HEAP_SIZE
    ensures Handing(ord, dl, dl0, freq, desc, leaves, c, h - max, bits, 0, opt_len - opt)
  {
    h, dl, opt_len := h0, dl1, opt_len0;
    var n := c[bits];
    while n != 0
      invariant max <= h <= HEAP_SIZE
      invariant Handing(ord, dl, dl0, freq, desc, leaves, c, h - max, bits, n, opt_len - opt)
      decreases h
    {
      LeafLeft(ord, dl, desc.elems, c, h - max, bits, n);
      h := h - 1;
      n, dl, opt_len := GiveNode(heap[h], bits, n, dl, freq, desc, max_code, opt_len, ord, dl0, leaves, k, c, h + 1 - max, opt);
    }
  }

  /** Hand all lengths out, longest first, from the rarest symbol up. */
  method HandOut(heap: array<nat>, max: nat, dl0: seq<nat>, freq: seq<nat>, desc: Desc, max_code: int, opt_len0: int, c: seq<nat>,
                 ghost ord: seq<nat>, ghost leaves: set<nat>, ghost k: nat, ghost opt: int)
    returns (dl: seq<nat>, opt_len: int, ghost j: nat)
    requires heap.Length == HEAP_SIZE && max <= HEAP_SIZE && ord == heap[max..] && |c| == MAX_BITS + 1 && c[0] == 0
    requires Shape(ord, desc.elems, leaves, k) && AtMost(leaves, max_code) && max_code < desc.elems
    requires |freq| == |dl0| && 1 <= desc.maxLength <= MAX_BITS
    requires Handing(ord, dl0, dl0, freq, desc, leaves, c, |ord|, desc.maxLength, c[desc.maxLength], opt_len0 - opt)
    ensures Handing(ord, dl, dl0, freq, desc, leaves, c, j, 0, 0, opt_len - opt)
  {
    var h: nat := HEAP_SIZE;
    dl, opt_len := dl0, opt_len0;
    var bits: nat := desc.maxLength;
    while bits != 0
      invariant max <= h <= HEAP_SIZE && bits <= desc.maxLength
      invariant Handing(ord, dl, dl0, freq, desc, leaves, c, h - max, bits, c[bits], opt_len - opt)
    {
      h, dl, opt_len := GiveBits(heap, h, bits, dl, freq, desc, max_code, opt_len, c, max, ord, dl0, leaves, k, opt);
      HandNext(ord, dl, dl0, freq, desc, leaves, c, h - max, bits, opt_len - opt);
      bits := bits - 1;
    }
    j := h - max;
  }

  // ----- lengths, counts and sums of the whole code -----

  /** Marks the symbols of length b. */
  ghost function LeafMarks(lens: seq<nat>, elems: nat, b: nat): (o: seq<nat>)
    ensures |o| == |lens|
    ensures forall x :: 0 <= x < |lens| ==> o[x] == if x < elems && lens[x] == b then 1 else 0
  {
    seq(|lens|, x requires 0 <= x < |lens| => if x < elems && lens[x] == b then 1 else 0)
  }

  lemma {:induction false} CountIsPick(list: seq<nat>, lens: seq<nat>, elems: nat, b: nat)
    requires InRange(list, |lens|)
    ensures LeafCount(list, lens, elems, b) == PickSum(list, LeafMarks(lens, elems, b))
  {
    if list != [] {
      CountIsPick(list[..|list| - 1], lens, elems, b);
    }
  }

  lemma {:induction false} MaskIsCount(s: set<nat>, lens: seq<nat>, elems: nat, b: nat, n: nat)
    requires n <= |lens| && elems <= |lens| && forall x :: 0 <= x < elems && lens[x] == b ==> x in s
    ensures MaskSum(s, LeafMarks(lens, elems, b)[..n]) == Count(lens[..if n <= elems then n else elems], b)
  {
    if n > 0 {
      MaskIsCount(s, lens, elems, b, n - 1);
      assert LeafMarks(lens, elems, b)[..n][..n - 1] == LeafMarks(lens, elems, b)[..n - 1];
      if n <= elems {
        assert lens[..n][..n - 1] == lens[..n - 1];
      }
    }
  }

  /** What bl_count counts: the symbols of each length. */
  lemma {:induction false} CountIs(ord: seq<nat>, lens: seq<nat>, elems: nat, leaves: set<nat>, k: nat, b: nat)
    requires Shape(ord, elems, leaves, k) && InRange(ord, |lens|) && elems <= |lens| && b >= 1
    requires forall x :: 0 <= x < elems && x !in leaves ==> lens[x] == 0
    ensures LeafCount(ord, lens, elems, b) == Count(lens[..elems], b)
  {
    CountIsPick(ord, lens, elems, b);
    PickIsMask(ord, LeafMarks(lens, elems, b));
    forall x: nat | x < elems && lens[x] == b ensures x in SetOf(ord) {
      assert x in ord;
    }
    MaskIsCount(SetOf(ord), lens, elems, b, |lens|);
    assert LeafMarks(lens, elems, b)[..|lens|] == LeafMarks(lens, elems, b);
  }

  lemma {:induction false} KraftAppend(lens: seq<nat>, v: nat, l: nat)
    requires l <= MAX_BITS
    ensures Kraft(lens + [v], l) == Kraft(lens, l) + (if 1 <= v <= l then Width(v) else 0)
  {
    if l > 0 {
      KraftAppend(lens, v, l - 1);
      assert (lens + [v])[..|lens|] == lens;
      assert Count(lens + [v], l) == Count(lens, l) + (if v == l then 1 else 0);
      Distribute(Count(lens, l), if v == l then 1 else 0, Width(l));
    }
  }

  lemma {:induction false} MaskIsKraft(leaves: set<nat>, lens: seq<nat>, elems: nat, n: nat)
    requires n <= |lens| && elems <= |lens| && forall x :: x in leaves ==> x < elems
    requires forall x :: 0 <= x < elems ==> if x in leaves then 1 <= lens[x] <= MAX_BITS else lens[x] == 0
    ensures MaskSum(leaves, Weights(lens, MAX_BITS)[..n]) == Kraft(lens[..if n <= elems then n else elems], MAX_BITS)
  {
    if n > 0 {
      MaskIsKraft(leaves, lens, elems, n - 1);
      assert Weights(lens, MAX_BITS)[..n][..n - 1] == Weights(lens, MAX_BITS)[..n - 1];
      if n <= elems {
        assert lens[..n] == lens[..n - 1] + [lens[n - 1]];
        KraftAppend(lens[..n - 1], lens[n - 1], MAX_BITS);
      }
    } else {
      NoKraft(MAX_BITS);
      assert lens[..0] == [];
    }
  }

  lemma {:induction false} NoKraft(l: nat)
    requires l <= MAX_BITS
    ensures Kraft([], l) == 0
  {
    if l > 0 {
      NoKraft(l - 1);
    }
  }

  lemma {:induction false} KraftIs(c: seq<nat>, lens: seq<nat>, l: nat)
    requires l <= MAX_BITS < |c| && forall b: nat :: 1 <= b <= MAX_BITS ==> c[b] == Count(lens, b)
    ensures KraftOf(c, l) == Kraft(lens, l)
  {
    if l > 0 {
      KraftIs(c, lens, l - 1);
    }
  }

  /** Lengths of a list are all counted. */
  ghost function CountTotal(list: seq<nat>, lens: seq<nat>, elems: nat, l: nat): nat
  {
    if l == 0 then 0 else CountTotal(list, lens, elems, l - 1) + LeafCount(list, lens, elems, l)
  }

  lemma {:induction false} CountTotalOne(list: seq<nat>, n: nat, lens: seq<nat>, elems: nat, l: nat)
    ensures CountTotal(list + [n], lens, elems, l) ==
              CountTotal(list, lens, elems, l) + (if n < elems && n < |lens| && 1 <= lens[n] <= l then 1 else 0)
  {
    if l > 0 {
      CountTotalOne(list, n, lens, elems, l - 1);
      assert (list + [n])[..|list|] == list;
    }
  }

  lemma {:induction false} CountTotalNone(lens: seq<nat>, elems: nat, l: nat)
    ensures CountTotal([], lens, elems, l) == 0
  {
    if l > 0 {
      CountTotalNone(lens, elems, l - 1);
    }
  }

  lemma {:induction false} TotalIsLeaves(list: seq<nat>, lens: seq<nat>, elems: nat)
    requires InRange(list, |lens|)
    requires forall t :: 0 <= t < |list| && list[t] < elems ==> 1 <= lens[list[t]] <= MAX_BITS
    ensures CountTotal(list, lens, elems, MAX_BITS) == Leaves(list, elems)
  {
    if list == [] {
      CountTotalNone(lens, elems, MAX_BITS);
    } else {
      var n := |list| - 1;
      TotalIsLeaves(list[..n], lens, elems);
      CountTotalOne(list[..n], list[n], lens, elems, MAX_BITS);
      assert list == list[..n] + [list[n]];
    }
  }

  lemma {:induction false} TotalIs(c: seq<nat>, list: seq<nat>, lens: seq<nat>, elems: nat, l: nat)
    requires l <= MAX_BITS && Counted(c, list, lens, elems)
    ensures Total(c, l) == CountTotal(list, lens, elems, l)
  {
    if l > 0 {
      TotalIs(c, list, lens, elems, l - 1);
    }
  }

  lemma {:induction false} NoneAt(list: seq<nat>, lens: seq<nat>, elems: nat, b: nat)
    requires forall t :: 0 <= t < |list| && list[t] < elems && list[t] < |lens| ==> lens[list[t]] != b
    ensures LeafCount(list, lens, elems, b) == 0
  {
    if list != [] {
      NoneAt(list[..|list| - 1], lens, elems, b);
    }
  }

  lemma {:induction false} NoLeaves(list: seq<nat>, lens: seq<nat>, elems: nat, b: nat)
    requires Leaves(list, elems) == 0
    ensures LeafCount(list, lens, elems, b) == 0
  {
    if list != [] {
      NoLeaves(list[..|list| - 1], lens, elems, b);
    }
  }

  ghost function Ones(n: nat, elems: nat): (w: seq<nat>)
    ensures |w| == n && forall x :: 0 <= x < n ==> w[x] == if x < elems then 1 else 0
  {
    seq(n, x requires 0 <= x < n => if x < elems then 1 else 0)
  }

  lemma {:induction false} LeavesIsPick(list: seq<nat>, elems: nat, n: nat)
    requires InRange(list, n)
    ensures Leaves(list, elems) == PickSum(list, Ones(n, elems))
  {
    if list != [] {
      LeavesIsPick(list[..|list| - 1], elems, n);
    }
  }

  lemma {:induction false} MaskAtMost(s: set<nat>, elems: nat, n: nat)
    ensures MaskSum(s, Ones(n, elems)) <= elems && MaskSum(s, Ones(n, elems)) <= n
  {
    if n > 0 {
      MaskAtMost(s, elems, n - 1);
      assert Ones(n, elems)[..n - 1] == Ones(n - 1, elems);
    }
  }

  lemma {:induction false} FewEnough(ord: seq<nat>, elems: nat, n: nat)
    requires Distinct(ord) && InRange(ord, n)
    ensures Leaves(ord, elems) <= elems
  {
    LeavesIsPick(ord, elems, n);
    PickIsMask(ord, Ones(n, elems));
    MaskAtMost(SetOf(ord), elems, n);
  }

  /** The leaves' lengths after clamping. */
  lemma {:induction false} ClampedLimits(ord: seq<nat>, dl: seq<nat>, dl0: seq<nat>, elems: nat, leaves: set<nat>, k: nat, limit: nat)
    requires Shape(ord, elems, leaves, k) && Clamped(ord, dl, elems, k, limit) && limit >= 1
    requires InRange(ord, |dl|) && |dl| == |dl0| && elems + k <= |dl|
    requires forall x :: 0 <= x < |dl| && x !in ord ==> dl[x] == dl0[x]
    ensures InLimits(dl, dl0, elems, leaves, limit)
    ensures forall t :: 0 <= t < |ord| && ord[t] < elems ==> 1 <= dl[ord[t]] <= limit
  {
    forall t: nat | t < |ord| && ord[t] < elems ensures 1 <= dl[ord[t]] <= limit {
      ClampedBound(ord, dl, elems, k, limit, t);
    }
    forall x: nat | x < elems ensures if x in leaves then 1 <= dl[x] <= limit else dl[x] == dl0[x] {
      assert x in ord <==> x in leaves;
    }
  }

  /** The leaves at the limit are enough for the repair. */
  lemma {:induction false} EnoughAtLimit(ord: seq<nat>, dl: seq<nat>, elems: nat, leaves: set<nat>, k: nat, limit: nat)
    requires Shape(ord, elems, leaves, k) && Clamped(ord, dl, elems, k, limit)
    requires InRange(ord, |dl|) && elems + k <= |dl|
    ensures LeafCount(ord, dl, elems, limit) >= AtLimit(dl, elems, k, limit)
  {
    var w := LeafMarks(dl, elems, limit);
    CountIsPick(ord, dl, elems, limit);
    PickIsMask(ord, w);
    EveryoneSum(ord, w, elems, leaves, k);
    MaskSame(leaves, w, Marks(dl, limit));
    LeavesAtLimit(ord, elems, leaves, k, dl, limit);
  }

  lemma {:induction false} Swap(a: nat, b: nat)
    ensures a * b == b * a && (b == 0 ==> a * b == 0)
  {
  }

  lemma {:induction false} KraftOfLeaves(ord: seq<nat>, dl: seq<nat>, elems: nat, leaves: set<nat>, k: nat, limit: nat)
    requires Shape(ord, elems, leaves, k) && Clamped(ord, dl, elems, k, limit) && limit <= MAX_BITS
    requires InRange(ord, |dl|) && elems + k <= |dl|
    requires forall x :: 0 <= x < elems ==> if x in leaves then 1 <= dl[x] <= MAX_BITS else dl[x] == 0
    ensures Kraft(dl[..elems], MAX_BITS) == Pow2(MAX_BITS) + AtLimit(dl, elems, k, limit) * Width(limit)
    ensures AtLimit(dl, elems, k, limit) == 0 ==> Complete(dl[..elems])
  {
    Swap(Width(limit), AtLimit(dl, elems, k, limit));
    LeafKraft(ord, elems, leaves, k, dl, limit, MAX_BITS);
    MaskIsKraft(leaves, dl, elems, |dl|);
    assert Weights(dl, MAX_BITS)[..|dl|] == Weights(dl, MAX_BITS);
  }

  lemma {:induction false} CountsAre(ord: seq<nat>, dl: seq<nat>, elems: nat, leaves: set<nat>, k: nat, c: seq<nat>)
    requires Shape(ord, elems, leaves, k) && InRange(ord, |dl|) && elems <= |dl|
    requires forall x :: 0 <= x < elems && x !in leaves ==> dl[x] == 0
    requires Counted(c, ord, dl, elems)
    ensures forall b: nat :: 1 <= b <= MAX_BITS ==> c[b] == Count(dl[..elems], b)
  {
    forall b: nat | 1 <= b <= MAX_BITS ensures c[b] == Count(dl[..elems], b) {
      CountIs(ord, dl, elems, leaves, k, b);
    }
  }

  lemma {:induction false} ClampedKraft(ord: seq<nat>, dl: seq<nat>, dl0: seq<nat>, elems: nat, leaves: set<nat>, k: nat, limit: nat, c: seq<nat>)
    requires Shape(ord, elems, leaves, k) && Clamped(ord, dl, elems, k, limit) && limit <= MAX_BITS
    requires InRange(ord, |dl|) && elems + k <= |dl| && InLimits(dl, dl0, elems, leaves, limit)
    requires forall x :: 0 <= x < elems && x !in leaves ==> dl0[x] == 0
    requires Counted(c, ord, dl, elems)
    ensures KraftOf(c, MAX_BITS) == Pow2(MAX_BITS) + AtLimit(dl, elems, k, limit) * Width(limit)
    ensures AtLimit(dl, elems, k, limit) == 0 ==> Complete(dl[..elems])
    ensures forall b: nat :: 1 <= b <= MAX_BITS ==> c[b] == Count(dl[..elems], b)
  {
    CountsAre(ord, dl, elems, leaves, k, c);
    KraftIs(c, dl[..elems], MAX_BITS);
    KraftOfLeaves(ord, dl, elems, leaves, k, limit);
  }

  lemma {:induction false} ClampedExcess(ord: seq<nat>, dl: seq<nat>, dl0: seq<nat>, elems: nat, leaves: set<nat>, k: nat, limit: nat, c: seq<nat>)
    requires Shape(ord, elems, leaves, k) && Clamped(ord, dl, elems, k, limit) && 1 <= limit <= MAX_BITS
    requires InRange(ord, |dl|) && elems + k <= |dl| && InLimits(dl, dl0, elems, leaves, limit) && elems <= Pow2(limit)
    requires forall t :: 0 <= t < |ord| && ord[t] < elems ==> 1 <= dl[ord[t]] <= limit
    requires Counted(c, ord, dl, elems)
    requires KraftOf(c, MAX_BITS) == Pow2(MAX_BITS) + AtLimit(dl, elems, k, limit) * Width(limit)
    ensures Excess(c, limit, AtLimit(dl, elems, k, limit)) && Total(c, MAX_BITS) == Leaves(ord, elems)
  {
    NoneAt(ord, dl, elems, 0);
    forall b: nat | limit < b <= MAX_BITS ensures c[b] == 0 {
      NoneAt(ord, dl, elems, b);
    }
    TotalIs(c, ord, dl, elems, MAX_BITS);
    TotalIsLeaves(ord, dl, elems);
    FewEnough(ord, elems, |dl|);
    EnoughAtLimit(ord, dl, elems, leaves, k, limit);
  }

  lemma {:induction false} TotalTop(c: seq<nat>, limit: nat, l: nat)
    requires limit <= l <= MAX_BITS < |c| && forall b :: limit < b <= l ==> c[b] == 0
    ensures Total(c, l) == Total(c, limit)
  {
    if l > limit {
      TotalTop(c, limit, l - 1);
    }
  }

  lemma {:induction false} HandStart(ord: seq<nat>, dl: seq<nat>, elems: nat, c: seq<nat>, limit: nat)
    requires Excess(c, limit, 0) && Total(c, MAX_BITS) == Leaves(ord, elems)
    ensures Given(ord, dl, elems, c, |ord|, limit, c[limit])
  {
    var top, n := |ord|, c[limit];
    assert ord[..top] == ord && ord[top..] == [];
    TotalTop(c, limit, MAX_BITS);
    forall b: nat | 1 <= b <= MAX_BITS ensures GivenAt(ord, dl, elems, c, top, limit, n, b) {
    }
  }

  lemma {:induction false} HandEnd(ord: seq<nat>, dl: seq<nat>, elems: nat, leaves: set<nat>, k: nat, c: seq<nat>, j: nat)
    requires Shape(ord, elems, leaves, k) && InRange(ord, |dl|) && elems <= |dl|
    requires Given(ord, dl, elems, c, j, 0, 0) && KraftOf(c, MAX_BITS) == Pow2(MAX_BITS)
    requires forall x :: 0 <= x < elems && x !in leaves ==> dl[x] == 0
    ensures Complete(dl[..elems]) && forall b: nat :: 1 <= b <= MAX_BITS ==> c[b] == Count(dl[..elems], b)
  {
    forall b: nat | 1 <= b <= MAX_BITS ensures c[b] == Count(dl[..elems], b) {
      assert GivenAt(ord, dl, elems, c, j, 0, 0, b);
      NoLeaves(ord[..j], dl, elems, b);
      assert ord == ord[..j] + ord[j..];
      CountConcat(ord[..j], ord[j..], dl, elems, b);
      CountIs(ord, dl, elems, leaves, k, b);
    }
    KraftIs(c, dl[..elems], MAX_BITS);
  }

  // ----- gen_bitlen -----

  /** A complete code for exactly the leaves, within the limit, and its bl_count. */
  ghost predicate GoodLens(dl: seq<nat>, c: seq<nat>, desc: Desc, leaves: set<nat>)
  {
    && desc.elems <= |dl| && |c| == MAX_BITS + 1 && c[0] == 0
    && (forall x :: 0 <= x < desc.elems ==> if x in leaves then 1 <= dl[x] <= desc.maxLength else dl[x] == 0)
    && Complete(dl[..desc.elems])
    && (forall b: nat :: 1 <= b <= MAX_BITS ==> c[b] == Count(dl[..desc.elems], b))
  }

  /** The repair and the new lengths. */
  method Shorten(heap: array<nat>, max: nat, freq: seq<nat>, dl1: seq<nat>, counts: seq<nat>, over: nat, desc: Desc, max_code: int,
                 opt_len1: int, ghost opt: int, ghost ord: seq<nat>, ghost leaves: set<nat>, ghost k: nat)
    returns (dl: seq<nat>, c: seq<nat>, opt_len: int)
    requires desc.Valid() && heap.Length == HEAP_SIZE && max <= HEAP_SIZE && ord == heap[max..]
    requires Shape(ord, desc.elems, leaves, k) && AtMost(leaves, max_code) && max_code < desc.elems && InRange(ord, |dl1|)
    requires |freq| == |dl1| && desc.elems + k <= |dl1| && InLimits(dl1, dl1, desc.elems, leaves, desc.maxLength)
    requires forall x :: 0 <= x < desc.elems && x !in leaves ==> dl1[x] == 0
    requires Excess(counts, desc.maxLength, AtLimit(dl1, desc.elems, k, desc.maxLength))
    requires over == 2 * AtLimit(dl1, desc.elems, k, desc.maxLength)
    requires Total(counts, MAX_BITS) == Leaves(ord, desc.elems) && opt_len1 - opt == ListBits(ord, freq, dl1, desc)
    ensures |dl| == |dl1| && GoodLens(dl, c, desc, leaves) && opt_len - opt == ListBits(ord, freq, dl, desc)
  {
    c := Repair(counts, desc.maxLength, over, AtLimit(dl1, desc.elems, k, desc.maxLength));
    HandStart(ord, dl1, desc.elems, c, desc.maxLength);
    ghost var j;
    dl, opt_len, j := HandOut(heap, max, dl1, freq, desc, max_code, opt_len1, c, ord, leaves, k, opt);
    HandEnd(ord, dl, desc.elems, leaves, k, c, j);
  }

  /** After the first pass: what the repair needs, and the result when there is nothing to repair. */
  lemma {:induction false} ClampedResult(ord: seq<nat>, dl: seq<nat>, dl0: seq<nat>, desc: Desc, leaves: set<nat>, k: nat, c: seq<nat>)
    requires desc.Valid() && Shape(ord, desc.elems, leaves, k) && Clamped(ord, dl, desc.elems, k, desc.maxLength)
    requires InRange(ord, |dl|) && desc.elems + k <= |dl| && InLimits(dl, dl0, desc.elems, leaves, desc.maxLength)
    requires forall t :: 0 <= t < |ord| && ord[t] < desc.elems ==> 1 <= dl[ord[t]] <= desc.maxLength
    requires forall x :: 0 <= x < desc.elems && x !in leaves ==> dl0[x] == 0
    requires Counted(c, ord, dl, desc.elems)
    ensures Excess(c, desc.maxLength, AtLimit(dl, desc.elems, k, desc.maxLength)) && Total(c, MAX_BITS) == Leaves(ord, desc.elems)
    ensures AtLimit(dl, desc.elems, k, desc.maxLength) == 0 ==> GoodLens(dl, c, desc, leaves)
  {
    ClampedKraft(ord, dl, dl0, desc.elems, leaves, k, desc.maxLength, c);
    ClampedExcess(ord, dl, dl0, desc.elems, leaves, k, desc.maxLength, c);
  }

  lemma {:induction false} OverIs(ord: seq<nat>, lens: seq<nat>, elems: nat, leaves: set<nat>, k: nat, limit: nat)
    requires Shape(ord, elems, leaves, k) && Clamped(ord, lens, elems, k, limit) && elems + k <= |lens|
    ensures OverCount(lens, elems, k, limit, 2 * k) == 2 * AtLimit(lens, elems, k, limit)
  {
    OverIsTwice(ord, lens, elems, leaves, k, limit, k);
  }

  /** A tree of two leaves is never clamped. */
  lemma {:induction false} OnePair(ord: seq<nat>, dl: seq<nat>, desc: Desc, leaves: set<nat>, k: nat)
    requires desc.Valid() && Shape(ord, desc.elems, leaves, k) && Clamped(ord, dl, desc.elems, k, desc.maxLength)
    requires desc.elems + k <= |dl|
    ensures k == 1 ==> AtLimit(dl, desc.elems, k, desc.maxLength) == 0
  {
    if k == 1 {
      var o := Marks(dl, desc.maxLength);
      assert RangeSum(o, desc.elems + 1, desc.elems + 1) == 0;
      assert o[desc.elems] == 0;
    }
  }

  /** Code lengths for the tree in heap[max..], and the bits all symbols take.  They are those by
      depth in the tree, d, unless some pair of nodes was clamped. */
  method CodeLengths(heap: array<nat>, max: nat, freq: seq<nat>, dl0: seq<nat>, desc: Desc, max_code: int,
                   opt: int, stat: int, ghost ord: seq<nat>, ghost leaves: set<nat>, ghost k: nat)
    returns (dl: seq<nat>, c: seq<nat>, opt_len: int, static_len: int, ghost d: seq<nat>)
    requires desc.Valid() && heap.Length == HEAP_SIZE && max + 2 * k + 1 == HEAP_SIZE && |freq| == |dl0| && ord == heap[max..]
    requires Tree(ord, dl0, desc.elems, leaves, k) && AtMost(leaves, max_code) && max_code < desc.elems
    requires forall x :: 0 <= x < desc.elems && x !in leaves ==> dl0[x] == 0
    ensures |dl| == |dl0| && GoodLens(dl, c, desc, leaves)
    ensures opt_len == opt + ListBits(ord, freq, dl, desc) && static_len == stat + ListStatic(ord, freq, desc)
    ensures |d| == |dl| && desc.elems + k <= |dl| && Clamped(ord, d, desc.elems, k, desc.maxLength)
    ensures AtLimit(d, desc.elems, k, desc.maxLength) == 0 || k == 1 ==> dl == d
  {
    var over;
    dl, c, over, opt_len, static_len := FirstPass(heap, max, freq, dl0, desc, max_code, opt, stat, leaves, k);
    WalkEnd(ord, dl, dl0, freq, desc, k, over, c, opt_len - opt, static_len - stat);
    OverIs(ord, dl, desc.elems, leaves, k, desc.maxLength);
    ClampedLimits(ord, dl, dl0, desc.elems, leaves, k, desc.maxLength);
    ClampedResult(ord, dl, dl0, desc, leaves, k, c);
    d := dl;
    OnePair(ord, dl, desc, leaves, k);
    if over == 0 { return; }
    dl, c, opt_len := Shorten(heap, max, freq, dl, c, over, desc, max_code, opt_len, opt, ord, leaves, k);
  }
}
