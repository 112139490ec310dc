/**
 `bi_reverse`, `gen_codes` and the whole of `build_tree` of trees.c: from symbol
 frequencies to the canonical code that is sent, and the number of bits it takes.
 */
module MakeCodes {
  import opened Bits
  import opened Huffman
  import opened Sums
  import opened HuffmanTree
  import opened HuffmanShortest
  import opened BuildTree
  import opened GenBitLen

  // ----- codes -----

  lemma {:induction false} LowBitsNext(v: nat, n: nat)
    ensures LowBits(v, n + 1) == LowBits(v, n) + [(v / Pow2(n)) % 2 == 1]
  {
    if n > 0 {
      LowBitsNext(v / 2, n - 1);
      HalfThenShift(v, Pow2(n - 1));
      assert LowBits(v, n + 1) == [v % 2 == 1] + LowBits(v / 2, n);
      assert LowBits(v, n) == [v % 2 == 1] + LowBits(v / 2, n - 1);
    }
  }

  lemma {:induction false} HalfThenShift(v: nat, p: nat)
    requires p > 0
    ensures (v / 2) / p == v / (2 * p)
  {
    HalfOf(v, v / 2, v % 2, p);
  }

  lemma {:induction false} HalfOf(v: nat, h: nat, b: nat, p: nat)
    requires p > 0 && v == 2 * h + b && b < 2
    ensures h / p == v / (2 * p)
  {
    var q, r := Quotient(h, p);
    TwiceOver(p, q, r, b);
    DivModUnique(v, 2 * p, q, 2 * r + b);
    DivModUnique(h, p, q, r);
  }

  lemma {:induction false} Quotient(h: nat, p: nat) returns (q: nat, r: nat)
    requires p > 0
    ensures h == p * q + r && r < p
  {
    q, r := h / p, h % p;
  }

  lemma {:induction false} TwiceOver(p: nat, q: nat, r: nat, b: nat)
    ensures 2 * (p * q + r) + b == (2 * p) * q + (2 * r + b)
  {
  }

  /** The low bits read from the other end. */
  lemma {:induction false} ReverseValue(v: nat, n: nat)
    ensures Big(LowBits(v, n)) == Val(BigBits(v, n))
  {
    if n > 0 {
      ReverseValue(v / 2, n - 1);
      var b := [v % 2 == 1];
      assert LowBits(v, n) == b + LowBits(v / 2, n - 1);
      BigConcat(b, LowBits(v / 2, n - 1));
      ValConcat(BigBits(v / 2, n - 1), b);
      assert Big(b) == Bit(v % 2 == 1) by { assert b[..0] == []; }
      assert Val(b) == Bit(v % 2 == 1) by { assert b[1..] == []; }
    }
  }

  /** The code with its first bit least significant, as it is sent. */
  method BiReverse(code0: nat, len0: nat) returns (res: nat)
    requires 1 <= len0
    ensures res == Val(BigBits(code0, len0))
  {
    var code, len := code0, len0;
    res := 0;
    ghost var i: nat := 0;
    while len > 0
      invariant i + len == len0 && code == code0 / Pow2(i) && res == 2 * Big(LowBits(code0, i))
    {
      LowBitsNext(code0, i);
      ShiftOnce(code0, Pow2(i));
      res := res + code % 2;
      code, res := code / 2, res * 2;
      ghost var s := LowBits(code0, i + 1);
      assert s[..i] == LowBits(code0, i);
      len := len - 1;
      i := i + 1;
    }
    res := res / 2;
    ReverseValue(code0, len0);
  }

  lemma {:induction false} ShiftOnce(v: nat, p: nat)
    requires p > 0
    ensures (v / p) / 2 == v / (2 * p)
  {
    var q, r, t := (v / p) / 2, (v / p) % 2, v % p;
    assert v == p * (v / p) + t;
    Unfold(p, q, r, t);
    Below(p, r, t);
    DivModUnique(v, 2 * p, q, p * r + t);
  }

  lemma {:induction false} Below(p: nat, r: nat, t: nat)
    requires r <= 1 && t < p
    ensures 0 <= p * r + t < 2 * p
  {
    if r == 0 {
      assert p * r == 0;
    } else {
      assert p * r == p;
    }
  }

  lemma {:induction false} Unfold(p: nat, q: nat, r: nat, t: nat)
    ensures p * (2 * q + r) + t == (2 * p) * q + (p * r + t)
  {
  }

  /** First codes fit in 16 bits. */
  lemma {:induction false} FirstCodeFits(lens: seq<nat>, l: nat)
    requires 1 <= l <= MAX_BITS && !OverSubscribed(lens)
    ensures FirstCode(lens, l) <= Pow2(l) <= 32768
  {
    FirstCodeStart(lens, l);
    KraftMono(lens, l - 1, MAX_BITS);
    Pow2Add(l, MAX_BITS - l);
    if FirstCode(lens, l) > Pow2(l) {
      RunEnds(Width(l), Pow2(l), FirstCode(lens, l));
    }
    Pow2Mono(l, MAX_BITS);
    Pow2Values();
  }

  ghost predicate Fits16(lens: seq<nat>)
  {
    forall b: nat :: 1 <= b <= MAX_BITS ==> FirstFits(lens, b)
  }

  ghost predicate FirstFits(lens: seq<nat>, b: nat) { FirstCode(lens, b) <= 32768 }

  lemma {:induction false} AllFit(lens: seq<nat>)
    requires !OverSubscribed(lens)
    ensures Fits16(lens)
  {
    forall b: nat | 1 <= b <= MAX_BITS ensures FirstFits(lens, b) {
      FirstCodeFits(lens, b);
    }
  }

  /** The next code of length b after the first n symbols. */
  ghost predicate NextIs(next: seq<nat>, lens: seq<nat>, n: nat, b: nat)
  {
    b < |next| && n <= |lens| && next[b] == FirstCode(lens, b) + Count(lens[..n], b)
  }

  ghost predicate NextCodes(next: seq<nat>, lens: seq<nat>, n: nat, top: nat)
  {
    |next| == MAX_BITS + 1 && forall b: nat :: 1 <= b < top ==> NextIs(next, lens, n, b)
  }

  /** next_code for each length; the 16-bit store loses nothing. */
  method FirstCodes(c: seq<nat>, ghost lens: seq<nat>) returns (next: seq<nat>)
    requires |c| == MAX_BITS + 1 && c[0] == 0 && Fits16(lens)
    requires forall b: nat :: 1 <= b <= MAX_BITS ==> c[b] == Count(lens, b)
    ensures NextCodes(next, lens, 0, MAX_BITS + 1)
  {
    next := seq(MAX_BITS + 1, _ => 0);
    var code: nat := 0;
    var bits: nat := 1;
    while bits <= MAX_BITS
      invariant 1 <= bits <= MAX_BITS + 1
      invariant code == if bits == 1 then 0 else FirstCode(lens, bits - 1)
      invariant NextCodes(next, lens, 0, bits)
    {
      code := (code + c[bits - 1]) * 2;
      assert code == FirstCode(lens, bits) && FirstFits(lens, bits);
      FirstStored(next, lens, bits, code);
      next := next[bits := code % 0x1_0000];
      bits := bits + 1;
    }
  }

  lemma {:induction false} FirstStored(next: seq<nat>, lens: seq<nat>, bits: nat, code: nat)
    requires 1 <= bits <= MAX_BITS && NextCodes(next, lens, 0, bits) && code == FirstCode(lens, bits) <= 32768
    ensures NextCodes(next[bits := code % 0x1_0000], lens, 0, bits + 1)
  {
    var next' := next[bits := code % 0x1_0000];
    forall b: nat | 1 <= b < bits + 1 ensures NextIs(next', lens, 0, b) {
      assert b < bits ==> NextIs(next, lens, 0, b);
      assert lens[..0] == [];
    }
  }

  lemma {:induction false} NextCodesStep(next: seq<nat>, lens: seq<nat>, n: nat, next': seq<nat>)
    requires n < |lens| && lens[n] <= MAX_BITS && NextCodes(next, lens, n, MAX_BITS + 1)
    requires next' == if lens[n] == 0 then next else next[lens[n] := next[lens[n]] + 1]
    ensures lens[n] != 0 ==> next[lens[n]] == CodeOf(lens, n)
    ensures NextCodes(next', lens, n + 1, MAX_BITS + 1)
  {
    assert lens[..n + 1][..n] == lens[..n];
    assert lens[n] != 0 ==> NextIs(next, lens, n, lens[n]);
    var n' := n + 1;
    forall b: nat | 1 <= b < MAX_BITS + 1 ensures NextIs(next', lens, n', b) {
      assert NextIs(next, lens, n, b);
    }
  }

  /** codes[x] is the symbol's codeword, first bit least significant. */
  ghost predicate CodesFor(codes: seq<nat>, lens: seq<nat>, n: nat)
  {
    n <= |lens| && n <= |codes| && forall x: nat :: x < n && lens[x] != 0 ==> codes[x] == Val(Codeword(lens, x))
  }

  method OneCode(codes: seq<nat>, next: seq<nat>, n: nat, len: nat, ghost lens: seq<nat>)
    returns (codes': seq<nat>, next': seq<nat>)
    requires n < |lens| <= |codes| && len == lens[n] <= MAX_BITS
    requires NextCodes(next, lens, n, MAX_BITS + 1) && CodesFor(codes, lens, n)
    ensures |codes'| == |codes| && NextCodes(next', lens, n + 1, MAX_BITS + 1) && CodesFor(codes', lens, n + 1)
  {
    codes', next' := codes, next;
    if len != 0 {
      next' := next[len := next[len] + 1];
    }
    NextCodesStep(next, lens, n, next');
    if len != 0 {
      var code := BiReverse(next[len], len);
      CodeIn16(lens, n);
      codes' := codes[n := code % 0x1_0000];
    }
  }

  /** `gen_codes`: fc holds frequencies before and codes after. */
  method GenCodes(fc: seq<nat>, dl: seq<nat>, max_code: int, c: seq<nat>, ghost lens: seq<nat>) returns (codes: seq<nat>)
    requires |lens| <= |fc| && |lens| <= |dl| && lens == dl[..|lens|] && max_code < |lens| && ValidLens(lens) && Fits16(lens)
    requires |c| == MAX_BITS + 1 && c[0] == 0 && forall b: nat :: 1 <= b <= MAX_BITS ==> c[b] == Count(lens, b)
    requires forall x :: 0 <= x < |lens| && x > max_code ==> lens[x] == 0
    ensures |codes| == |fc| && CodesFor(codes, lens, |lens|)
  {
    var next := FirstCodes(c, lens);
    codes := fc;
    var n: nat := 0;
    while n <= max_code
      invariant n <= |lens| && (n <= max_code + 1 || n == 0) && |codes| == |fc|
      invariant NextCodes(next, lens, n, MAX_BITS + 1) && CodesFor(codes, lens, n)
    {
      codes, next := OneCode(codes, next, n, dl[n], lens);
      n := n + 1;
    }
  }

  lemma {:induction false} CodeIn16(lens: seq<nat>, n: nat)
    requires n < |lens| && lens[n] <= MAX_BITS
    ensures Val(Codeword(lens, n)) < 0x1_0000
  {
    ValBound(Codeword(lens, n));
    Pow2Mono(lens[n], MAX_BITS);
    Pow2Values();
  }

  // ----- numbers of bits -----

  /** Bits each symbol takes: frequency times code length and extra bits. */
  ghost function BitWeights(freq: seq<nat>, lens: seq<nat>, desc: Desc): (w: seq<nat>)
    ensures |w| == desc.elems && forall x :: 0 <= x < desc.elems ==> w[x] == SymbolBits(freq, lens, desc, x)
  {
    seq(desc.elems, x requires 0 <= x < desc.elems => SymbolBits(freq, lens, desc, x))
  }

  ghost function StaticWeights(freq: seq<nat>, desc: Desc): (w: seq<nat>)
    ensures |w| == desc.elems && forall x :: 0 <= x < desc.elems ==> w[x] == StaticSymbolBits(freq, desc, x)
  {
    seq(desc.elems, x requires 0 <= x < desc.elems => StaticSymbolBits(freq, desc, x))
  }

  /** Bits all symbols of a block take with given code lengths. */
  ghost function TotalBits(freq: seq<nat>, lens: seq<nat>, desc: Desc): nat { Whole(BitWeights(freq, lens, desc)) }

  /** Bits all symbols of a block take with the static code. */
  ghost function TotalStatic(freq: seq<nat>, desc: Desc): nat { Whole(StaticWeights(freq, desc)) }

  /** The symbols of a list, in order. */
  ghost function Symbols(list: seq<nat>, elems: nat): (r: seq<nat>)
    ensures InRange(r, elems)
    ensures forall x: nat :: x in r <==> x in list && x < elems
  {
    if list == [] then []
    else
      var n := list[|list| - 1];
      var r := Symbols(list[..|list| - 1], elems);
      assert list == list[..|list| - 1] + [n];
      if n < elems then r + [n] else r
  }

  lemma {:induction false} SymbolsDistinct(list: seq<nat>, elems: nat)
    requires Distinct(list)
    ensures Distinct(Symbols(list, elems))
  {
    if list != [] {
      var t := |list| - 1;
      DistinctPrefix(list, t);
      SymbolsDistinct(list[..t], elems);
      var r := Symbols(list[..t], elems);
      if list[t] < elems {
        forall i: nat, j: nat | i < j < |r| + 1 ensures Differ(r + [list[t]], i, j) {
          assert j < |r| ==> Differ(r, i, j);
          assert (r + [list[t]])[i] == r[i] && r[i] in r;
        }
      }
    }
  }

  lemma {:induction false} ListBitsIs(list: seq<nat>, freq: seq<nat>, lens: seq<nat>, desc: Desc)
    ensures ListBits(list, freq, lens, desc) == PickSum(Symbols(list, desc.elems), BitWeights(freq, lens, desc))
    ensures ListStatic(list, freq, desc) == PickSum(Symbols(list, desc.elems), StaticWeights(freq, desc))
  {
    if list != [] {
      var t := |list| - 1;
      ListBitsIs(list[..t], freq, lens, desc);
      var r := Symbols(list[..t], desc.elems);
      if list[t] < desc.elems {
        assert (r + [list[t]])[..|r|] == r;
      }
    }
  }

  /** The list of nodes gives the sum over all symbols. */
  lemma {:induction false} ListIsTotal(ord: seq<nat>, freq: seq<nat>, lens: seq<nat>, desc: Desc, leaves: set<nat>, k: nat)
    requires Shape(ord, desc.elems, leaves, k) && desc.elems <= |freq|
    requires forall x :: 0 <= x < desc.elems && x !in leaves ==> freq[x] == 0
    ensures ListBits(ord, freq, lens, desc) == TotalBits(freq, lens, desc)
    ensures ListStatic(ord, freq, desc) == TotalStatic(freq, desc)
  {
    var r := Symbols(ord, desc.elems);
    var w, v := BitWeights(freq, lens, desc), StaticWeights(freq, desc);
    ListBitsIs(ord, freq, lens, desc);
    SymbolsDistinct(ord, desc.elems);
    PickIsMask(r, w);
    PickIsMask(r, v);
    forall x: nat | x < desc.elems && x !in SetOf(r) ensures w[x] == 0 && v[x] == 0 {
      assert x !in r;
      assert x in ord <==> x in leaves;
      assert freq[x] == 0;
    }
    MaskIsWhole(SetOf(r), w);
    MaskIsWhole(SetOf(r), v);
  }

  // ----- forced codes -----

  ghost function AllOne(n: nat): (w: seq<nat>)
    ensures |w| == n && forall x :: 0 <= x < n ==> w[x] == 1
  {
    seq(n, _ => 1)
  }

  ghost function StaticLens(desc: Desc): (w: seq<nat>)
    ensures |w| == desc.elems && forall x :: 0 <= x < desc.elems ==> w[x] == desc.StaticLen(x)
  {
    seq(desc.elems, x requires 0 <= x < desc.elems => desc.StaticLen(x))
  }

  lemma {:induction false} PickDummies(desc: Desc, list: seq<nat>)
    requires InRange(list, desc.elems)
    ensures PickSum(list, AllOne(desc.elems)) == |list|
    ensures PickSum(list, StaticLens(desc)) == StaticBits(desc, list)
  {
    if list != [] {
      PickDummies(desc, list[..|list| - 1]);
    }
  }

  lemma {:induction false} DummySymbol(desc: Desc, freq0: seq<nat>, freq: seq<nat>, lens: seq<nat>, leaves: set<nat>, dummies: seq<nat>, x: nat)
    requires desc.Valid() && LeavesAre(desc, freq0, freq, leaves, dummies) && x < desc.elems <= |lens|
    requires x in dummies ==> lens[x] == 1
    ensures SymbolBits(freq, lens, desc, x) == SymbolBits(freq0, lens, desc, x) + (if x in dummies then 1 else 0)
    ensures StaticSymbolBits(freq, desc, x) ==
              StaticSymbolBits(freq0, desc, x) + (if x in dummies then desc.StaticLen(x) else 0)
  {
    if x in dummies {
      var i :| 0 <= i < |dummies| && dummies[i] == x;
      assert x <= 2 && freq0[x] == 0 && freq[x] == 1;
      assert desc.Xbits(x) == 0;
      assert SymbolBits(freq0, lens, desc, x) == 0;
    } else {
      assert freq[x] == freq0[x];
    }
  }

  /** The decrements for forced codes cancel what their one-bit codes add. */
  lemma {:induction false} DummiesCancel(desc: Desc, freq0: seq<nat>, freq: seq<nat>, lens: seq<nat>, leaves: set<nat>, dummies: seq<nat>)
    requires desc.Valid() && LeavesAre(desc, freq0, freq, leaves, dummies) && desc.elems <= |lens|
    requires forall x: nat :: x in dummies && x < |lens| ==> lens[x] == 1
    ensures TotalBits(freq, lens, desc) == TotalBits(freq0, lens, desc) + |dummies|
    ensures TotalStatic(freq, desc) == TotalStatic(freq0, desc) + StaticBits(desc, dummies)
  {
    var s := SetOf(dummies);
    var w0, w1, v0, v1 := BitWeights(freq0, lens, desc), BitWeights(freq, lens, desc),
                          StaticWeights(freq0, desc), StaticWeights(freq, desc);
    forall x: nat | x < desc.elems
      ensures w1[x] == w0[x] + (if x in s then AllOne(desc.elems)[x] else 0)
      ensures v1[x] == v0[x] + (if x in s then StaticLens(desc)[x] else 0)
    {
      assert x in s <==> x in dummies;
      DummySymbol(desc, freq0, freq, lens, leaves, dummies, x);
    }
    WholePlus(w0, w1, s, AllOne(desc.elems));
    WholePlus(v0, v1, s, StaticLens(desc));
    PickIsMask(dummies, AllOne(desc.elems));
    PickIsMask(dummies, StaticLens(desc));
    PickDummies(desc, dummies);
  }

  lemma {:induction false} SameBits(desc: Desc, freq: seq<nat>, freq': seq<nat>, lens: seq<nat>)
    requires |freq| == |freq'| >= desc.elems && forall x :: 0 <= x < desc.elems ==> freq'[x] == freq[x]
    ensures TotalBits(freq', lens, desc) == TotalBits(freq, lens, desc)
    ensures TotalStatic(freq', desc) == TotalStatic(freq, desc)
  {
    assert BitWeights(freq', lens, desc) == BitWeights(freq, lens, desc);
    assert StaticWeights(freq', desc) == StaticWeights(freq, desc);
  }

  // ----- build_tree -----

  /** Symbols that get a code: those in use, and forced ones if fewer than two are. */
  ghost predicate Coded(desc: Desc, freq0: seq<nat>, leaves: set<nat>)
  {
    && desc.elems <= |freq0|
    && (forall x: nat :: x in leaves ==> x < desc.elems)
    && (forall x: nat :: x < desc.elems && freq0[x] != 0 ==> x in leaves)
    && (forall x: nat :: x in leaves && freq0[x] == 0 ==> x <= 2)
  }

  /** A complete canonical code for the leaves within the limit, ready to send. */
  ghost predicate GoodCode(desc: Desc, leaves: set<nat>, lens: seq<nat>, codes: seq<nat>)
  {
    && |lens| == desc.elems && ValidLens(lens)
    && (forall x :: 0 <= x < desc.elems ==> if x in leaves then 1 <= lens[x] <= desc.maxLength else lens[x] == 0)
    && Complete(lens) && CodesFor(codes, lens, desc.elems)
  }

  // ----- when the code is one of least cost -----

  /** Number of symbols counted. */
  ghost function Counts(freq: seq<nat>, desc: Desc): nat
    requires desc.elems <= |freq|
  {
    Whole(freq[..desc.elems])
  }

  lemma {:induction false} MaskCut(leaves: set<nat>, w: seq<nat>, n: nat)
    requires n <= |w| && forall x :: x in leaves ==> x < n
    ensures MaskSum(leaves, w) == MaskSum(leaves, w[..n])
  {
    if |w| > n {
      MaskCut(leaves, w[..|w| - 1], n);
      assert w[..|w| - 1][..n] == w[..n];
    } else {
      assert w[..n] == w;
    }
  }

  /** The root has been counted as often as all symbols and the forced ones. */
  lemma {:induction false} RootCounts(desc: Desc, ord: seq<nat>, freq0: seq<nat>, forced: seq<nat>, freq: seq<nat>,
                                      leaves: set<nat>, dummies: seq<nat>, k: nat)
    requires desc.Valid() && Shape(ord, desc.elems, leaves, k) && LeavesAre(desc, freq0, forced, leaves, dummies)
    requires Freqs(ord, freq, desc.elems, k) && InRange(ord, |freq|) && desc.elems + k <= |freq|
    requires |forced| == |freq| && forall x :: 0 <= x < desc.elems ==> freq[x] == forced[x]
    ensures freq[ord[0]] == Counts(freq0, desc) + |dummies|
  {
    var w, w', s := freq0[..desc.elems], forced[..desc.elems], SetOf(dummies);
    RootCount(ord, freq, desc.elems, leaves, k);
    MaskCut(leaves, freq, desc.elems);
    assert freq[..desc.elems] == w';
    MaskIsWhole(leaves, w');
    forall x: nat | x < desc.elems ensures w'[x] == w[x] + (if x in s then AllOne(desc.elems)[x] else 0) {
      assert x in s <==> x in dummies;
    }
    WholePlus(w, w', s, AllOne(desc.elems));
    PickIsMask(dummies, AllOne(desc.elems));
    PickDummies(desc, dummies);
  }

  /** What build_tree's tree gives when the symbols were counted in 16 bits. */
  lemma {:induction false} CountedTree(desc: Desc, ord: seq<nat>, freq0: seq<nat>, forced: seq<nat>, freq: seq<nat>, depth: seq<nat>,
                                       leaves: set<nat>, dummies: seq<nat>, k: nat)
    requires desc.Valid() && Shape(ord, desc.elems, leaves, k) && LeavesAre(desc, freq0, forced, leaves, dummies)
    requires Freqs(ord, freq, desc.elems, k) && Ranked(ord, freq, depth, desc.elems, k) && |dummies| <= 2
    requires |forced| == |freq| && forall x :: 0 <= x < desc.elems ==> freq[x] == forced[x]
    requires Counts(freq0, desc) <= 0xffff
    ensures RankedTree(ord, freq, depth, desc.elems, leaves, k)
    ensures freq[ord[0]] == Counts(freq0, desc) + |dummies|
  {
    RankedDescends(ord, freq, depth, desc.elems, k);
    RootCounts(desc, ord, freq0, forced, freq, leaves, dummies, k);
  }

  /** Two leaves make a tree of depth 1. */
  lemma {:induction false} TwoLeaves(desc: Desc, ord: seq<nat>, freq: seq<nat>, depth: seq<nat>, leaves: set<nat>)
    requires Shape(ord, desc.elems, leaves, 1) && Ranked(ord, freq, depth, desc.elems, 1)
    ensures depth[desc.elems] == 1
  {
    assert DepthOk(ord, depth, desc.elems, 1, 0);
    assert SonBelow(ord, desc.elems, 1, 1) && SonBelow(ord, desc.elems, 1, 2);
  }

  /** Few symbols, or two, never make a tree deeper than the limit. */
  lemma {:induction false} FewFit(desc: Desc, ord: seq<nat>, freq0: seq<nat>, forced: seq<nat>, freq: seq<nat>, depth: seq<nat>,
                                  leaves: set<nat>, dummies: seq<nat>, k: nat)
    requires desc.Valid() && Shape(ord, desc.elems, leaves, k) && LeavesAre(desc, freq0, forced, leaves, dummies)
    requires Freqs(ord, freq, desc.elems, k) && Ranked(ord, freq, depth, desc.elems, k) && |dummies| <= 2
    requires |forced| == |freq| && forall x :: 0 <= x < desc.elems ==> freq[x] == forced[x]
    requires Counts(freq0, desc) < Fib(desc.maxLength + 3) && (dummies != [] ==> k == 1)
    ensures Counts(freq0, desc) <= 0xffff && depth[desc.elems + k - 1] <= desc.maxLength
  {
    FibMono(desc.maxLength + 3, 18);
    FibValues();
    CountedTree(desc, ord, freq0, forced, freq, depth, leaves, dummies, k);
    if dummies == [] {
      DeepNeedsMany(ord, freq, depth, desc.elems, leaves, k, desc.maxLength);
    } else {
      TwoLeaves(desc, ord, freq, depth, leaves);
    }
  }

  /** Lengths by depth are kept, and of least cost, if the tree is no deeper than the limit. */
  lemma {:induction false} NotDeep(ord: seq<nat>, freq: seq<nat>, depth: seq<nat>, desc: Desc, leaves: set<nat>, k: nat, d: seq<nat>)
    requires RankedTree(ord, freq, depth, desc.elems, leaves, k) && desc.elems + k <= |freq| == |d|
    requires Clamped(ord, d, desc.elems, k, desc.maxLength) && depth[desc.elems + k - 1] <= desc.maxLength
    ensures AtLimit(d, desc.elems, k, desc.maxLength) == 0 && BestWithin(leaves, freq, d, desc.maxLength)
  {
    ClampedIfDeep(ord, freq, depth, desc.elems, leaves, k, d, desc.maxLength);
    RankedDescends(ord, freq, depth, desc.elems, k);
    TreeIsBest(ord, freq, desc.elems, leaves, k, d, desc.maxLength);
  }

  /** Some lengths within the limit are of least cost. */
  ghost predicate BestFits(leaves: set<nat>, freq: seq<nat>, limit: nat)
  {
    exists other: seq<nat> :: BestWithin(leaves, freq, other, limit)
  }

  /** Exactly when build_tree's lengths are of least cost: when such lengths exist within the
      limit; and a condition on the counts alone that suffices. */
  ghost predicate AsGoodAsCan(desc: Desc, freq0: seq<nat>, leaves: set<nat>, freq: seq<nat>, dl: seq<nat>)
  {
    && desc.elems <= |freq0|
    && (Counts(freq0, desc) <= 0xffff ==> (BestLens(leaves, freq, dl) <==> BestFits(leaves, freq, desc.maxLength)))
    && (Counts(freq0, desc) < Fib(desc.maxLength + 3) ==> BestLens(leaves, freq, dl))
  }

  /** What the lemmas below have of build_tree and of gen_bitlen's first pass, d. */
  ghost predicate FirstPassed(desc: Desc, ord: seq<nat>, freq: seq<nat>, depth: seq<nat>, leaves: set<nat>, k: nat, d: seq<nat>, dl: seq<nat>)
  {
    var tree := Shape(ord, desc.elems, leaves, k) && Freqs(ord, freq, desc.elems, k) && Ranked(ord, freq, depth, desc.elems, k);
    var sizes := |d| == |freq| == |dl| && desc.elems + k <= |d|;
    tree && sizes && Clamped(ord, d, desc.elems, k, desc.maxLength)
    && (AtLimit(d, desc.elems, k, desc.maxLength) == 0 ==> dl == d)
    && forall x :: x in leaves ==> x < |dl| && dl[x] <= desc.maxLength
  }

  lemma {:induction false} BestIfFits(desc: Desc, ord: seq<nat>, freq: seq<nat>, depth: seq<nat>, leaves: set<nat>, k: nat, d: seq<nat>, dl: seq<nat>)
    requires FirstPassed(desc, ord, freq, depth, leaves, k, d, dl) && RankedTree(ord, freq, depth, desc.elems, leaves, k)
    ensures depth[desc.elems + k - 1] <= desc.maxLength ==> BestLens(leaves, freq, dl)
    ensures BestLens(leaves, freq, dl) <==> BestFits(leaves, freq, desc.maxLength)
  {
    if BestLens(leaves, freq, dl) {
      assert BestWithin(leaves, freq, dl, desc.maxLength);
    }
    if BestFits(leaves, freq, desc.maxLength) {
      var other :| BestWithin(leaves, freq, other, desc.maxLength);
      BestIfAnyFits(ord, freq, depth, desc.elems, leaves, k, other, desc.maxLength);
    }
    if depth[desc.elems + k - 1] <= desc.maxLength {
      NotDeep(ord, freq, depth, desc, leaves, k, d);
    }
  }

  lemma {:induction false} IsBest(desc: Desc, ord: seq<nat>, freq0: seq<nat>, forced: seq<nat>, freq: seq<nat>, depth: seq<nat>,
                                  leaves: set<nat>, dummies: seq<nat>, k: nat, d: seq<nat>, dl: seq<nat>)
    requires desc.Valid() && FirstPassed(desc, ord, freq, depth, leaves, k, d, dl)
    requires LeavesAre(desc, freq0, forced, leaves, dummies) && |dummies| <= 2 && (dummies != [] ==> k == 1)
    requires |forced| == |freq| && forall x :: 0 <= x < desc.elems ==> freq[x] == forced[x]
    ensures AsGoodAsCan(desc, freq0, leaves, freq, dl)
  {
    if Counts(freq0, desc) < Fib(desc.maxLength + 3) {
      FewFit(desc, ord, freq0, forced, freq, depth, leaves, dummies, k);
    }
    if Counts(freq0, desc) <= 0xffff {
      CountedTree(desc, ord, freq0, forced, freq, depth, leaves, dummies, k);
      BestIfFits(desc, ord, freq, depth, leaves, k, d, dl);
    }
  }

  /** In a tree of two leaves both have one-bit codes. */
  lemma {:induction false} OneBitEach(ord: seq<nat>, desc: Desc, leaves: set<nat>, k: nat, dl: seq<nat>, x: nat)
    requires desc.Valid() && Shape(ord, desc.elems, leaves, k) && k == 1 && x in leaves && desc.elems + k <= |dl|
    requires Clamped(ord, dl, desc.elems, k, desc.maxLength)
    ensures x < |dl| && dl[x] == 1
  {
    assert x in ord;
    var j: nat :| j < |ord| && ord[j] == x;
    assert j >= 1;
    assert LenOk(ord, dl, desc.elems, k, desc.maxLength, j);
    assert Dad(desc.elems, k, j) == ord[0];
  }

  lemma {:induction false} CodesReady(desc: Desc, leaves: set<nat>, max_code: int, dl: seq<nat>, c: seq<nat>)
    requires desc.Valid() && GoodLens(dl, c, desc, leaves) && AtMost(leaves, max_code) && max_code < desc.elems
    ensures ValidLens(dl[..desc.elems]) && Fits16(dl[..desc.elems])
    ensures forall x :: 0 <= x < desc.elems && x > max_code ==> dl[..desc.elems][x] == 0
  {
    AllFit(dl[..desc.elems]);
  }

  lemma {:induction false} AddUp(desc: Desc, ord: seq<nat>, freq0: seq<nat>, freq1: seq<nat>, freq: seq<nat>, dl: seq<nat>,
              leaves: set<nat>, dummies: seq<nat>, k: nat)
    requires desc.Valid() && Shape(ord, desc.elems, leaves, k) && LeavesAre(desc, freq0, freq1, leaves, dummies)
    requires |freq1| == |freq| && forall x :: 0 <= x < desc.elems ==> freq[x] == freq1[x]
    requires desc.elems <= |dl| && (dummies != [] ==> forall x: nat :: x in leaves ==> x < |dl| && dl[x] == 1)
    ensures ListBits(ord, freq, dl, desc) == TotalBits(freq0, dl, desc) + |dummies|
    ensures ListStatic(ord, freq, desc) == TotalStatic(freq0, desc) + StaticBits(desc, dummies)
  {
    ListIsTotal(ord, freq, dl, desc, leaves, k);
    SameBits(desc, freq1, freq, dl);
    DummiesCancel(desc, freq0, freq1, dl, leaves, dummies);
  }

  lemma {:induction false} AreCoded(desc: Desc, freq0: seq<nat>, freq: seq<nat>, leaves: set<nat>, dummies: seq<nat>)
    requires LeavesAre(desc, freq0, freq, leaves, dummies)
    ensures Coded(desc, freq0, leaves)
    ensures forall x: nat :: x in leaves ==> freq[x] == if freq0[x] != 0 then freq0[x] else 1
  {
  }

  /**
   Frequencies to codes.  The code is complete, within the length limit, and has a code
   for every symbol in use; opt_len and static_len grow by exactly the bits the symbols
   counted in freq0 take with it and with the static code.  No other code takes fewer bits
   if and only if the limit allows such a code at all.
   */
  method BuildCode(heap: array<nat>, freq0: seq<nat>, dl0: seq<nat>, desc: Desc, opt_len0: int, static_len0: int)
    returns (codes: seq<nat>, dl: seq<nat>, max_code: int, opt_len: int, static_len: int,
             ghost leaves: set<nat>, ghost freq1: seq<nat>)
    requires desc.Valid() && |freq0| == |dl0| == 2 * desc.elems + 1 && heap.Length == HEAP_SIZE
    modifies heap
    ensures |dl| == 2 * desc.elems + 1 && Coded(desc, freq0, leaves) && AtMost(leaves, max_code)
    ensures GoodCode(desc, leaves, dl[..desc.elems], codes)
    ensures opt_len == opt_len0 + TotalBits(freq0, dl, desc)
    ensures static_len == static_len0 + TotalStatic(freq0, desc)
    ensures |freq1| == |dl| && forall x: nat :: x in leaves ==> freq1[x] == if freq0[x] != 0 then freq0[x] else 1
    ensures AsGoodAsCan(desc, freq0, leaves, freq1, dl)
  {
    var max, freq, dl1;
    ghost var dummies, total, k, forced, depth, d;
    max, freq, dl1, max_code, opt_len, static_len, leaves, dummies, total, k, forced, depth :=
      MakeTree(heap, freq0, dl0, desc, opt_len0, static_len0);
    ghost var ord := heap[max..];
    assert heap[..][max..] == ord;
    var c;
    dl, c, opt_len, static_len, d := CodeLengths(heap, max, freq, dl1, desc, max_code, opt_len, static_len, ord, leaves, k);
    freq1 := freq;
    IsBest(desc, ord, freq0, forced, freq, depth, leaves, dummies, k, d, dl);
    if k == 1 {
      forall x: nat | x in leaves ensures x < |dl| && dl[x] == 1 {
        OneBitEach(ord, desc, leaves, k, dl, x);
      }
    }
    AddUp(desc, ord, freq0, forced, freq, dl, leaves, dummies, k);
    AreCoded(desc, freq0, forced, leaves, dummies);
    assert forall x: nat :: x in leaves ==> freq1[x] == forced[x];
    CodesReady(desc, leaves, max_code, dl, c);
    codes := GenCodes(freq, dl, max_code, c, dl[..desc.elems]);
  }

  // ----- a limit that costs -----

  lemma {:induction false} WholeZeros(w: seq<nat>, n: nat)
    requires n <= |w| && forall x :: n <= x < |w| ==> w[x] == 0
    ensures Whole(w) == Whole(w[..n])
  {
    if |w| > n {
      WholeZeros(w[..|w| - 1], n);
      assert w[..|w| - 1][..n] == w[..n];
    } else {
      assert w[..n] == w;
    }
  }

  lemma {:induction false} WholeStep(w: seq<nat>, n: nat)
    requires n < |w|
    ensures Whole(w[..n + 1]) == Whole(w[..n]) + w[n]
  {
    assert w[..n + 1][..n] == w[..n];
  }

  lemma {:induction false} WholeUneven()
    ensures Whole(UNEVEN) == 75
  {
    assert UNEVEN[..0] == [] && UNEVEN[..9] == UNEVEN;
    WholeStep(UNEVEN, 0);
    WholeStep(UNEVEN, 1);
    WholeStep(UNEVEN, 2);
    WholeStep(UNEVEN, 3);
    WholeStep(UNEVEN, 4);
    WholeStep(UNEVEN, 5);
    WholeStep(UNEVEN, 6);
    WholeStep(UNEVEN, 7);
    WholeStep(UNEVEN, 8);
  }

  /** With a limit of seven bits, as for code lengths, there are counts for which build_tree's code
      is not one of least cost. */
  lemma {:induction false} LimitCosts(desc: Desc, freq0: seq<nat>, leaves: set<nat>, freq1: seq<nat>, dl: seq<nat>)
    requires desc.Valid() && desc.maxLength == 7 && 9 <= desc.elems <= |freq0|
    requires freq0[..9] == UNEVEN && forall x :: 9 <= x < desc.elems ==> freq0[x] == 0
    requires Coded(desc, freq0, leaves) && |freq1| == 2 * desc.elems + 1
    requires forall x: nat :: x in leaves ==> freq1[x] == if freq0[x] != 0 then freq0[x] else 1
    requires AsGoodAsCan(desc, freq0, leaves, freq1, dl)
    ensures !BestLens(leaves, freq1, dl)
  {
    assert forall x :: 0 <= x < 9 ==> freq0[x] == UNEVEN[x];
    forall x: nat ensures x in leaves <==> x in Nine() {
    }
    assert leaves == Nine() && freq1[..9] == UNEVEN;
    var w := freq0[..desc.elems];
    assert w[..9] == UNEVEN;
    WholeZeros(w, 9);
    WholeUneven();
    if BestFits(leaves, freq1, 7) {
      var other :| BestWithin(leaves, freq1, other, 7);
      SevenIsTooFew(freq1, other);
    }
  }

  /** The code and its cost, without optimality. */
  method CodeFor(heap: array<nat>, freq0: seq<nat>, dl0: seq<nat>, desc: Desc, opt_len0: int, static_len0: int)
    returns (codes: seq<nat>, lens: seq<nat>, max_code: int, opt_len: int, static_len: int, ghost leaves: set<nat>)
    requires desc.Valid() && |freq0| == |dl0| == 2 * desc.elems + 1 && heap.Length == HEAP_SIZE
    modifies heap
    ensures Coded(desc, freq0, leaves) && AtMost(leaves, max_code) && GoodCode(desc, leaves, lens, codes)
    ensures opt_len == opt_len0 + TotalBits(freq0, lens, desc)
    ensures static_len == static_len0 + TotalStatic(freq0, desc)
  {
    var dl;
    ghost var freq1;
    codes, dl, max_code, opt_len, static_len, leaves, freq1 := BuildCode(heap, freq0, dl0, desc, opt_len0, static_len0);
    lens := dl[..desc.elems];
    CutWeights(freq0, dl, desc);
  }

  lemma {:induction false} CutWeights(freq: seq<nat>, dl: seq<nat>, desc: Desc)
    requires desc.elems <= |freq| && desc.elems <= |dl|
    ensures TotalBits(freq, dl[..desc.elems], desc) == TotalBits(freq, dl, desc)
  {
    assert BitWeights(freq, dl[..desc.elems], desc) == BitWeights(freq, dl, desc);
  }
}
