/**
 The trees of a block and the block written with them: the bits sent are those that
 opt_len counted.
 */
module FlushBlock {
  import opened Bits
  import opened Huffman
  import opened Sums
  import opened BuildTree
  import opened MakeCodes
  import opened RunCoding
  import opened BitWriter
  import opened SymbolTables
  import opened CompressBlock
  import opened BlockCost
  import opened TreeSending
  import opened BlockHeader

  // ----- trailing zero lengths do not matter -----

  lemma {:induction false} CountCut(lens: seq<nat>, n: nat, l: nat)
    requires n <= |lens| && l >= 1 && forall i :: n <= i < |lens| ==> lens[i] == 0
    ensures Count(lens[..n], l) == Count(lens, l)
    decreases |lens|
  {
    if n < |lens| {
      var k := |lens| - 1;
      CountCut(lens[..k], n, l);
      assert lens[..k][..n] == lens[..n];
    } else {
      assert lens[..n] == lens;
    }
  }

  lemma {:induction false} FirstCodeCut(lens: seq<nat>, n: nat, l: nat)
    requires n <= |lens| && forall i :: n <= i < |lens| ==> lens[i] == 0
    ensures FirstCode(lens[..n], l) == FirstCode(lens, l)
    decreases l
  {
    if l > 1 {
      FirstCodeCut(lens, n, l - 1);
      CountCut(lens, n, l - 1);
    }
  }

  lemma {:induction false} CodewordCut(lens: seq<nat>, n: nat, x: nat)
    requires x < n <= |lens| && forall i :: n <= i < |lens| ==> lens[i] == 0
    ensures Codeword(lens[..n], x) == Codeword(lens, x)
  {
    FirstCodeCut(lens, n, lens[x]);
    assert lens[..n][..x] == lens[..x];
  }

  lemma {:induction false} KraftCut(lens: seq<nat>, n: nat, l: nat)
    requires n <= |lens| && l <= MAX_BITS && forall i :: n <= i < |lens| ==> lens[i] == 0
    ensures Kraft(lens[..n], l) == Kraft(lens, l)
    decreases l
  {
    if l > 0 {
      KraftCut(lens, n, l - 1);
      CountCut(lens, n, l);
    }
  }

  /** A code cut after its last symbol. */
  lemma {:induction false} TreeCut(desc: Desc, leaves: set<nat>, codes: seq<nat>, lens: seq<nat>, n: nat)
    requires GoodCode(desc, leaves, lens, codes) && n <= |lens| && forall x: nat :: x in leaves ==> x < n
    ensures TreeOk(Tree(codes, lens[..n])) && Complete(lens[..n])
    ensures forall x: nat :: x in leaves ==> Used(lens[..n], x)
  {
    forall x: nat | x < n && lens[x] != 0 ensures codes[x] == Val(Codeword(lens[..n], x)) {
      CodewordCut(lens, n, x);
    }
    KraftCut(lens, n, MAX_BITS);
  }

  // ----- frequencies of the buffered symbols -----

  lemma {:induction false} LFreqHas(t: CodeTables, syms: seq<Sym>, i: nat)
    requires AllOk(t, syms) && i < |syms|
    ensures LSym(t, syms[i]) < L_CODES && LFreq(t, syms)[LSym(t, syms[i])] >= 1
    decreases |syms|
  {
    var n := |syms| - 1;
    if i < n {
      LFreqHas(t, syms[..n], i);
    }
  }

  lemma {:induction false} DFreqHas(t: CodeTables, syms: seq<Sym>, i: nat)
    requires AllOk(t, syms) && i < |syms| && syms[i].dist != 0
    ensures DFreq(t, syms)[DCode(t.distCode, syms[i].dist - 1)] >= 1
    decreases |syms|
  {
    var n := |syms| - 1;
    if i < n {
      DFreqHas(t, syms[..n], i);
    }
  }

  lemma {:induction false} EndHas(t: CodeTables, syms: seq<Sym>)
    requires AllOk(t, syms)
    ensures LFreq(t, syms)[END_BLOCK] >= 1
    decreases |syms|
  {
    if syms != [] {
      EndHas(t, syms[..|syms| - 1]);
    }
  }

  /** Codes for all frequencies above zero are codes for all symbols. */
  lemma {:induction false} FreqCodes(t: CodeTables, syms: seq<Sym>, llens: seq<nat>, dlens: seq<nat>)
    requires AllOk(t, syms)
    requires forall x: nat :: x < L_CODES && LFreq(t, syms)[x] != 0 ==> Used(llens, x)
    requires forall x: nat :: x < D_CODES && DFreq(t, syms)[x] != 0 ==> Used(dlens, x)
    ensures AllHaveCodes(t, llens, dlens, syms) && Used(llens, END_BLOCK)
  {
    EndHas(t, syms);
    forall i | 0 <= i < |syms| ensures HasCodes(t, llens, dlens, syms[i]) {
      LFreqHas(t, syms, i);
      if syms[i].dist != 0 {
        DFreqHas(t, syms, i);
        assert DistReady(t, syms[i].dist - 1);
      }
    }
  }

  lemma {:induction false} CutTotal(freq: seq<nat>, dl: seq<nat>, desc: Desc, n: nat)
    requires n <= desc.elems <= |dl| && desc.elems <= |freq| && forall x: nat :: n <= x < desc.elems ==> freq[x] == 0
    ensures TotalBits(freq, dl[..n], desc) == TotalBits(freq, dl, desc)
  {
    assert BitWeights(freq, dl[..n], desc) == BitWeights(freq, dl, desc);
  }

  // ----- building the trees -----

  /** One tree of the block, cut after its last code. */
  method BuildOne(heap: array<nat>, freq: seq<nat>, dl0: seq<nat>, desc: Desc, opt_len0: int, static_len0: int)
    returns (tree: Tree, opt_len: int, static_len: int)
    requires desc.Valid() && |freq| == |dl0| == 2 * desc.elems + 1 && heap.Length == HEAP_SIZE
    modifies heap
    ensures TreeDone(tree, desc, freq)
    ensures opt_len == opt_len0 + TotalBits(freq, tree.lens, desc) && static_len == static_len0 + TotalStatic(freq, desc)
  {
    var codes, lens, max_code;
    ghost var leaves;
    codes, lens, max_code, opt_len, static_len, leaves := CodeFor(heap, freq, dl0, desc, opt_len0, static_len0);
    var n := max_code + 1;
    tree := Tree(codes, lens[..n]);
    OneTree(desc, leaves, codes, lens, max_code, freq, n);
  }

  lemma {:induction false} OneTree(desc: Desc, leaves: set<nat>, codes: seq<nat>, lens: seq<nat>, max_code: int, freq: seq<nat>, n: nat)
    requires GoodCode(desc, leaves, lens, codes) && Coded(desc, freq, leaves) && AtMost(leaves, max_code) && n == max_code + 1
    ensures n <= desc.elems && TreeDone(Tree(codes, lens[..n]), desc, freq)
    ensures TotalBits(freq, lens[..n], desc) == TotalBits(freq, lens, desc)
  {
    TreeCut(desc, leaves, codes, lens, n);
    CutTotal(freq, lens, desc, n);
  }

  /** A complete code, cut after its last symbol, for all symbols in use. */
  ghost predicate TreeDone(tree: Tree, desc: Desc, freq: seq<nat>)
  {
    && TreeOk(tree) && Complete(tree.lens) && 1 <= |tree.lens| <= desc.elems <= |freq|
    && forall x: nat :: x < desc.elems && freq[x] != 0 ==> Used(tree.lens, x)
  }

  /** The sizes of the three trees, and codes for everything the header sends. */
  ghost predicate Trees(ltree: Tree, dtree: Tree, bltree: Tree, blcodes: nat)
  {
    && 257 <= |ltree.lens| <= 286 && 1 <= |dtree.lens| <= 30 && |bltree.lens| == BL_CODES && 4 <= blcodes <= BL_CODES
    && (forall i :: 0 <= i < BL_CODES ==> bltree.lens[i] <= 7)
    && (forall i: nat :: blcodes <= i < BL_CODES ==> bltree.lens[BlOrder(i)] == 0)
    && CodeLens(ltree.lens) && CodeLens(dtree.lens) && AllUsed(bltree.lens, BothItems(ltree.lens, dtree.lens))
  }

  /** The trees of a block and what they promise about its symbols. */
  ghost predicate BlockTrees(t: CodeTables, syms: seq<Sym>, ltree: Tree, dtree: Tree, bltree: Tree, blcodes: nat)
  {
    && TreeOk(ltree) && TreeOk(dtree) && TreeOk(bltree) && Trees(ltree, dtree, bltree, blcodes)
    && AllHaveCodes(t, ltree.lens, dtree.lens, syms) && Used(ltree.lens, END_BLOCK)
  }

  /** The bits of a block with dynamic trees, after its three header bits. */
  ghost function DynamicBits(t: CodeTables, syms: seq<Sym>, ltree: Tree, dtree: Tree, bltree: Tree, blcodes: nat): BitString
    requires BlockTrees(t, syms, ltree, dtree, bltree, blcodes)
  {
    HeaderBits(ltree.lens, dtree.lens, bltree.lens, blcodes) +
    (AllBits(t, ltree.lens, dtree.lens, syms) + Codeword(ltree.lens, END_BLOCK))
  }

  method BuildTrees(heap: array<nat>, lfreq: seq<nat>, dfreq: seq<nat>, ldl: seq<nat>, ddl: seq<nat>, bdl: seq<nat>, ld: Desc, dd: Desc,
                    ghost t: CodeTables, ghost syms: seq<Sym>)
    returns (ltree: Tree, dtree: Tree, bltree: Tree, blcodes: nat, opt_len: int, static_len: int)
    requires heap.Length == HEAP_SIZE && AllOk(t, syms) && Descs(t, ld, dd) && ld.Valid() && dd.Valid()
    requires lfreq == LFreq(t, syms) && dfreq == DFreq(t, syms)
    requires |ldl| == 2 * L_CODES + 1 && |ddl| == 2 * D_CODES + 1 && |bdl| == 2 * BL_CODES + 1
    modifies heap
    ensures BlockTrees(t, syms, ltree, dtree, bltree, blcodes)
    ensures Complete(ltree.lens) && Complete(dtree.lens) && Complete(bltree.lens)
    ensures opt_len == |DynamicBits(t, syms, ltree, dtree, bltree, blcodes)|
    ensures static_len == TotalStatic(lfreq, ld) + TotalStatic(dfreq, dd)
  {
    ltree, opt_len, static_len := BuildOne(heap, lfreq, ldl, ld, 0, 0);
    dtree, opt_len, static_len := BuildOne(heap, dfreq, ddl, dd, opt_len, static_len);
    BothReady(t, syms, ltree, dtree, ld, dd);
    bltree, blcodes, opt_len := BuildBlTree(heap, ltree.lens, dtree.lens, bdl, opt_len);
    HeaderCost(ltree.lens, dtree.lens, bltree.lens, blcodes);
  }

  /** Both trees have codes for the symbols, and cost what the symbols cost. */
  lemma {:induction false} BothReady(t: CodeTables, syms: seq<Sym>, ltree: Tree, dtree: Tree, ld: Desc, dd: Desc)
    requires AllOk(t, syms) && Descs(t, ld, dd) && TreeDone(ltree, ld, LFreq(t, syms)) && TreeDone(dtree, dd, DFreq(t, syms))
    ensures AllHaveCodes(t, ltree.lens, dtree.lens, syms) && Used(ltree.lens, END_BLOCK)
    ensures CodeLens(ltree.lens) && CodeLens(dtree.lens)
    ensures |AllBits(t, ltree.lens, dtree.lens, syms)| + ltree.lens[END_BLOCK] ==
            TotalBits(LFreq(t, syms), ltree.lens, ld) + TotalBits(DFreq(t, syms), dtree.lens, dd)
  {
    FreqCodes(t, syms, ltree.lens, dtree.lens);
    DynamicCost(t, ltree.lens, dtree.lens, syms, ld, dd);
  }

  /** send_all_trees and compress_block. */
  method SendDynamic(w: Writer, t: CodeTables, syms: seq<Sym>, ltree: Tree, dtree: Tree, bltree: Tree, blcodes: nat)
    requires w.Valid() && BlockTrees(t, syms, ltree, dtree, bltree, blcodes)
    modifies w
    ensures w.Valid() && w.Sent() == old(w.Sent()) + DynamicBits(t, syms, ltree, dtree, bltree, blcodes)
  {
    ghost var s := w.Sent();
    SendAllTrees(w, ltree.lens, dtree.lens, bltree, blcodes);
    Compress(w, syms, ltree, dtree, t);
    Chain(s, HeaderBits(ltree.lens, dtree.lens, bltree.lens, blcodes), AllBits(t, ltree.lens, dtree.lens, syms), Codeword(ltree.lens, END_BLOCK));
  }

  lemma {:induction false} Chain(s: BitString, a: BitString, b: BitString, c: BitString)
    ensures ((s + a) + b) + c == s + (a + (b + c))
  {
  }
}
