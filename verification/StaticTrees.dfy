/**
 The static trees (`tr_static_init` of trees.c) and blocks written with them.
 */
module StaticTrees {
  import opened Bits
  import opened Huffman
  import opened Sums
  import opened InflateTable
  import opened Inflating
  import opened BuildTree
  import opened MakeCodes
  import opened BitWriter
  import opened SymbolTables
  import opened CompressBlock
  import opened BlockCost
  import opened FixedCodes
  import opened FlushBlock

  /** A static distance code is its own number. */
  lemma {:induction false} StaticDCode(n: nat)
    requires n < 32
    ensures Codeword(StaticD(), n) == BigBits(n, 5)
  {
    var lens := StaticD();
    forall m: nat | 1 <= m <= 4 ensures Count(lens, m) == 0 {
      StaticCounts(m);
    }
    NoShort(lens, 4);
    assert lens[..n] == seq(n, _ => 5);
    CountSame(n, 5, 5);
  }

  // ----- building them -----

  method StaticDTree() returns (dtree: Tree)
    ensures TreeOk(dtree) && dtree.lens == StaticD()
  {
    var codes: seq<nat> := seq(32, _ => 0);
    var n: nat := 0;
    while n < 32
      invariant n <= 32 && |codes| == 32 && forall x: nat :: x < n ==> codes[x] == Val(Codeword(StaticD(), x))
    {
      var code := BiReverse(n, 5);
      StaticDCode(n);
      codes := codes[n := code];
      n := n + 1;
    }
    dtree := Tree(codes, StaticD());
  }

  lemma {:induction false} StaticFits()
    ensures ValidLens(StaticL()) && Fits16(StaticL())
  {
    StaticLComplete();
    AllFit(StaticL());
  }

  method StaticLTree() returns (ltree: Tree)
    ensures TreeOk(ltree) && ltree.lens == StaticL()
  {
    StaticFits();
    var lens := StaticL();
    var c := CountLens(lens);
    StaticCounts(0);
    assert lens == lens[..288];
    var codes := GenCodes(seq(288, _ => 0), lens, 287, c, lens);
    ltree := Tree(codes, lens);
  }

  // ----- a static block -----

  lemma {:induction false} StaticUsed(t: CodeTables, syms: seq<Sym>)
    requires AllOk(t, syms)
    ensures AllHaveCodes(t, StaticL(), StaticD(), syms) && Used(StaticL(), END_BLOCK)
  {
    forall i | 0 <= i < |syms| ensures HasCodes(t, StaticL(), StaticD(), syms[i]) {
      if syms[i].dist != 0 {
        assert LengthReady(t, syms[i].lc) && DistReady(t, syms[i].dist - 1);
      }
    }
  }

  lemma {:induction false} TheStaticLens()
    ensures BlockCost.StaticLens(StaticL(), StaticD(), L_DESC(), D_DESC())
  {
  }

  ghost function StaticBlock(t: CodeTables, syms: seq<Sym>): BitString
    requires AllOk(t, syms)
  {
    StaticUsed(t, syms);
    AllBits(t, StaticL(), StaticD(), syms) + Codeword(StaticL(), END_BLOCK)
  }

  /** static_len is the number of bits of the static block. */
  lemma {:induction false} StaticBlockCost(t: CodeTables, syms: seq<Sym>)
    requires AllOk(t, syms) && LengthTables(t) && DistTables(t)
    ensures |StaticBlock(t, syms)| == TotalStatic(LFreq(t, syms), L_DESC()) + TotalStatic(DFreq(t, syms), D_DESC())
  {
    StaticUsed(t, syms);
    TheStaticLens();
    TheDescs(t);
    StaticCost(t, StaticL(), StaticD(), syms, L_DESC(), D_DESC());
  }
}
