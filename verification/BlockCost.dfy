/**
 `_tr_tally` and the cost of a block: the frequencies tallied for the buffered symbols
 give exactly the number of bits `compress_block` sends for them.
 */
module BlockCost {
  import opened Bits
  import opened Huffman
  import opened Sums
  import opened SymbolTables
  import opened CompressBlock
  import opened BuildTree
  import opened GenBitLen
  import opened MakeCodes

  const L_CODES := 286

  /** Lengths of the static codes. */
  function StaticLLen(n: nat): nat
  {
    if n <= 143 then 8 else if n <= 255 then 9 else if n <= 279 then 7 else 8
  }

  function L_DESC(): Desc { Desc(L_CODES, 15, 257, EXTRA_LBITS, true, seq(L_CODES, i requires i >= 0 => StaticLLen(i))) }

  function D_DESC(): Desc { Desc(D_CODES, 15, 0, EXTRA_DBITS, true, seq(D_CODES, _ => 5)) }

  lemma {:induction false} DescsValid()
    ensures L_DESC().Valid() && D_DESC().Valid()
  {
    Pow2Values();
    assert D_DESC().Xbits(0) == EXTRA_DBITS[0] == 0 && D_DESC().Xbits(1) == EXTRA_DBITS[1] == 0 && D_DESC().Xbits(2) == EXTRA_DBITS[2] == 0;
  }

  // ----- tallying -----

  /** The literal/length code of a symbol. */
  function LSym(t: CodeTables, s: Sym): nat
    requires s.dist == 0 || (|t.lengthCode| == 256 && s.lc < 256)
  {
    if s.dist == 0 then s.lc else 257 + t.lengthCode[s.lc]
  }

  /** Codes within the trees. */
  ghost predicate SymOk(t: CodeTables, s: Sym)
  {
    && s.lc < 256 && (s.dist != 0 ==> LengthReady(t, s.lc) && DistReady(t, s.dist - 1))
  }

  ghost predicate AllOk(t: CodeTables, syms: seq<Sym>) { forall i :: 0 <= i < |syms| ==> SymOk(t, syms[i]) }

  function Bump(freq: seq<nat>, c: nat): (r: seq<nat>)
    ensures |r| == |freq|
  {
    if c < |freq| then freq[c := freq[c] + 1] else freq
  }

  /** Frequencies of the literal/length codes: the end of the block counts once. */
  ghost function LFreq(t: CodeTables, syms: seq<Sym>): (f: seq<nat>)
    requires AllOk(t, syms)
    ensures |f| == 2 * L_CODES + 1
  {
    if syms == [] then Bump(seq(2 * L_CODES + 1, _ => 0), END_BLOCK)
    else Bump(LFreq(t, syms[..|syms| - 1]), LSym(t, syms[|syms| - 1]))
  }

  ghost function DFreq(t: CodeTables, syms: seq<Sym>): (f: seq<nat>)
    requires AllOk(t, syms)
    ensures |f| == 2 * D_CODES + 1
  {
    if syms == [] then seq(2 * D_CODES + 1, _ => 0)
    else
      var s := syms[|syms| - 1];
      var f := DFreq(t, syms[..|syms| - 1]);
      if s.dist == 0 then f else Bump(f, DCode(t.distCode, s.dist - 1))
  }

  /** The symbol buffer and the frequencies of its codes. */
  datatype SymBuf = SymBuf(syms: seq<Sym>, lfreq: seq<nat>, dfreq: seq<nat>)

  /** The frequencies are those of the symbols. */
  ghost predicate Counted(t: CodeTables, b: SymBuf)
  {
    var ok := AllOk(t, b.syms);
    ok && b.lfreq == LFreq(t, b.syms) && b.dfreq == DFreq(t, b.syms)
  }

  /** init_block */
  function EmptyBuf(): SymBuf
  {
    SymBuf([], seq(2 * L_CODES + 1, _ => 0)[END_BLOCK := 1], seq(2 * D_CODES + 1, _ => 0))
  }

  lemma {:induction false} EmptyCounted(t: CodeTables)
    ensures Counted(t, EmptyBuf())
  {
  }

  /** _tr_tally: true if the block must be flushed. */
  method TallySym(t: CodeTables, b: SymBuf, s: Sym, size: nat) returns (b': SymBuf, full: bool)
    requires Counted(t, b) && SymOk(t, s)
    ensures Counted(t, b') && b'.syms == b.syms + [s] && (full <==> |b'.syms| == size)
  {
    b' := b.(syms := b.syms + [s]);
    assert b'.syms[..|b.syms|] == b.syms;
    if s.dist == 0 {
      b' := b'.(lfreq := b.lfreq[s.lc := b.lfreq[s.lc] + 1]);
    } else {
      var c := 257 + t.lengthCode[s.lc];
      var d := DCode(t.distCode, s.dist - 1);
      b' := b'.(lfreq := b.lfreq[c := b.lfreq[c] + 1], dfreq := b.dfreq[d := b.dfreq[d] + 1]);
    }
    full := |b'.syms| == size;
  }

  // ----- the number of bits -----

  lemma {:induction false} WholeOne(w: seq<nat>, w': seq<nat>, c: nat, d: nat)
    requires |w| == |w'| && c < |w| && w'[c] == w[c] + d && forall x :: 0 <= x < |w| && x != c ==> w'[x] == w[x]
    ensures Whole(w') == Whole(w) + d
  {
    var n := |w| - 1;
    if c < n {
      WholeOne(w[..n], w'[..n], c, d);
    } else {
      assert w'[..n] == w[..n];
    }
  }

  lemma {:induction false} OneMore(f: nat, l: nat)
    ensures (f + 1) * l == f * l + l
  {
  }

  /** One more occurrence of a symbol costs its code and its extra bits. */
  lemma {:induction false} TotalBump(freq: seq<nat>, lens: seq<nat>, desc: Desc, c: nat)
    requires c < desc.elems <= |freq| && c < |lens|
    ensures TotalBits(Bump(freq, c), lens, desc) == TotalBits(freq, lens, desc) + lens[c] + desc.Xbits(c)
  {
    OneMore(freq[c], lens[c] + desc.Xbits(c));
    WholeOne(BitWeights(freq, lens, desc), BitWeights(Bump(freq, c), lens, desc), c, lens[c] + desc.Xbits(c));
  }

  lemma {:induction false} StaticBump(freq: seq<nat>, desc: Desc, c: nat)
    requires c < desc.elems <= |freq| && desc.hasStatic
    ensures TotalStatic(Bump(freq, c), desc) == TotalStatic(freq, desc) + desc.StaticLen(c) + desc.Xbits(c)
  {
    OneMore(freq[c], desc.StaticLen(c) + desc.Xbits(c));
    WholeOne(StaticWeights(freq, desc), StaticWeights(Bump(freq, c), desc), c, desc.StaticLen(c) + desc.Xbits(c));
  }

  lemma {:induction false} WholeZero(w: seq<nat>)
    requires forall x :: 0 <= x < |w| ==> w[x] == 0
    ensures Whole(w) == 0
  {
    if w != [] {
      WholeZero(w[..|w| - 1]);
    }
  }

  lemma {:induction false} NoBits(n: nat, lens: seq<nat>, desc: Desc)
    requires desc.elems <= n
    ensures TotalBits(seq(n, _ => 0), lens, desc) == 0 && TotalStatic(seq(n, _ => 0), desc) == 0
  {
    WholeZero(BitWeights(seq(n, _ => 0), lens, desc));
    WholeZero(StaticWeights(seq(n, _ => 0), desc));
  }

  /** The constant side of the two trees, with the extra bits of the symbol tables. */
  ghost predicate Descs(t: CodeTables, ld: Desc, dd: Desc)
  {
    && ld.elems == L_CODES && ld.base == 257 && ld.extra == t.extraL && |t.extraL| == LENGTH_CODES
    && dd.elems == D_CODES && dd.base == 0 && dd.extra == t.extraD && |t.extraD| == D_CODES
    && ld.hasStatic && dd.hasStatic
  }

  lemma {:induction false} TheDescs(t: CodeTables)
    requires LengthTables(t) && DistTables(t)
    ensures Descs(t, L_DESC(), D_DESC())
  {
  }

  lemma {:induction false} AllBitsSnoc(t: CodeTables, llens: seq<nat>, dlens: seq<nat>, syms: seq<Sym>, s: Sym)
    requires AllHaveCodes(t, llens, dlens, syms) && HasCodes(t, llens, dlens, s)
    ensures AllHaveCodes(t, llens, dlens, syms + [s])
    ensures |AllBits(t, llens, dlens, syms + [s])| == |AllBits(t, llens, dlens, syms)| + |SymBits(t, llens, dlens, s)|
  {
    if syms == [] {
      assert (syms + [s])[1..] == [];
    } else {
      assert (syms + [s])[1..] == syms[1..] + [s];
      AllBitsSnoc(t, llens, dlens, syms[1..], s);
    }
  }

  /** Bits of one symbol: code lengths and extra bits of its codes. */
  lemma {:induction false} SymCost(t: CodeTables, llens: seq<nat>, dlens: seq<nat>, s: Sym, ld: Desc, dd: Desc)
    requires HasCodes(t, llens, dlens, s) && Descs(t, ld, dd) && s.lc < 256
    ensures |SymBits(t, llens, dlens, s)| ==
              llens[LSym(t, s)] + ld.Xbits(LSym(t, s)) +
              (if s.dist == 0 then 0 else var c := DCode(t.distCode, s.dist - 1); dlens[c] + dd.Xbits(c))
  {
  }

  /** opt_len: the tallied frequencies, weighted by code lengths and extra bits, are the bits sent. */
  lemma {:induction false} DynamicCost(t: CodeTables, llens: seq<nat>, dlens: seq<nat>, syms: seq<Sym>, ld: Desc, dd: Desc)
    requires AllOk(t, syms) && AllHaveCodes(t, llens, dlens, syms) && Descs(t, ld, dd)
    requires END_BLOCK < |llens| <= L_CODES && |dlens| <= D_CODES
    ensures |AllBits(t, llens, dlens, syms)| + llens[END_BLOCK] ==
            TotalBits(LFreq(t, syms), llens, ld) + TotalBits(DFreq(t, syms), dlens, dd)
    decreases |syms|
  {
    if syms == [] {
      NoBits(2 * L_CODES + 1, llens, ld);
      NoBits(2 * D_CODES + 1, dlens, dd);
      TotalBump(seq(2 * L_CODES + 1, _ => 0), llens, ld, END_BLOCK);
    } else {
      var before, s := syms[..|syms| - 1], syms[|syms| - 1];
      assert syms == before + [s];
      DynamicCost(t, llens, dlens, before, ld, dd);
      AllBitsSnoc(t, llens, dlens, before, s);
      SymCost(t, llens, dlens, s, ld, dd);
      TotalBump(LFreq(t, before), llens, ld, LSym(t, s));
      if s.dist != 0 {
        TotalBump(DFreq(t, before), dlens, dd, DCode(t.distCode, s.dist - 1));
      }
    }
  }

  /** The lengths of the static codes. */
  ghost predicate StaticLens(slens: seq<nat>, sdlens: seq<nat>, ld: Desc, dd: Desc)
  {
    && |slens| >= L_CODES && |sdlens| >= D_CODES
    && (forall x: nat :: x < L_CODES ==> slens[x] == ld.StaticLen(x))
    && (forall x: nat :: x < D_CODES ==> sdlens[x] == dd.StaticLen(x))
  }

  /** static_len: the same for the static code. */
  lemma {:induction false} StaticCost(t: CodeTables, slens: seq<nat>, sdlens: seq<nat>, syms: seq<Sym>, ld: Desc, dd: Desc)
    requires AllOk(t, syms) && AllHaveCodes(t, slens, sdlens, syms) && Descs(t, ld, dd) && StaticLens(slens, sdlens, ld, dd)
    ensures |AllBits(t, slens, sdlens, syms)| + slens[END_BLOCK] ==
            TotalStatic(LFreq(t, syms), ld) + TotalStatic(DFreq(t, syms), dd)
    decreases |syms|
  {
    if syms == [] {
      NoBits(2 * L_CODES + 1, slens, ld);
      NoBits(2 * D_CODES + 1, sdlens, dd);
      StaticBump(seq(2 * L_CODES + 1, _ => 0), ld, END_BLOCK);
    } else {
      var before, s := syms[..|syms| - 1], syms[|syms| - 1];
      assert syms == before + [s];
      StaticCost(t, slens, sdlens, before, ld, dd);
      AllBitsSnoc(t, slens, sdlens, before, s);
      SymCost(t, slens, sdlens, s, ld, dd);
      StaticBump(LFreq(t, before), ld, LSym(t, s));
      if s.dist != 0 {
        StaticBump(DFreq(t, before), dd, DCode(t.distCode, s.dist - 1));
      }
    }
  }
}
