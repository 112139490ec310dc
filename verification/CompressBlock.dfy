/**
 `compress_block` and `_tr_tally` of trees.c: buffered literals and matches as code bits,
 read back by inflate's states, and counted by the frequencies.
 */
module CompressBlock {
  import opened Bits
  import opened Huffman
  import opened InflateTable
  import opened Decoding
  import opened Inflating
  import opened InflateCopy
  import opened SymbolTables
  import opened BitWriter
  import MakeCodes

  /** One entry of the symbol buffer: a literal lc if dist is 0, else a match of length lc + 3. */
  datatype Sym = Sym(dist: nat, lc: nat)

  /** A code tree: for each symbol the code, first bit least significant, and its length. */
  datatype Tree = Tree(codes: seq<nat>, lens: seq<nat>)

  ghost predicate TreeOk(tree: Tree)
  {
    ValidLens(tree.lens) && MakeCodes.CodesFor(tree.codes, tree.lens, |tree.lens|)
  }

  // ----- the bits of a symbol -----

  /** A code and a value in its extra bits. */
  ghost function CodeAndExtra(lens: seq<nat>, c: nat, x: nat, value: nat): BitString
    requires c < |lens|
  {
    Codeword(lens, c) + (if x == 0 then [] else LowBits(value, x))
  }

  ghost predicate HasLength(t: CodeTables, llens: seq<nat>, lc: nat)
  {
    LengthReady(t, lc) && Used(llens, 257 + t.lengthCode[lc])
  }

  ghost predicate HasDist(t: CodeTables, dlens: seq<nat>, d: nat)
  {
    DistReady(t, d) && Used(dlens, DCode(t.distCode, d))
  }

  ghost function LengthBits(t: CodeTables, llens: seq<nat>, lc: nat): BitString
    requires HasLength(t, llens, lc)
  {
    var c := t.lengthCode[lc];
    CodeAndExtra(llens, 257 + c, t.extraL[c], if t.extraL[c] == 0 then 0 else lc - t.baseLength[c])
  }

  ghost function DistBits(t: CodeTables, dlens: seq<nat>, d: nat): BitString
    requires HasDist(t, dlens, d)
  {
    var c := DCode(t.distCode, d);
    CodeAndExtra(dlens, c, t.extraD[c], if t.extraD[c] == 0 then 0 else d - t.baseDist[c])
  }

  /** Every code the symbol needs is in the trees. */
  ghost predicate HasCodes(t: CodeTables, llens: seq<nat>, dlens: seq<nat>, s: Sym)
  {
    if s.dist == 0 then s.lc < 256 && Used(llens, s.lc)
    else HasLength(t, llens, s.lc) && HasDist(t, dlens, s.dist - 1)
  }

  ghost function SymBits(t: CodeTables, llens: seq<nat>, dlens: seq<nat>, s: Sym): BitString
    requires HasCodes(t, llens, dlens, s)
  {
    if s.dist == 0 then Codeword(llens, s.lc) else LengthBits(t, llens, s.lc) + DistBits(t, dlens, s.dist - 1)
  }

  ghost predicate AllHaveCodes(t: CodeTables, llens: seq<nat>, dlens: seq<nat>, syms: seq<Sym>)
  {
    forall i :: 0 <= i < |syms| ==> HasCodes(t, llens, dlens, syms[i])
  }

  ghost function AllBits(t: CodeTables, llens: seq<nat>, dlens: seq<nat>, syms: seq<Sym>): BitString
    requires AllHaveCodes(t, llens, dlens, syms)
  {
    if syms == [] then [] else SymBits(t, llens, dlens, syms[0]) + AllBits(t, llens, dlens, syms[1..])
  }

  // ----- sending -----

  lemma {:induction false} CodeBits(tree: Tree, c: nat)
    requires TreeOk(tree) && Used(tree.lens, c)
    ensures c < |tree.codes| && tree.lens[c] <= 15 && tree.codes[c] < Pow2(tree.lens[c])
    ensures LowBits(tree.codes[c], tree.lens[c]) == Codeword(tree.lens, c)
  {
    var s := Codeword(tree.lens, c);
    ValBound(s);
    ValLowBits(tree.codes[c], tree.lens[c]);
    ValInjective(LowBits(tree.codes[c], tree.lens[c]), s);
  }

  /** send_code */
  method SendCode(w: Writer, tree: Tree, c: nat)
    requires w.Valid() && TreeOk(tree) && Used(tree.lens, c)
    modifies w
    ensures w.Valid() && w.Sent() == old(w.Sent()) + Codeword(tree.lens, c)
  {
    CodeBits(tree, c);
    w.SendBits(tree.codes[c], tree.lens[c]);
  }

  /** A code, and its extra bits if it has any. */
  method SendCodeAndExtra(w: Writer, tree: Tree, c: nat, extra: nat, value: nat)
    requires w.Valid() && TreeOk(tree) && Used(tree.lens, c) && extra <= 13 && (extra != 0 ==> value < Pow2(extra))
    modifies w
    ensures w.Valid() && w.Sent() == old(w.Sent()) + CodeAndExtra(tree.lens, c, extra, value)
  {
    ghost var s0 := w.Sent();
    SendCode(w, tree, c);
    if extra != 0 {
      w.SendBits(value, extra);
      Assoc(s0, Codeword(tree.lens, c), LowBits(value, extra));
    } else {
      assert Codeword(tree.lens, c) + [] == Codeword(tree.lens, c);
    }
  }

  method SendLength(w: Writer, ltree: Tree, t: CodeTables, lc: nat)
    requires w.Valid() && TreeOk(ltree) && HasLength(t, ltree.lens, lc)
    modifies w
    ensures w.Valid() && w.Sent() == old(w.Sent()) + LengthBits(t, ltree.lens, lc)
  {
    var code := t.lengthCode[lc];
    var extra := t.extraL[code];
    var value := 0;
    if extra != 0 { value := lc - t.baseLength[code]; }
    SendCodeAndExtra(w, ltree, 257 + code, extra, value);
  }

  method SendDist(w: Writer, dtree: Tree, t: CodeTables, dist: nat)
    requires w.Valid() && TreeOk(dtree) && HasDist(t, dtree.lens, dist)
    modifies w
    ensures w.Valid() && w.Sent() == old(w.Sent()) + DistBits(t, dtree.lens, dist)
  {
    var code := DCode(t.distCode, dist);
    var extra := t.extraD[code];
    var value := 0;
    if extra != 0 { value := dist - t.baseDist[code]; }
    SendCodeAndExtra(w, dtree, code, extra, value);
  }

  method SendSym(w: Writer, ltree: Tree, dtree: Tree, t: CodeTables, s: Sym)
    requires w.Valid() && TreeOk(ltree) && TreeOk(dtree) && HasCodes(t, ltree.lens, dtree.lens, s)
    modifies w
    ensures w.Valid() && w.Sent() == old(w.Sent()) + SymBits(t, ltree.lens, dtree.lens, s)
  {
    ghost var s0 := w.Sent();
    if s.dist == 0 {
      SendCode(w, ltree, s.lc);
    } else {
      SendLength(w, ltree, t, s.lc);
      SendDist(w, dtree, t, s.dist - 1);
      Assoc(s0, LengthBits(t, ltree.lens, s.lc), DistBits(t, dtree.lens, s.dist - 1));
    }
  }

  lemma {:induction false} AllBitsNext(t: CodeTables, llens: seq<nat>, dlens: seq<nat>, syms: seq<Sym>, i: nat)
    requires AllHaveCodes(t, llens, dlens, syms) && i < |syms|
    ensures AllBits(t, llens, dlens, syms[i..]) == SymBits(t, llens, dlens, syms[i]) + AllBits(t, llens, dlens, syms[i + 1..])
  {
    assert syms[i..][1..] == syms[i + 1..];
  }

  /** The buffered symbols and the end-of-block code. */
  method Compress(w: Writer, syms: seq<Sym>, ltree: Tree, dtree: Tree, t: CodeTables)
    requires w.Valid() && TreeOk(ltree) && TreeOk(dtree) && AllHaveCodes(t, ltree.lens, dtree.lens, syms)
    requires Used(ltree.lens, END_BLOCK)
    modifies w
    ensures w.Valid()
    ensures w.Sent() == old(w.Sent()) + AllBits(t, ltree.lens, dtree.lens, syms) + Codeword(ltree.lens, END_BLOCK)
  {
    var sx: nat := 0;
    ghost var start, all := w.Sent(), AllBits(t, ltree.lens, dtree.lens, syms);
    assert syms[0..] == syms;
    while sx < |syms|
      invariant sx <= |syms| && w.Valid()
      invariant w.Sent() + AllBits(t, ltree.lens, dtree.lens, syms[sx..]) == start + all
    {
      AllBitsNext(t, ltree.lens, dtree.lens, syms, sx);
      Assoc(w.Sent(), SymBits(t, ltree.lens, dtree.lens, syms[sx]), AllBits(t, ltree.lens, dtree.lens, syms[sx + 1..]));
      SendSym(w, ltree, dtree, t, syms[sx]);
      sx := sx + 1;
    }
    assert w.Sent() + [] == w.Sent();
    SendCode(w, ltree, END_BLOCK);
  }
}
