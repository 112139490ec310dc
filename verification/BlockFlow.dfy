/**
 Blocks written by deflate and read by inflate: from the first bit of its header to the
 next, a block gives back the bytes its symbols stand for.
 */
module BlockFlow {
  import opened Bits
  import opened Huffman
  import opened InflateTable
  import opened Decoding
  import opened RunCoding
  import opened FixedCodes
  import opened StreamDecoding
  import opened Inflating
  import opened StreamStates
  import opened SymbolTables
  import opened CompressBlock
  import opened BlockCost
  import opened BlockRoundTrip
  import opened TreeSending
  import opened BlockHeader
  import opened FlushBlock
  import opened StaticTrees
  import opened BlockWriter

  // ----- the type of a block -----

  lemma {:induction false} TypeRead(kind: nat, last: bool, t: BitString)
    requires kind <= 3
    ensures var s := TypeBits(kind, last) + t; s[0] == last && Val(s[1..3]) == kind && s[3..] == t
  {
    var v := 2 * kind + (if last then 1 else 0);
    var s := TypeBits(kind, last) + t;
    assert v % 2 == 1 <==> last;
    assert TypeBits(kind, last) == [last] + LowBits(kind, 2);
    assert s[1..3] == LowBits(kind, 2);
    assert Pow2(2) == 4;
    ValLowBits(kind, 2);
  }

  lemma {:induction false} TypeFlow(kind: nat, last: bool, out: seq<nat>, t: BitString)
    requires kind <= 2
    ensures Flow(TypeDo(false), out, TypeBits(kind, last) + t) ==
            Flow(if kind == 0 then Stored(last) else if kind == 1 then Block(last, StaticL(), StaticD(), START) else Table(last), out, t)
  {
    TypeRead(kind, last, t);
  }

  // ----- the header of a block with dynamic trees -----

  lemma {:induction false} TableFlow(last: bool, lcodes: nat, dcodes: nat, blcodes: nat, out: seq<nat>, t: BitString)
    requires 257 <= lcodes <= 286 && 1 <= dcodes <= 30 && 4 <= blcodes <= BL_CODES
    ensures Flow(Table(last), out, CountBits(lcodes, dcodes, blcodes) + t) == Flow(LenLens(last, lcodes, dcodes, blcodes, []), out, t)
  {
    CountsRead(lcodes, dcodes, blcodes, t);
  }

  /** The lengths of the code-length code, one field of three bits after another. */
  lemma {:induction false} OrderFlow(q: Spot, vs: seq<nat>, width: nat, q': Spot, out: seq<nat>, t: BitString)
    requires q.LenLens? && width == 3 && |q.sent| + |vs| == q.ncode && AllAtMost(vs, 7) && q' == q.(sent := q.sent + vs)
    ensures Flow(q, out, Fields(vs, width) + t) == Flow(q', out, t)
    decreases |vs|
  {
    if vs == [] {
      assert [] + t == t;
      assert q.sent + vs == q.sent;
      assert q' == q;
    } else {
      var v, others := vs[0], vs[1..];
      var q1, first, more := q.(sent := q.sent + [v]), LowBits(v, width), Fields(others, width);
      assert q1.sent + others == q.sent + vs;
      OrderFlow(q1, others, width, q', out, t);
      Assoc(first, more, t);
      assert Fields(vs, width) + t == first + (more + t);
      OneField(q, v, width, out, more + t);
    }
  }

  lemma {:induction false} OneField(q: Spot, v: nat, width: nat, out: seq<nat>, t: BitString)
    requires q.LenLens? && width == 3 && |q.sent| < q.ncode && v <= 7
    ensures Flow(q, out, LowBits(v, width) + t) == Flow(q.(sent := q.sent + [v]), out, t)
  {
    var s := LowBits(v, width) + t;
    assert s[..3] == LowBits(v, width) && s[3..] == t;
    assert Pow2(width) == 8 by { assert Pow2(3) == 8; }
    ValLowBits(v, width);
  }

  /** All lengths sent, and zeros for the others, are the lengths of the code. */
  lemma {:induction false} OrderReads(bllens: seq<nat>, blcodes: nat)
    requires |bllens| == BL_CODES && blcodes <= BL_CODES
    requires forall i: nat :: blcodes <= i < BL_CODES ==> bllens[BlOrder(i)] == 0
    ensures ClLens(InOrder(bllens, blcodes)) == bllens
  {
    forall c | 0 <= c < BL_CODES ensures ClLens(InOrder(bllens, blcodes))[c] == bllens[c] {
      assert bllens[BlOrder(BlRank(c))] == bllens[c];
    }
  }

  lemma {:induction false} CompleteAccepted(kind: Kind, lens: seq<nat>)
    requires Complete(lens) && ValidLens(lens) && |lens| <= MaxSymbols(kind)
    ensures Accepted(kind, lens)
  {
  }

  lemma {:induction false} LenLensFlow(q: Spot, bllens: seq<nat>, blcodes: nat, out: seq<nat>, t: BitString)
    requires q.LenLens? && q.sent == [] && q.ncode == blcodes && |bllens| == BL_CODES && blcodes <= BL_CODES
    requires Complete(bllens) && forall c :: 0 <= c < BL_CODES ==> bllens[c] <= 7
    requires forall i: nat :: blcodes <= i < BL_CODES ==> bllens[BlOrder(i)] == 0
    ensures Flow(q, out, OrderBits(bllens, blcodes) + t) == Flow(CodeLens(q.last, q.nlen, q.ndist, bllens, []), out, t)
  {
    var vs := InOrder(bllens, blcodes);
    OrderFlow(q, vs, 3, q.(sent := q.sent + vs), out, t);
    OrderReads(bllens, blcodes);
    CompleteAccepted(CODES, bllens);
    assert q.sent + vs == vs;
    var q' := q.(sent := vs);
    assert Next(q', out, t) == Result(out, CodeLens(q.last, q.nlen, q.ndist, bllens, []), t);
  }

  // ----- the lengths of the two trees -----

  lemma {:induction false} SameExtra(sym: nat)
    requires sym < BL_CODES
    ensures BlExtra(sym) == ExtraOf(sym)
  {
  }

  lemma {:induction false} ReadGrows(have: seq<nat>, items: seq<Item>, total: nat)
    requires ReadItems(have, items, total).Lens?
    ensures |ReadItems(have, items, total).lens| >= |have| + |items|
    decreases |items|
  {
    if items != [] {
      ReadGrows(ReadItem(have, items[0], total).lens, items[1..], total);
    }
  }

  /** What the bits of an item begin with. */
  lemma {:induction false} ItemParts(bllens: seq<nat>, it: Item, t: BitString, x: nat)
    requires Used(bllens, it.sym) && ItemOk(it) && x == BlExtra(it.sym)
    ensures var s := ItemBits(bllens, it) + t; var b := bllens[it.sym];
            && Codeword(bllens, it.sym) <= s && |s| >= b + x && Val(s[b..b + x]) == it.value && s[b + x..] == t
  {
    var extra := ExtraBits(it.value, x);
    var s := ItemBits(bllens, it) + t;
    ExtraValue(it.value, x, t);
    Assoc(Codeword(bllens, it.sym), extra, t);
    assert s == Codeword(bllens, it.sym) + (extra + t);
    assert s[bllens[it.sym]..bllens[it.sym] + x] == (extra + t)[..x];
    assert s[bllens[it.sym] + x..] == (extra + t)[x..];
  }

  lemma {:induction false} OneItemRead(q: Spot, it: Item, out: seq<nat>, t: BitString)
    requires q.CodeLens? && Accepted(CODES, q.cl) && Used(q.cl, it.sym) && ItemOk(it) && ReadItem(q.got, it, q.nlen + q.ndist).Lens?
    ensures var s := ItemBits(q.cl, it) + t;
            ItemSize(q.cl, s) <= |s| && StreamDecoding.OneItem(q, out, s) == Result(out, q.(got := ReadItem(q.got, it, q.nlen + q.ndist).lens), t)
  {
    var s := ItemBits(q.cl, it) + t;
    ItemParts(q.cl, it, t, BlExtra(it.sym));
    SameExtra(it.sym);
    ReadSymbol(CODES, q.cl, it.sym, s);
    ItemReadAs(q, it, Code(0, q.cl[it.sym], it.sym), ExtraOf(it.sym), out, s);
  }

  lemma {:induction false} ItemReadAs(q: Spot, it: Item, e: Code, x: nat, out: seq<nat>, s: BitString)
    requires q.CodeLens? && Accepted(CODES, q.cl) && Used(q.cl, it.sym) && ItemOk(it) && ReadItem(q.got, it, q.nlen + q.ndist).Lens?
    requires e == Code(0, q.cl[it.sym], it.sym) && CanonCode(CODES, q.cl, s) == e
    requires x == ExtraOf(it.sym) && |s| >= e.bits + x && Val(s[e.bits..e.bits + x]) == it.value
    ensures ItemSize(q.cl, s) <= |s|
    ensures StreamDecoding.OneItem(q, out, s) == Result(out, q.(got := ReadItem(q.got, it, q.nlen + q.ndist).lens), s[e.bits + x..])
  {
    ItemFrom(q, e, out, s);
    ItemIs(e, s, it, e.bits, x);
    ItemGood(q, it, x);
  }

  lemma {:induction false} ItemGood(q: Spot, it: Item, x: nat)
    requires q.CodeLens? && ItemOk(it) && ReadItem(q.got, it, q.nlen + q.ndist).Lens? && x == ExtraOf(it.sym)
    ensures AfterItem(q, it) == q.(got := ReadItem(q.got, it, q.nlen + q.ndist).lens) && ItemBitsUsed(q.got, it.sym) == x
  {
  }

  lemma {:induction false} ItemIs(e: Code, s: BitString, it: Item, b: nat, x: nat)
    requires e.bits == b && e.val == it.sym && x == ExtraOf(it.sym) && b + x <= |s| && Val(s[b..b + x]) == it.value
    ensures ItemAt(e, s) == it
  {
  }

  lemma {:induction false} OneItemFlow(q: Spot, it: Item, out: seq<nat>, t: BitString)
    requires q.CodeLens? && Accepted(CODES, q.cl) && Used(q.cl, it.sym) && ItemOk(it) && ReadItem(q.got, it, q.nlen + q.ndist).Lens?
    requires |q.got| < q.nlen + q.ndist
    ensures Flow(q, out, ItemBits(q.cl, it) + t) == Flow(q.(got := ReadItem(q.got, it, q.nlen + q.ndist).lens), out, t)
  {
    OneItemRead(q, it, out, t);
  }

  /** The items are read to the end, and then all lengths are there. */
  ghost predicate ReadsTo(q: Spot, items: seq<Item>, all: seq<nat>)
    requires q.CodeLens?
  {
    var ok := Accepted(CODES, q.cl) && AllUsed(q.cl, items) && ItemsOk(items);
    var ends := ReadItems(q.got, items, q.nlen + q.ndist) == Lens(all) && |all| == q.nlen + q.ndist;
    ok && ends
  }

  lemma {:induction false} ReadsFirst(q: Spot, items: seq<Item>, all: seq<nat>) returns (q': Spot)
    requires q.CodeLens? && ReadsTo(q, items, all) && items != []
    ensures Used(q.cl, items[0].sym) && ItemOk(items[0]) && Accepted(CODES, q.cl) && |q.got| < q.nlen + q.ndist
    ensures ReadItem(q.got, items[0], q.nlen + q.ndist).Lens? && q' == q.(got := ReadItem(q.got, items[0], q.nlen + q.ndist).lens)
    ensures ReadsTo(q', items[1..], all)
  {
    ReadGrows(q.got, items, q.nlen + q.ndist);
    q' := q.(got := ReadItem(q.got, items[0], q.nlen + q.ndist).lens);
  }

  lemma {:induction false} ItemsFlow(q: Spot, items: seq<Item>, all: seq<nat>, out: seq<nat>, t: BitString)
    requires q.CodeLens? && ReadsTo(q, items, all)
    ensures Flow(q, out, ItemsBits(q.cl, items) + t) == Flow(q.(got := all), out, t)
    decreases |items|
  {
    if items == [] {
      assert [] + t == t && q.(got := all) == q;
    } else {
      var q' := ReadsFirst(q, items, all);
      var more := ItemsBits(q.cl, items[1..]) + t;
      Assoc(ItemBits(q.cl, items[0]), ItemsBits(q.cl, items[1..]), t);
      OneItemFlow(q, items[0], out, more);
      ItemsFlow(q', items[1..], all, out, t);
      assert q.(got := all) == q'.(got := all);
    }
  }

  lemma {:induction false} BothItemsOk(llens: seq<nat>, dlens: seq<nat>)
    requires RunCoding.CodeLens(llens) && RunCoding.CodeLens(dlens)
    ensures ItemsOk(BothItems(llens, dlens))
  {
    AllItemsOk(llens, 0, -1, 0);
    AllItemsOk(dlens, 0, -1, 0);
  }

  /** CODELENS restores both arrays of lengths, and the block begins. */
  lemma {:induction false} CodeLensFlow(q: Spot, llens: seq<nat>, dlens: seq<nat>, out: seq<nat>, t: BitString)
    requires q.CodeLens? && q.got == [] && q.nlen == |llens| && q.ndist == |dlens| && Accepted(CODES, q.cl)
    requires RunCoding.CodeLens(llens) && RunCoding.CodeLens(dlens) && AllUsed(q.cl, BothItems(llens, dlens))
    requires Accepted(LENS, llens) && Accepted(DISTS, dlens) && Used(llens, END_BLOCK)
    ensures Flow(q, out, ItemsBits(q.cl, BothItems(llens, dlens)) + t) == Flow(Block(q.last, llens, dlens, START), out, t)
  {
    BothItemsOk(llens, dlens);
    TreesRoundTrip(llens, dlens);
    ItemsFlow(q, BothItems(llens, dlens), llens + dlens, out, t);
    var got := llens + dlens;
    assert got[..|llens|] == llens && got[|llens|..] == dlens && got[256] == llens[END_BLOCK];
  }

  // ----- whole blocks -----

  /** The codes of a block up to its end. */
  lemma {:induction false} BodyFlow(last: bool, t: CodeTables, syms: seq<Sym>, llens: seq<nat>, dlens: seq<nat>, out: seq<nat>, rest: BitString)
    requires Accepted(LENS, llens) && Accepted(DISTS, dlens) && LengthTables(t) && DistTables(t) && InReach(|out|, syms)
    requires AllHaveCodes(t, llens, dlens, syms) && Used(llens, END_BLOCK)
    ensures Flow(Block(last, llens, dlens, START), out, AllBits(t, llens, dlens, syms) + (Codeword(llens, END_BLOCK) + rest)) ==
            Flow(TypeDo(last), Expand(out, syms), rest)
  {
    RoundTrip(START, out, t, llens, dlens, syms, rest);
  }

  /** A block is read from its first bit to its last: what follows is read after the bytes
      that its symbols stand for. */
  ghost predicate ReadsBack(bits: BitString, last: bool, out: seq<nat>, out': seq<nat>, rest: BitString)
  {
    var whole := Flow(TypeDo(false), out, bits + rest);
    whole == Flow(TypeDo(last), out', rest)
  }

  lemma {:induction false} StaticReadBack(t: CodeTables, syms: seq<Sym>, last: bool, out: seq<nat>, rest: BitString)
    requires AllOk(t, syms) && LengthTables(t) && DistTables(t) && InReach(|out|, syms)
    ensures ReadsBack(TypeBits(1, last) + StaticBlock(t, syms), last, out, Expand(out, syms), rest)
  {
    StaticUsed(t, syms);
    FixedAccepted();
    var all, end := AllBits(t, StaticL(), StaticD(), syms), Codeword(StaticL(), END_BLOCK);
    BodyFlow(last, t, syms, StaticL(), StaticD(), out, rest);
    TypeFlow(1, last, out, all + (end + rest));
    Regrouped4(TypeBits(1, last), all, end, rest);
  }

  lemma {:induction false} Regrouped4(a: BitString, b: BitString, c: BitString, d: BitString)
    ensures (a + (b + c)) + d == a + (b + (c + d))
  {
  }

  /** The header: from TABLE to the first code of the block. */
  lemma {:induction false} HeaderFlow(last: bool, llens: seq<nat>, dlens: seq<nat>, bllens: seq<nat>, blcodes: nat, out: seq<nat>, t: BitString)
    requires 257 <= |llens| <= 286 && 1 <= |dlens| <= 30 && |bllens| == BL_CODES && 4 <= blcodes <= BL_CODES
    requires RunCoding.CodeLens(llens) && RunCoding.CodeLens(dlens) && AllUsed(bllens, BothItems(llens, dlens))
    requires Complete(bllens) && (forall c :: 0 <= c < BL_CODES ==> bllens[c] <= 7) && Used(llens, END_BLOCK)
    requires forall i: nat :: blcodes <= i < BL_CODES ==> bllens[BlOrder(i)] == 0
    requires Accepted(LENS, llens) && Accepted(DISTS, dlens)
    ensures Flow(Table(last), out, HeaderBits(llens, dlens, bllens, blcodes) + t) == Flow(Block(last, llens, dlens, START), out, t)
  {
    var counts, order, items := CountBits(|llens|, |dlens|, blcodes), OrderBits(bllens, blcodes), ItemsBits(bllens, BothItems(llens, dlens));
    Parts(counts, order, items, t);
    TableFlow(last, |llens|, |dlens|, blcodes, out, order + (items + t));
    CompleteAccepted(CODES, bllens);
    LenLensFlow(LenLens(last, |llens|, |dlens|, blcodes, []), bllens, blcodes, out, items + t);
    CodeLensFlow(CodeLens(last, |llens|, |dlens|, bllens, []), llens, dlens, out, t);
  }

  lemma {:induction false} Parts(a: BitString, b: BitString, c: BitString, d: BitString)
    ensures ((a + b) + c) + d == a + (b + (c + d))
  {
  }

  /** inflate_table accepts all codes of such a block. */
  lemma {:induction false} BlockAccepted(t: CodeTables, syms: seq<Sym>, ltree: Tree, dtree: Tree, bltree: Tree, blcodes: nat)
    requires BlockTrees(t, syms, ltree, dtree, bltree, blcodes)
    requires Complete(ltree.lens) && Complete(dtree.lens) && Complete(bltree.lens)
    ensures Accepted(CODES, bltree.lens) && Accepted(LENS, ltree.lens) && Accepted(DISTS, dtree.lens)
  {
    CompleteAccepted(CODES, bltree.lens);
    CompleteAccepted(LENS, ltree.lens);
    CompleteAccepted(DISTS, dtree.lens);
  }

  lemma {:induction false} DynamicReadBack(t: CodeTables, syms: seq<Sym>, ltree: Tree, dtree: Tree, bltree: Tree, blcodes: nat,
                                           last: bool, out: seq<nat>, rest: BitString)
    requires BlockTrees(t, syms, ltree, dtree, bltree, blcodes) && LengthTables(t) && DistTables(t) && InReach(|out|, syms)
    requires Complete(ltree.lens) && Complete(dtree.lens) && Complete(bltree.lens)
    ensures ReadsBack(TypeBits(2, last) + DynamicBits(t, syms, ltree, dtree, bltree, blcodes), last, out, Expand(out, syms), rest)
  {
    BlockAccepted(t, syms, ltree, dtree, bltree, blcodes);
    var head := HeaderBits(ltree.lens, dtree.lens, bltree.lens, blcodes);
    var all, end := AllBits(t, ltree.lens, dtree.lens, syms), Codeword(ltree.lens, END_BLOCK);
    BodyFlow(last, t, syms, ltree.lens, dtree.lens, out, rest);
    HeaderFlow(last, ltree.lens, dtree.lens, bltree.lens, blcodes, out, all + (end + rest));
    TypeFlow(2, last, out, head + (all + (end + rest)));
    Regrouped5(TypeBits(2, last), head, all, end, rest);
  }

  lemma {:induction false} Regrouped5(a: BitString, h: BitString, b: BitString, c: BitString, d: BitString)
    ensures (a + (h + (b + c))) + d == a + (h + (b + (c + d)))
  {
  }

  // ----- stored blocks -----

  /** Zeros to the byte boundary are dropped. */
  lemma {:induction false} PadDropped(pad: nat, t: BitString)
    requires pad < 8 && Whole(|t|)
    ensures Aligned(Zeros(pad) + t) == t
  {
    OverMore(pad, |t|);
  }

  lemma {:induction false} LengthRead(n: nat, t: BitString, x: nat)
    requires n <= 0xffff && x == 16
    ensures var s := LowBits(n, x) + (LowBits(0xffff - n, x) + t);
            |s| >= x + x && Val(s[..x]) == n && Val(s[x..x + x]) == 0xffff - n && s[x + x..] == t
  {
    assert Pow2(x) == 0x10000 by { Pow2Values(); }
    ValLowBits(n, x);
    ValLowBits(0xffff - n, x);
    LengthParts(LowBits(n, x), LowBits(0xffff - n, x), t, x);
  }

  lemma {:induction false} LengthParts(a: BitString, b: BitString, t: BitString, x: nat)
    requires |a| == x && |b| == x
    ensures var s := a + (b + t); s[..x] == a && s[x..x + x] == b && s[x + x..] == t
  {
  }

  lemma {:induction false} LengthFlow(last: bool, pad: nat, n: nat, out: seq<nat>, t: BitString, s: BitString, x: nat)
    requires pad < 8 && Whole(|t|) && n <= 0xffff && x == 16
    requires s == Zeros(pad) + (LowBits(n, x) + (LowBits(0xffff - n, x) + t))
    ensures Flow(Stored(last), out, s) == Flow(Copying(last, n), out, t)
  {
    var more := LowBits(n, x) + (LowBits(0xffff - n, x) + t);
    WholeBits(4);
    OverMore(32, |t|);
    PadDropped(pad, more);
    LengthRead(n, t, x);
  }

  lemma {:induction false} CopyAll(last: bool, bytes: seq<nat>, out: seq<nat>, out': seq<nat>, rest: BitString, t: BitString)
    requires AreBytes(bytes) && t == ByteBits(bytes) + rest && out' == out + bytes
    ensures Flow(Copying(last, |bytes|), out, t) == Flow(TypeDo(last), out', rest)
  {
    FlowCopies(last, |bytes|, out, bytes, rest);
    assert Flow(Copying(last, 0), out', rest) == Flow(TypeDo(last), out', rest);
  }

  lemma {:induction false} StoredReadBack(last: bool, pad: nat, bytes: seq<nat>, out: seq<nat>, rest: BitString)
    requires pad < 8 && Whole(|rest|) && |bytes| <= 0xffff && AreBytes(bytes)
    ensures ReadsBack(StoredBits(last, pad, bytes), last, out, out + bytes, rest)
  {
    var a, b, t := LowBits(|bytes|, 16), LowBits(0xffff - |bytes|, 16), ByteBits(bytes) + rest;
    var s := Zeros(pad) + (a + (b + t));
    Regrouped6(TypeBits(0, last), Zeros(pad), a, b, ByteBits(bytes), rest);
    assert StoredBits(last, pad, bytes) + rest == TypeBits(0, last) + s;
    TypeFlow(0, last, out, s);
    WholeRest(bytes, rest);
    LengthFlow(last, pad, |bytes|, out, t, s, 16);
    CopyAll(last, bytes, out, out + bytes, rest, t);
  }

  lemma {:induction false} WholeRest(bytes: seq<nat>, rest: BitString)
    requires Whole(|rest|)
    ensures Whole(|ByteBits(bytes) + rest|)
  {
    WholeBits(|bytes|);
    OverMore(8 * |bytes|, |rest|);
  }

  lemma {:induction false} Regrouped6(a: BitString, b: BitString, c: BitString, d: BitString, e: BitString, f: BitString)
    ensures (a + (b + (c + (d + e)))) + f == a + (b + (c + (d + (e + f))))
  {
  }
}
