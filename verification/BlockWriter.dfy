/**
 `_tr_flush_block` and `_tr_stored_block` of trees.c: the choice between stored, static and
 dynamic blocks, and the block written.
 */
module BlockWriter {
  import opened Bits
  import opened Inflating
  import opened Sums
  import opened BuildTree
  import opened MakeCodes
  import opened Huffman
  import opened BitWriter
  import opened SymbolTables
  import opened CompressBlock
  import opened BlockCost
  import opened FixedCodes
  import opened StaticTrees
  import opened FlushBlock

  datatype BlockKind = StoredBlock | StaticTreesBlock | DynTreesBlock

  /** Whole bytes for so many bits after the three of the block header. */
  function BytesFor(bits: int): int { (bits + 3 + 7) / 8 }

  /** The choice: stored if the buffer is at hand and that is no longer, else static unless
      dynamic is shorter. */
  function Choose(opt_len: int, static_len: int, stored: bool, stored_len: int, fixed: bool): BlockKind
  {
    var static_lenb := BytesFor(static_len);
    var opt_lenb := if static_lenb <= BytesFor(opt_len) || fixed then static_lenb else BytesFor(opt_len);
    if stored && stored_len + 4 <= opt_lenb then StoredBlock
    else if static_lenb == opt_lenb then StaticTreesBlock
    else DynTreesBlock
  }

  /** The chosen kind is a shortest one. */
  lemma {:induction false} ChooseShortest(opt_len: int, static_len: int, stored: bool, stored_len: int)
    ensures match Choose(opt_len, static_len, stored, stored_len, false)
            case StoredBlock => stored && stored_len + 4 <= BytesFor(opt_len) && stored_len + 4 <= BytesFor(static_len)
            case StaticTreesBlock => BytesFor(static_len) <= BytesFor(opt_len) && (stored ==> BytesFor(static_len) < stored_len + 4)
            case DynTreesBlock => BytesFor(opt_len) < BytesFor(static_len) && (stored ==> BytesFor(opt_len) < stored_len + 4)
  {
  }

  /** The three bits before a block; kind is 0 for stored, 1 for static, 2 for dynamic trees. */
  function TypeBits(kind: nat, last: bool): (s: BitString)
    ensures |s| == 3
  {
    LowBits(2 * kind + (if last then 1 else 0), 3)
  }

  method SendType(w: Writer, kind: nat, last: bool)
    requires w.Valid() && kind <= 2
    modifies w
    ensures w.Valid() && w.Sent() == old(w.Sent()) + TypeBits(kind, last)
  {
    assert Pow2(3) == 8;
    w.SendBits(2 * kind + (if last then 1 else 0), 3);
  }

  // ----- stored blocks -----

  /** A stored block, with as many zero bits as take its header to a byte boundary. */
  ghost function StoredBits(last: bool, pad: nat, bytes: seq<nat>): BitString
    requires |bytes| <= 0xffff
  {
    TypeBits(0, last) + (Zeros(pad) + (LowBits(|bytes|, 16) + (LowBits(0xffff - |bytes|, 16) + ByteBits(bytes))))
  }

  lemma {:induction false} Chain5(s: BitString, a: BitString, b: BitString, c: BitString, d: BitString, e: BitString)
    ensures ((((s + a) + b) + c) + d) + e == s + (a + (b + (c + (d + e))))
  {
  }

  /** _tr_stored_block. */
  method SendStored(w: Writer, bytes: seq<nat>, last: bool) returns (ghost pad: nat)
    requires w.Valid() && AreBytes(bytes) && |bytes| <= 0xffff
    modifies w
    ensures w.Valid() && w.bi_valid == 0 && pad < 8 && w.Sent() == old(w.Sent()) + StoredBits(last, pad, bytes)
  {
    ghost var s := w.Sent();
    SendType(w, 0, last);
    pad := w.WindupIn(8);
    w.PutShort(|bytes|);
    w.PutShort(0xffff - |bytes|);
    w.PutBytes(bytes);
    Chain5(s, TypeBits(0, last), Zeros(pad), LowBits(|bytes|, 16), LowBits(0xffff - |bytes|, 16), ByteBits(bytes));
  }

  // ----- _tr_flush_block -----

  method SendStatic(w: Writer, t: CodeTables, syms: seq<Sym>, sltree: Tree, sdtree: Tree, last: bool)
    requires w.Valid() && AllOk(t, syms) && TreeOk(sltree) && sltree.lens == StaticL() && TreeOk(sdtree) && sdtree.lens == StaticD()
    modifies w
    ensures w.Valid() && w.Sent() == old(w.Sent()) + (TypeBits(1, last) + StaticBlock(t, syms))
  {
    StaticUsed(t, syms);
    ghost var s := w.Sent();
    SendType(w, 1, last);
    Compress(w, syms, sltree, sdtree, t);
    Chain(s, TypeBits(1, last), AllBits(t, StaticL(), StaticD(), syms), Codeword(StaticL(), END_BLOCK));
  }

  method SendDynamicBlock(w: Writer, t: CodeTables, syms: seq<Sym>, ltree: Tree, dtree: Tree, bltree: Tree, blcodes: nat, last: bool)
    requires w.Valid() && BlockTrees(t, syms, ltree, dtree, bltree, blcodes)
    modifies w
    ensures w.Valid() && w.Sent() == old(w.Sent()) + (TypeBits(2, last) + DynamicBits(t, syms, ltree, dtree, bltree, blcodes))
  {
    ghost var s := w.Sent();
    SendType(w, 2, last);
    SendDynamic(w, t, syms, ltree, dtree, bltree, blcodes);
    Assoc(s, TypeBits(2, last), DynamicBits(t, syms, ltree, dtree, bltree, blcodes));
  }

  /** The trees built for a block, the numbers of bits they take, and the kind chosen. */
  datatype Plan = Plan(kind: BlockKind, ltree: Tree, dtree: Tree, bltree: Tree, blcodes: nat, opt_len: int, static_len: int)

  /** The trees are complete codes for the symbols.  opt_len and static_len are exactly the
      numbers of bits after the three of its header that dynamic and static trees take. */
  ghost predicate PlanOk(p: Plan, t: CodeTables, syms: seq<Sym>)
  {
    var trees := BlockTrees(t, syms, p.ltree, p.dtree, p.bltree, p.blcodes)
                 && Complete(p.ltree.lens) && Complete(p.dtree.lens) && Complete(p.bltree.lens);
    var sizes := trees && AllOk(t, syms)
                 && p.opt_len == |DynamicBits(t, syms, p.ltree, p.dtree, p.bltree, p.blcodes)| && p.static_len == |StaticBlock(t, syms)|;
    trees && sizes
  }

  /** The bits of the block as its kind says; pad is for a stored one. */
  ghost function PlanBits(p: Plan, t: CodeTables, syms: seq<Sym>, last: bool, bytes: seq<nat>, pad: nat): BitString
    requires PlanOk(p, t, syms) && (p.kind == StoredBlock ==> |bytes| <= 0xffff)
  {
    match p.kind
    case StoredBlock => StoredBits(last, pad, bytes)
    case StaticTreesBlock => TypeBits(1, last) + StaticBlock(t, syms)
    case DynTreesBlock => TypeBits(2, last) + DynamicBits(t, syms, p.ltree, p.dtree, p.bltree, p.blcodes)
  }

  /** Code lengths left in the trees by the block before: they do not matter. */
  datatype Leftover = Leftover(ldl: seq<nat>, ddl: seq<nat>, bdl: seq<nat>)

  method MakePlan(heap: array<nat>, t: CodeTables, buf: SymBuf, old0: Leftover, stored: bool, stored_len: nat, fixed: bool) returns (p: Plan)
    requires heap.Length == HEAP_SIZE && LengthTables(t) && DistTables(t) && Counted(t, buf)
    requires |old0.ldl| == 2 * L_CODES + 1 && |old0.ddl| == 2 * D_CODES + 1 && |old0.bdl| == 2 * 19 + 1
    modifies heap
    ensures PlanOk(p, t, buf.syms) && p.kind == Choose(p.opt_len, p.static_len, stored, stored_len, fixed)
  {
    DescsValid();
    TheDescs(t);
    StaticBlockCost(t, buf.syms);
    var ltree, dtree, bltree, blcodes, opt_len, static_len :=
      FlushBlock.BuildTrees(heap, buf.lfreq, buf.dfreq, old0.ldl, old0.ddl, old0.bdl, L_DESC(), D_DESC(), t, buf.syms);
    p := Plan(Choose(opt_len, static_len, stored, stored_len, fixed), ltree, dtree, bltree, blcodes, opt_len, static_len);
  }

  /** The constant side of deflate_state that writing uses. */
  datatype Coding = Coding(t: CodeTables, sltree: Tree, sdtree: Tree)

  ghost predicate CodingOk(k: Coding)
  {
    var tables := LengthTables(k.t) && DistTables(k.t);
    var trees := TreeOk(k.sltree) && k.sltree.lens == StaticL() && TreeOk(k.sdtree) && k.sdtree.lens == StaticD();
    tables && trees
  }

  method SendPlan(w: Writer, p: Plan, k: Coding, syms: seq<Sym>, last: bool, bytes: seq<nat>) returns (ghost pad: nat)
    requires w.Valid() && CodingOk(k) && PlanOk(p, k.t, syms) && (p.kind == StoredBlock ==> AreBytes(bytes) && |bytes| <= 0xffff)
    modifies w
    ensures w.Valid() && pad < 8 && w.Sent() == old(w.Sent()) + PlanBits(p, k.t, syms, last, bytes, pad)
    ensures p.kind == StoredBlock ==> w.bi_valid == 0
  {
    pad := 0;
    match p.kind {
      case StoredBlock =>
        pad := SendStored(w, bytes, last);
      case StaticTreesBlock =>
        SendStatic(w, k.t, syms, k.sltree, k.sdtree, last);
      case DynTreesBlock =>
        SendDynamicBlock(w, k.t, syms, p.ltree, p.dtree, p.bltree, p.blcodes, last);
    }
  }

  /** The constant tables and the static trees, built once. */
  method InitCoding() returns (k: Coding)
    ensures CodingOk(k)
  {
    var t := StaticInit();
    var sltree := StaticLTree();
    var sdtree := StaticDTree();
    k := Coding(t, sltree, sdtree);
  }
}
