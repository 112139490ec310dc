/**
 The header of a block with dynamic trees: `build_bl_tree` and `send_all_trees` of trees.c.
 */
module BlockHeader {
  import opened Bits
  import opened Huffman
  import opened Sums
  import opened InflateTable
  import opened BuildTree
  import opened GenBitLen
  import opened MakeCodes
  import opened RunCoding
  import opened BitWriter
  import opened CompressBlock
  import opened BlockCost
  import opened TreeSending

  // ----- building and sending -----

  /** All items of the two trees. */
  ghost function BothItems(llens: seq<nat>, dlens: seq<nat>): seq<Item> { TreeItems(llens) + TreeItems(dlens) }

  /** build_bl_tree: the code for the items, how many of its lengths to send, and the cost. */
  method BuildBlTree(heap: array<nat>, llens: seq<nat>, dlens: seq<nat>, dl0: seq<nat>, opt_len0: int)
    returns (bltree: Tree, blcodes: nat, opt_len: int)
    requires CodeLens(llens) && CodeLens(dlens) && llens != [] && dlens != [] && |dl0| == 2 * BL_CODES + 1 && heap.Length == HEAP_SIZE
    requires exists m: nat :: m < |llens| && llens[m] != 0
    modifies heap
    ensures TreeOk(bltree) && |bltree.lens| == BL_CODES && Complete(bltree.lens) && forall i :: 0 <= i < BL_CODES ==> bltree.lens[i] <= 7
    ensures AllUsed(bltree.lens, BothItems(llens, dlens))
    ensures 4 <= blcodes <= BL_CODES && forall i: nat :: blcodes <= i < BL_CODES ==> bltree.lens[BlOrder(i)] == 0
    ensures opt_len == opt_len0 + |ItemsBits(bltree.lens, BothItems(llens, dlens))| + 3 * blcodes + 14
  {
    BlDescValid();
    ghost var zero: seq<nat> := seq(2 * BL_CODES + 1, _ => 0);
    var freq := ScanTree(llens, seq(2 * BL_CODES + 1, _ => 0));
    freq := ScanTree(dlens, freq);
    WithItemsConcat(zero, TreeItems(llens), TreeItems(dlens));
    var codes, lens, max_code, static_len;
    ghost var leaves;
    codes, lens, max_code, opt_len, static_len, leaves := CodeFor(heap, freq, dl0, BL_DESC(), opt_len0, 0);
    bltree := Tree(codes, lens);
    ghost var items := BothItems(llens, dlens);
    ItemsUsed(freq, zero, items, llens, dlens, bltree.lens, leaves);
    ItemsCost(zero, bltree.lens, items, BL_DESC());
    NoBits(2 * BL_CODES + 1, bltree.lens, BL_DESC());
    ghost var c := PlainUsed(llens, dlens, bltree.lens);
    var max_blindex := LastBlIndex(bltree.lens, c);
    blcodes := max_blindex + 1;
    opt_len := opt_len + 3 * (max_blindex + 1) + 5 + 5 + 4;
  }

  lemma {:induction false} ItemsUsed(freq: seq<nat>, zero: seq<nat>, items: seq<Item>, llens: seq<nat>, dlens: seq<nat>, bllens: seq<nat>, leaves: set<nat>)
    requires CodeLens(llens) && CodeLens(dlens) && items == BothItems(llens, dlens) && freq == WithItems(zero, items)
    requires |zero| == 2 * BL_CODES + 1 && |bllens| == BL_CODES
    requires forall x: nat :: x < BL_CODES && freq[x] != 0 ==> x in leaves
    requires forall x :: 0 <= x < BL_CODES && x in leaves ==> bllens[x] >= 1
    ensures AllUsed(bllens, items)
  {
    AllItemsOk(llens, 0, -1, 0);
    AllItemsOk(dlens, 0, -1, 0);
    forall i: nat | i < |items| ensures Used(bllens, items[i].sym) {
      assert ItemOk(items[i]);
      WithItemsAll(zero, items, i);
    }
  }

  lemma {:induction false} PlainUsed(llens: seq<nat>, dlens: seq<nat>, bllens: seq<nat>) returns (c: nat)
    requires CodeLens(llens) && exists m: nat :: m < |llens| && llens[m] != 0
    requires AllUsed(bllens, BothItems(llens, dlens))
    ensures c <= 15 && Used(bllens, c)
  {
    var m: nat :| m < |llens| && llens[m] != 0;
    var i := PlainItem(llens, 0, -1, 0, m);
    assert BothItems(llens, dlens)[i] == TreeItems(llens)[i];
    c := TreeItems(llens)[i].sym;
  }

  /** Values of `width` bits each. */
  ghost function Fields(vs: seq<nat>, width: nat): BitString
    decreases |vs|
  {
    if vs == [] then [] else LowBits(vs[0], width) + Fields(vs[1..], width)
  }

  lemma {:induction false} FieldsSize(vs: seq<nat>)
    ensures |Fields(vs, 3)| == 3 * |vs|
    decreases |vs|
  {
    if vs != [] {
      FieldsSize(vs[1..]);
    }
  }

  /** The lengths of the code-length code in the order they are sent. */
  ghost function InOrder(bllens: seq<nat>, blcodes: nat): (vs: seq<nat>)
    requires |bllens| == BL_CODES && blcodes <= BL_CODES
    ensures |vs| == blcodes && forall i: nat :: i < blcodes ==> vs[i] == bllens[BlOrder(i)]
  {
    seq(blcodes, i requires 0 <= i < blcodes => bllens[BlOrder(i)])
  }

  ghost function OrderBits(bllens: seq<nat>, blcodes: nat): BitString
    requires |bllens| == BL_CODES && blcodes <= BL_CODES
  {
    Fields(InOrder(bllens, blcodes), 3)
  }

  ghost function CountBits(lcodes: nat, dcodes: nat, blcodes: nat): BitString
    requires lcodes >= 257 && dcodes >= 1 && blcodes >= 4
  {
    LowBits(lcodes - 257, 5) + LowBits(dcodes - 1, 5) + LowBits(blcodes - 4, 4)
  }

  /** Everything send_all_trees sends. */
  ghost function HeaderBits(llens: seq<nat>, dlens: seq<nat>, bllens: seq<nat>, blcodes: nat): BitString
    requires 257 <= |llens| && 1 <= |dlens| && |bllens| == BL_CODES && 4 <= blcodes <= BL_CODES
    requires AllUsed(bllens, BothItems(llens, dlens))
  {
    CountBits(|llens|, |dlens|, blcodes) + OrderBits(bllens, blcodes) + ItemsBits(bllens, BothItems(llens, dlens))
  }

  method SendOrder(w: Writer, bltree: Tree, blcodes: nat)
    requires w.Valid() && |bltree.lens| == BL_CODES && blcodes <= BL_CODES && forall i :: 0 <= i < BL_CODES ==> bltree.lens[i] <= 7
    modifies w
    ensures w.Valid() && w.Sent() == old(w.Sent()) + OrderBits(bltree.lens, blcodes)
  {
    ghost var vs := InOrder(bltree.lens, blcodes);
    ghost var all := w.Sent() + Fields(vs, 3);
    var rank: nat := 0;
    assert vs[0..] == vs;
    while rank < blcodes
      invariant rank <= blcodes && w.Valid() && w.Sent() + Fields(vs[rank..], 3) == all
    {
      assert vs[rank..][1..] == vs[rank + 1..];
      SendField(w, bltree.lens[BlOrder(rank)], vs[rank..], 3);
      rank := rank + 1;
    }
    assert w.Sent() + [] == w.Sent();
  }

  method SendField(w: Writer, value: nat, ghost vs: seq<nat>, width: nat)
    requires w.Valid() && width == 3 && vs != [] && value == vs[0] <= 7
    modifies w
    ensures w.Valid() && w.Sent() + Fields(vs[1..], width) == old(w.Sent()) + Fields(vs, width)
  {
    assert Pow2(width) == 8 by { assert Pow2(3) == 8; }
    Assoc(w.Sent(), LowBits(value, width), Fields(vs[1..], width));
    w.SendBits(value, width);
  }

  method SendCounts(w: Writer, lcodes: nat, dcodes: nat, blcodes: nat)
    requires w.Valid() && 257 <= lcodes <= 286 && 1 <= dcodes <= 30 && 4 <= blcodes <= BL_CODES
    modifies w
    ensures w.Valid() && w.Sent() == old(w.Sent()) + CountBits(lcodes, dcodes, blcodes)
  {
    assert Pow2(4) == 16 && Pow2(5) == 32;
    ghost var s := w.Sent();
    var a, b, c := lcodes - 257, dcodes - 1, blcodes - 4;
    w.SendBits(a, 5);
    w.SendBits(b, 5);
    w.SendBits(c, 4);
    Assoc(s, LowBits(a, 5), LowBits(b, 5));
    Assoc(s, LowBits(a, 5) + LowBits(b, 5), LowBits(c, 4));
  }

  method SendAllTrees(w: Writer, llens: seq<nat>, dlens: seq<nat>, bltree: Tree, blcodes: nat)
    requires w.Valid() && TreeOk(bltree) && CodeLens(llens) && CodeLens(dlens)
    requires 257 <= |llens| <= 286 && 1 <= |dlens| <= 30 && |bltree.lens| == BL_CODES && 4 <= blcodes <= BL_CODES
    requires (forall i :: 0 <= i < BL_CODES ==> bltree.lens[i] <= 7) && AllUsed(bltree.lens, BothItems(llens, dlens))
    modifies w
    ensures w.Valid() && w.Sent() == old(w.Sent()) + HeaderBits(llens, dlens, bltree.lens, blcodes)
  {
    ghost var s := w.Sent();
    SplitUsed(bltree.lens, TreeItems(llens), TreeItems(dlens));
    ItemsBitsConcat(bltree.lens, TreeItems(llens), TreeItems(dlens));
    SendCounts(w, |llens|, |dlens|, blcodes);
    SendOrder(w, bltree, blcodes);
    SendTree(w, llens, bltree);
    SendTree(w, dlens, bltree);
    Joins(s, CountBits(|llens|, |dlens|, blcodes), OrderBits(bltree.lens, blcodes),
          ItemsBits(bltree.lens, TreeItems(llens)), ItemsBits(bltree.lens, TreeItems(dlens)));
  }

  lemma {:induction false} SplitUsed(bllens: seq<nat>, a: seq<Item>, b: seq<Item>)
    requires AllUsed(bllens, a + b)
    ensures AllUsed(bllens, a) && AllUsed(bllens, b)
  {
    forall i | 0 <= i < |a| ensures Used(bllens, a[i].sym) { assert (a + b)[i] == a[i]; }
    forall i | 0 <= i < |b| ensures Used(bllens, b[i].sym) { assert (a + b)[|a| + i] == b[i]; }
  }

  lemma {:induction false} Joins(s: BitString, a: BitString, b: BitString, c: BitString, d: BitString)
    ensures (((s + a) + b) + c) + d == s + ((a + b) + (c + d))
  {
  }

  /** The header takes the bits that build_bl_tree added to opt_len. */
  lemma {:induction false} HeaderCost(llens: seq<nat>, dlens: seq<nat>, bllens: seq<nat>, blcodes: nat)
    requires 257 <= |llens| && 1 <= |dlens| && |bllens| == BL_CODES && 4 <= blcodes <= BL_CODES
    requires AllUsed(bllens, BothItems(llens, dlens))
    ensures |HeaderBits(llens, dlens, bllens, blcodes)| == |ItemsBits(bllens, BothItems(llens, dlens))| + 3 * blcodes + 14
  {
    FieldsSize(InOrder(bllens, blcodes));
  }

  /** The three counts are read back. */
  lemma {:induction false} CountsRead(lcodes: nat, dcodes: nat, blcodes: nat, rest: BitString)
    requires 257 <= lcodes <= 286 && 1 <= dcodes <= 30 && 4 <= blcodes <= BL_CODES
    ensures var s := CountBits(lcodes, dcodes, blcodes) + rest;
            && |s| >= 14 && Val(s[..5]) + 257 == lcodes && Val(s[5..10]) + 1 == dcodes && Val(s[10..14]) + 4 == blcodes && s[14..] == rest
  {
    var a, b, c := LowBits(lcodes - 257, 5), LowBits(dcodes - 1, 5), LowBits(blcodes - 4, 4);
    var s := CountBits(lcodes, dcodes, blcodes) + rest;
    assert Pow2(4) == 16 && Pow2(5) == 32;
    ValLowBits(lcodes - 257, 5);
    ValLowBits(dcodes - 1, 5);
    ValLowBits(blcodes - 4, 4);
    assert s == a + b + c + rest;
    assert s[..5] == a && s[5..10] == b && s[10..14] == c;
  }
}
