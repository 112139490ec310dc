/**
 `scan_tree`, `send_tree`, `build_bl_tree` and `send_all_trees` of trees.c: the header of a
 block with dynamic trees, the bits it takes, and reading it back.
 */
module TreeSending {
  import opened Bits
  import opened Huffman
  import opened Sums
  import opened BuildTree
  import opened GenBitLen
  import opened MakeCodes
  import opened RunCoding
  import opened BitWriter
  import opened CompressBlock
  import opened BlockCost

  ghost predicate ItemOk(it: Item)
  {
    it.sym < BL_CODES && (BlExtra(it.sym) == 0 ==> it.value == 0) && (BlExtra(it.sym) != 0 ==> it.value < Pow2(BlExtra(it.sym)))
  }

  ghost predicate ItemsOk(items: seq<Item>) { forall i :: 0 <= i < |items| ==> ItemOk(items[i]) }

  lemma {:induction false} RunItemsOk(prev: int, cur: nat, count: nat)
    requires cur <= 15 && 1 <= count <= MaxCount(prev, cur)
    ensures ItemsOk(RunItems(prev, cur, count))
  {
    assert Pow2(2) == 4 && Pow2(3) == 8;
    Pow2Values();
  }

  lemma {:induction false} AllItemsOk(lens: seq<nat>, n: nat, prev: int, count: nat)
    requires CodeLens(lens) && n <= |lens| && (n < |lens| ==> count < MaxCount(prev, lens[n]))
    ensures ItemsOk(Items(lens, n, prev, count))
    decreases |lens| - n
  {
    if n < |lens| {
      var cur := lens[n];
      if count + 1 < MaxCount(prev, cur) && cur == NextLen(lens, n) {
        AllItemsOk(lens, n + 1, prev, count + 1);
      } else {
        RunItemsOk(prev, cur, count + 1);
        AllItemsOk(lens, n + 1, cur, 0);
      }
    }
  }

  // ----- scan_tree -----

  /** Frequencies with every item counted. */
  ghost function WithItems(freq: seq<nat>, items: seq<Item>): (r: seq<nat>)
    ensures |r| == |freq|
    decreases |items|
  {
    if items == [] then freq else WithItems(Bump(freq, items[0].sym), items[1..])
  }

  lemma {:induction false} WithItemsConcat(freq: seq<nat>, a: seq<Item>, b: seq<Item>)
    ensures WithItems(freq, a + b) == WithItems(WithItems(freq, a), b)
    decreases |a|
  {
    if a == [] {
      assert a + b == b;
    } else {
      assert (a + b)[1..] == a[1..] + b;
      WithItemsConcat(Bump(freq, a[0].sym), a[1..], b);
    }
  }

  lemma {:induction false} WithItemsRepeat(freq: seq<nat>, cur: nat, n: nat)
    requires cur < |freq|
    ensures WithItems(freq, Repeat(Item(cur, 0), n)) == freq[cur := freq[cur] + n]
    decreases n
  {
    if n > 0 {
      assert Repeat(Item(cur, 0), n)[1..] == Repeat(Item(cur, 0), n - 1);
      WithItemsRepeat(Bump(freq, cur), cur, n - 1);
    }
  }

  lemma {:induction false} WithItemsOne(freq: seq<nat>, it: Item)
    ensures WithItems(freq, [it]) == Bump(freq, it.sym)
  {
    assert [it][1..] == [];
  }

  lemma {:induction false} WithItemsTwo(freq: seq<nat>, a: Item, b: Item)
    ensures WithItems(freq, [a, b]) == Bump(Bump(freq, a.sym), b.sym)
  {
    assert [a, b] == [a] + [b];
    WithItemsConcat(freq, [a], [b]);
    WithItemsOne(freq, a);
    WithItemsOne(Bump(freq, a.sym), b);
  }

  /** The counts of one run. */
  method ScanRun(freq0: seq<nat>, prevlen: int, curlen: nat, count: nat, min_count: nat) returns (freq: seq<nat>)
    requires |freq0| >= BL_CODES && curlen <= 15 && 1 <= count <= MaxCount(prevlen, curlen) && min_count == MinCount(prevlen, curlen)
    ensures freq == WithItems(freq0, RunItems(prevlen, curlen, count))
  {
    freq := freq0;
    if count < min_count {
      WithItemsRepeat(freq0, curlen, count);
      freq := freq[curlen := freq[curlen] + count];
    } else if curlen != 0 {
      if curlen != prevlen {
        WithItemsTwo(freq0, Item(curlen, 0), Item(REP_3_6, count - 4));
        freq := freq[curlen := freq[curlen] + 1];
      } else {
        WithItemsOne(freq0, Item(REP_3_6, count - 3));
      }
      freq := freq[REP_3_6 := freq[REP_3_6] + 1];
    } else if count <= 10 {
      WithItemsOne(freq0, Item(REPZ_3_10, count - 3));
      freq := freq[REPZ_3_10 := freq[REPZ_3_10] + 1];
    } else {
      WithItemsOne(freq0, Item(REPZ_11_138, count - 11));
      freq := freq[REPZ_11_138 := freq[REPZ_11_138] + 1];
    }
  }

  /** Counts exactly the items that send_tree will send. */
  method ScanTree(lens: seq<nat>, freq0: seq<nat>) returns (freq: seq<nat>)
    requires CodeLens(lens) && |freq0| >= BL_CODES && lens != []
    ensures freq == WithItems(freq0, TreeItems(lens))
  {
    freq := freq0;
    var prevlen: int, nextlen, count: nat := -1, lens[0], 0;
    var max_count, min_count := 7, 4;
    if nextlen == 0 { max_count, min_count := 138, 3; }
    var n: nat := 0;
    while n < |lens|
      invariant n <= |lens| && |freq| == |freq0| && WithItems(freq, Items(lens, n, prevlen, count)) == WithItems(freq0, TreeItems(lens))
      invariant n < |lens| ==>
                  && nextlen == lens[n] && count < MaxCount(prevlen, lens[n])
                  && max_count == MaxCount(prevlen, lens[n]) && min_count == MinCount(prevlen, lens[n])
    {
      var curlen := nextlen;
      nextlen := if n + 1 < |lens| then lens[n + 1] else 0xffff;
      count := count + 1;
      if !(count < max_count && curlen == nextlen) {
        WithItemsConcat(freq, RunItems(prevlen, curlen, count), Items(lens, n + 1, curlen, 0));
        freq := ScanRun(freq, prevlen, curlen, count, min_count);
        count, prevlen := 0, curlen;
        if nextlen == 0 {
          max_count, min_count := 138, 3;
        } else if curlen == nextlen {
          max_count, min_count := 6, 3;
        } else {
          max_count, min_count := 7, 4;
        }
      }
      n := n + 1;
    }
  }

  // ----- send_tree -----

  ghost predicate AllUsed(bllens: seq<nat>, items: seq<Item>)
  {
    forall i :: 0 <= i < |items| ==> Used(bllens, items[i].sym)
  }

  ghost function ItemBits(bllens: seq<nat>, it: Item): BitString
    requires Used(bllens, it.sym)
  {
    CodeAndExtra(bllens, it.sym, BlExtra(it.sym), it.value)
  }

  ghost function ItemsBits(bllens: seq<nat>, items: seq<Item>): BitString
    requires AllUsed(bllens, items)
    decreases |items|
  {
    if items == [] then [] else ItemBits(bllens, items[0]) + ItemsBits(bllens, items[1..])
  }

  lemma {:induction false} ItemsBitsConcat(bllens: seq<nat>, a: seq<Item>, b: seq<Item>)
    requires AllUsed(bllens, a) && AllUsed(bllens, b)
    ensures AllUsed(bllens, a + b) && ItemsBits(bllens, a + b) == ItemsBits(bllens, a) + ItemsBits(bllens, b)
    decreases |a|
  {
    if a == [] {
      assert a + b == b;
    } else {
      assert (a + b)[1..] == a[1..] + b;
      ItemsBitsConcat(bllens, a[1..], b);
      Assoc(ItemBits(bllens, a[0]), ItemsBits(bllens, a[1..]), ItemsBits(bllens, b));
    }
  }

  /** send_code and, for the repeat codes, send_bits. */
  method SendItem(w: Writer, bltree: Tree, it: Item)
    requires w.Valid() && TreeOk(bltree) && Used(bltree.lens, it.sym) && ItemOk(it)
    modifies w
    ensures w.Valid() && w.Sent() == old(w.Sent()) + ItemBits(bltree.lens, it)
  {
    SendCodeAndExtra(w, bltree, it.sym, BlExtra(it.sym), it.value);
  }

  lemma {:induction false} RepeatNext(bllens: seq<nat>, it: Item, n: nat)
    requires n >= 1 && Used(bllens, it.sym)
    ensures AllUsed(bllens, Repeat(it, n)) && AllUsed(bllens, Repeat(it, n - 1))
    ensures ItemsBits(bllens, Repeat(it, n)) == ItemBits(bllens, it) + ItemsBits(bllens, Repeat(it, n - 1))
  {
    assert Repeat(it, n)[1..] == Repeat(it, n - 1);
  }

  lemma {:induction false} OneItem(bllens: seq<nat>, it: Item)
    requires Used(bllens, it.sym)
    ensures AllUsed(bllens, [it]) && ItemsBits(bllens, [it]) == ItemBits(bllens, it)
  {
    assert [it][1..] == [];
    assert ItemBits(bllens, it) + [] == ItemBits(bllens, it);
  }

  lemma {:induction false} TwoItems(bllens: seq<nat>, a: Item, b: Item)
    requires Used(bllens, a.sym) && Used(bllens, b.sym)
    ensures AllUsed(bllens, [a, b]) && ItemsBits(bllens, [a, b]) == ItemBits(bllens, a) + ItemBits(bllens, b)
  {
    assert [a, b] == [a] + [b];
    OneItem(bllens, a);
    OneItem(bllens, b);
    ItemsBitsConcat(bllens, [a], [b]);
  }

  method SendRepeated(w: Writer, bltree: Tree, it: Item, count: nat)
    requires w.Valid() && TreeOk(bltree) && Used(bltree.lens, it.sym) && ItemOk(it) && 1 <= count
    requires AllUsed(bltree.lens, Repeat(it, count))
    modifies w
    ensures w.Valid() && w.Sent() == old(w.Sent()) + ItemsBits(bltree.lens, Repeat(it, count))
  {
    ghost var start, all := w.Sent(), ItemsBits(bltree.lens, Repeat(it, count));
    var k := count;
    while k != 0
      invariant w.Valid() && AllUsed(bltree.lens, Repeat(it, k))
      invariant w.Sent() + ItemsBits(bltree.lens, Repeat(it, k)) == start + all
    {
      RepeatNext(bltree.lens, it, k);
      Assoc(w.Sent(), ItemBits(bltree.lens, it), ItemsBits(bltree.lens, Repeat(it, k - 1)));
      SendItem(w, bltree, it);
      k := k - 1;
    }
    assert w.Sent() + [] == w.Sent();
  }

  /** One run. */
  method SendRun(w: Writer, bltree: Tree, prevlen: int, curlen: nat, count: nat, min_count: nat)
    requires w.Valid() && TreeOk(bltree) && curlen <= 15 && 1 <= count <= MaxCount(prevlen, curlen) && min_count == MinCount(prevlen, curlen)
    requires AllUsed(bltree.lens, RunItems(prevlen, curlen, count))
    modifies w
    ensures w.Valid() && w.Sent() == old(w.Sent()) + ItemsBits(bltree.lens, RunItems(prevlen, curlen, count))
  {
    RunItemsOk(prevlen, curlen, count);
    ghost var items, start := RunItems(prevlen, curlen, count), w.Sent();
    if count < min_count {
      assert items[0] == Item(curlen, 0);
      SendRepeated(w, bltree, Item(curlen, 0), count);
    } else if curlen != 0 {
      var k := count;
      if curlen != prevlen {
        assert items[0] == Item(curlen, 0) && items[1] == Item(REP_3_6, count - 4);
        TwoItems(bltree.lens, Item(curlen, 0), Item(REP_3_6, count - 4));
        Assoc(start, ItemBits(bltree.lens, Item(curlen, 0)), ItemBits(bltree.lens, Item(REP_3_6, count - 4)));
        SendItem(w, bltree, Item(curlen, 0));
        k := k - 1;
      } else {
        assert items[0] == Item(REP_3_6, count - 3);
        OneItem(bltree.lens, Item(REP_3_6, count - 3));
      }
      SendItem(w, bltree, Item(REP_3_6, k - 3));
    } else if count <= 10 {
      assert items[0] == Item(REPZ_3_10, count - 3);
      OneItem(bltree.lens, Item(REPZ_3_10, count - 3));
      SendItem(w, bltree, Item(REPZ_3_10, count - 3));
    } else {
      assert items[0] == Item(REPZ_11_138, count - 11);
      OneItem(bltree.lens, Item(REPZ_11_138, count - 11));
      SendItem(w, bltree, Item(REPZ_11_138, count - 11));
    }
  }

  /** The items split at the end of a run. */
  lemma {:induction false} SplitItems(bllens: seq<nat>, lens: seq<nat>, n: nat, prev: int, count: nat)
    requires n < |lens| && AllUsed(bllens, Items(lens, n, prev, count))
    requires !(count + 1 < MaxCount(prev, lens[n]) && lens[n] == NextLen(lens, n))
    ensures AllUsed(bllens, RunItems(prev, lens[n], count + 1)) && AllUsed(bllens, Items(lens, n + 1, lens[n], 0))
    ensures ItemsBits(bllens, Items(lens, n, prev, count)) ==
            ItemsBits(bllens, RunItems(prev, lens[n], count + 1)) + ItemsBits(bllens, Items(lens, n + 1, lens[n], 0))
  {
    var a, b := RunItems(prev, lens[n], count + 1), Items(lens, n + 1, lens[n], 0);
    assert Items(lens, n, prev, count) == a + b;
    forall i | 0 <= i < |a| ensures Used(bllens, a[i].sym) { assert (a + b)[i] == a[i]; }
    forall i | 0 <= i < |b| ensures Used(bllens, b[i].sym) { assert (a + b)[|a| + i] == b[i]; }
    ItemsBitsConcat(bllens, a, b);
  }

  /** What is left to send. */
  ghost function ToSend(bllens: seq<nat>, lens: seq<nat>, n: nat, prev: int, count: nat): BitString
    requires n <= |lens| && AllUsed(bllens, Items(lens, n, prev, count))
  {
    ItemsBits(bllens, Items(lens, n, prev, count))
  }

  /** max_count and min_count are those of the run in progress. */
  ghost predicate Counts(lens: seq<nat>, n: nat, prev: int, count: nat, nextlen: nat, max_count: nat, min_count: nat)
  {
    var limits := n < |lens| ==>
      && nextlen == lens[n] && count < MaxCount(prev, lens[n])
      && max_count == MaxCount(prev, lens[n]) && min_count == MinCount(prev, lens[n]);
    limits
  }

  method EndRun(w: Writer, bltree: Tree, lens: seq<nat>, n: nat, prev: int, ghost before: nat, count: nat, min_count: nat, ghost all: BitString)
    requires w.Valid() && TreeOk(bltree) && CodeLens(lens) && n < |lens| && count == before + 1 <= MaxCount(prev, lens[n])
    requires min_count == MinCount(prev, lens[n]) && !(count < MaxCount(prev, lens[n]) && lens[n] == NextLen(lens, n))
    requires Sending(bltree.lens, lens, n, prev, before, w.Sent(), all)
    modifies w
    ensures w.Valid() && Sending(bltree.lens, lens, n + 1, lens[n], 0, w.Sent(), all)
  {
    RunSent(bltree.lens, lens, n, prev, before, count, w.Sent());
    SendRun(w, bltree, prev, lens[n], count, min_count);
  }

  /** What is left to send after a run has been sent. */
  lemma {:induction false} RunSent(bllens: seq<nat>, lens: seq<nat>, n: nat, prev: int, before: nat, count: nat, sent: BitString)
    requires n < |lens| && count == before + 1 && AllUsed(bllens, Items(lens, n, prev, before))
    requires !(count < MaxCount(prev, lens[n]) && lens[n] == NextLen(lens, n))
    ensures AllUsed(bllens, RunItems(prev, lens[n], count)) && AllUsed(bllens, Items(lens, n + 1, lens[n], 0))
    ensures (sent + ItemsBits(bllens, RunItems(prev, lens[n], count))) + ToSend(bllens, lens, n + 1, lens[n], 0) ==
            sent + ToSend(bllens, lens, n, prev, before)
  {
    SplitItems(bllens, lens, n, prev, before);
    Assoc(sent, ItemsBits(bllens, RunItems(prev, lens[n], count)), ItemsBits(bllens, Items(lens, n + 1, lens[n], 0)));
  }

  lemma {:induction false} GoesOn(bllens: seq<nat>, lens: seq<nat>, n: nat, prev: int, count: nat)
    requires n < |lens| && AllUsed(bllens, Items(lens, n, prev, count))
    requires count + 1 < MaxCount(prev, lens[n]) && lens[n] == NextLen(lens, n)
    ensures AllUsed(bllens, Items(lens, n + 1, prev, count + 1))
    ensures ToSend(bllens, lens, n + 1, prev, count + 1) == ToSend(bllens, lens, n, prev, count)
  {
  }

  /** What has been sent and what is left are all there is to send. */
  ghost predicate Sending(bllens: seq<nat>, lens: seq<nat>, n: nat, prev: int, count: nat, sent: BitString, all: BitString)
  {
    var used := n <= |lens| && AllUsed(bllens, Items(lens, n, prev, count));
    used && sent + ToSend(bllens, lens, n, prev, count) == all
  }

  lemma {:induction false} SendingGoesOn(bllens: seq<nat>, lens: seq<nat>, n: nat, next: nat, prev: int, count: nat, more: nat, sent: BitString, all: BitString)
    requires Sending(bllens, lens, n, prev, count, sent, all) && n < |lens| && next == n + 1 && more == count + 1
    requires more < MaxCount(prev, lens[n]) && lens[n] == NextLen(lens, n)
    ensures Sending(bllens, lens, next, prev, more, sent, all)
  {
    GoesOn(bllens, lens, n, prev, count);
  }

  lemma {:induction false} LimitsGoOn(lens: seq<nat>, n: nat, next: nat, prev: int, count: nat, more: nat, curlen: nat, nextlen: nat,
                                      max_count: nat, min_count: nat)
    requires n < |lens| && next == n + 1 && more == count + 1 && curlen == nextlen == NextLen(lens, n)
    requires Counts(lens, n, prev, count, curlen, max_count, min_count) && more < max_count
    ensures Counts(lens, next, prev, more, nextlen, max_count, min_count)
  {
  }

  /** The shortest and the longest run that the next length may begin. */
  method NextLimits(lens: seq<nat>, ghost n: nat, ghost next: nat, curlen: nat, nextlen: nat) returns (max_count: nat, min_count: nat)
    requires CodeLens(lens) && n < |lens| && next == n + 1 && curlen == lens[n] && nextlen == NextLen(lens, n)
    ensures Counts(lens, next, curlen, 0, nextlen, max_count, min_count)
  {
    if nextlen == 0 {
      max_count, min_count := 138, 3;
    } else if curlen == nextlen {
      max_count, min_count := 6, 3;
    } else {
      max_count, min_count := 7, 4;
    }
  }

  /** Sends the items of a tree with the code-length code. */
  method SendTree(w: Writer, lens: seq<nat>, bltree: Tree)
    requires w.Valid() && TreeOk(bltree) && CodeLens(lens) && lens != [] && AllUsed(bltree.lens, TreeItems(lens))
    modifies w
    ensures w.Valid() && w.Sent() == old(w.Sent()) + ItemsBits(bltree.lens, TreeItems(lens))
  {
    ghost var all := w.Sent() + ToSend(bltree.lens, lens, 0, -1, 0);
    var prevlen: int, nextlen, count: nat := -1, lens[0], 0;
    var max_count, min_count := 7, 4;
    if nextlen == 0 { max_count, min_count := 138, 3; }
    var n: nat := 0;
    while n < |lens|
      invariant n <= |lens| && w.Valid() && Sending(bltree.lens, lens, n, prevlen, count, w.Sent(), all)
      invariant Counts(lens, n, prevlen, count, nextlen, max_count, min_count)
    {
      var curlen := nextlen;
      nextlen := if n + 1 < |lens| then lens[n + 1] else 0xffff;
      ghost var before := count;
      count := count + 1;
      if count < max_count && curlen == nextlen {
        SendingGoesOn(bltree.lens, lens, n, n + 1, prevlen, before, count, w.Sent(), all);
        LimitsGoOn(lens, n, n + 1, prevlen, before, count, curlen, nextlen, max_count, min_count);
      } else {
        EndRun(w, bltree, lens, n, prevlen, before, count, min_count, all);
        count, prevlen := 0, curlen;
        max_count, min_count := NextLimits(lens, n, n + 1, curlen, nextlen);
      }
      n := n + 1;
    }
    assert w.Sent() + [] == w.Sent();
  }

  // ----- the cost of the items -----

  const EXTRA_BLBITS: seq<nat> := [0, 0, 0, 0, 0, 0, 0, 0, 0, 0, 0, 0, 0, 0, 0, 0, 2, 3, 7]

  function BL_DESC(): Desc { Desc(BL_CODES, 7, 0, EXTRA_BLBITS, false, []) }

  lemma {:induction false} BlDescValid()
    ensures BL_DESC().Valid()
    ensures forall c: nat :: c < BL_CODES ==> BL_DESC().Xbits(c) == BlExtra(c)
  {
    var d := BL_DESC();
    assert d.elems <= Pow2(d.maxLength) by { Pow2Values(); }
    assert d.Xbits(0) == 0 && d.Xbits(1) == 0 && d.Xbits(2) == 0;
  }

  /** Sent items cost what their counts say. */
  lemma {:induction false} ItemsCost(freq: seq<nat>, bllens: seq<nat>, items: seq<Item>, desc: Desc)
    requires AllUsed(bllens, items) && desc.elems == BL_CODES == |bllens| && |freq| >= BL_CODES
    requires forall c: nat :: c < BL_CODES ==> desc.Xbits(c) == BlExtra(c)
    ensures TotalBits(WithItems(freq, items), bllens, desc) == TotalBits(freq, bllens, desc) + |ItemsBits(bllens, items)|
    decreases |items|
  {
    if items != [] {
      TotalBump(freq, bllens, desc, items[0].sym);
      ItemsCost(Bump(freq, items[0].sym), bllens, items[1..], desc);
    }
  }

  lemma {:induction false} WithItemsGrows(freq: seq<nat>, items: seq<Item>, c: nat)
    requires c < |freq|
    ensures freq[c] <= WithItems(freq, items)[c]
    decreases |items|
  {
    if items != [] {
      WithItemsGrows(Bump(freq, items[0].sym), items[1..], c);
    }
  }

  /** Every item was counted. */
  lemma {:induction false} WithItemsAll(freq: seq<nat>, items: seq<Item>, i: nat)
    requires i < |items| && items[i].sym < |freq|
    ensures WithItems(freq, items)[items[i].sym] >= 1
    decreases |items|
  {
    if i == 0 {
      WithItemsGrows(Bump(freq, items[0].sym), items[1..], items[0].sym);
    } else {
      WithItemsAll(Bump(freq, items[0].sym), items[1..], i - 1);
    }
  }

  /** A tree with a code sends at least one plain length. */
  lemma {:induction false} PlainItem(lens: seq<nat>, n: nat, prev: int, count: nat, m: nat) returns (i: nat)
    requires CodeLens(lens) && n <= m < |lens| && lens[m] != 0 && prev <= 0
    requires n < |lens| ==> count < MaxCount(prev, lens[n])
    ensures i < |Items(lens, n, prev, count)| && Items(lens, n, prev, count)[i].sym <= 15
    decreases |lens| - n
  {
    var cur := lens[n];
    if count + 1 < MaxCount(prev, cur) && cur == NextLen(lens, n) {
      i := PlainItem(lens, n + 1, prev, count + 1, if m == n then n + 1 else m);
    } else {
      var run, more := RunItems(prev, cur, count + 1), Items(lens, n + 1, cur, 0);
      if cur != 0 {
        i := 0;
        assert run[0] == Item(cur, 0);
      } else {
        var j := PlainItem(lens, n + 1, cur, 0, m);
        i := |run| + j;
      }
    }
  }

  // ----- build_bl_tree -----

  /** The number of code lengths to send: at least 4, and all that are not zero. */
  method LastBlIndex(bllens: seq<nat>, ghost c: nat) returns (max_blindex: nat)
    requires |bllens| >= BL_CODES && c <= 15 && bllens[c] != 0
    ensures 3 <= max_blindex < BL_CODES
    ensures forall i: nat :: max_blindex < i < BL_CODES ==> bllens[BlOrder(i)] == 0
  {
    max_blindex := BL_CODES - 1;
    while max_blindex >= 3
      invariant BlRank(c) <= max_blindex < BL_CODES
      invariant forall i: nat :: max_blindex < i < BL_CODES ==> bllens[BlOrder(i)] == 0
    {
      if bllens[BlOrder(max_blindex)] != 0 { break; }
      max_blindex := max_blindex - 1;
    }
  }
}
