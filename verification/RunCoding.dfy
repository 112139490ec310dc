/**
 Run coding of code lengths: `scan_tree` and `send_tree` of trees.c, and the rules by
 which inflate's CODELENS state reads them (section 3.2.7 of RFC 1951).
 */
module RunCoding {
  const REP_3_6 := 16
  const REPZ_3_10 := 17
  const REPZ_11_138 := 18
  const BL_CODES := 19

  /** The order in which the lengths of the code-length code are sent. */
  const BL_ORDER: seq<nat> := [16, 17, 18, 0, 8, 7, 9, 6, 10, 5, 11, 4, 12, 3, 13, 2, 14, 1, 15]

  function BlOrder(i: nat): (c: nat)
    requires i < BL_CODES
    ensures c < BL_CODES
  {
    BL_ORDER[i]
  }

  /** Where a code-length symbol stands in the order of sending. */
  function BlRank(c: nat): (i: nat)
    requires c < BL_CODES
    ensures i < BL_CODES && BlOrder(i) == c && (c <= 15 ==> i >= 3)
  {
    var ranks := [3, 17, 15, 13, 11, 9, 7, 5, 4, 6, 8, 10, 12, 14, 16, 18, 0, 1, 2];
    ranks[c]
  }

  /** extra_blbits */
  function BlExtra(sym: nat): nat
  {
    if sym == 16 then 2 else if sym == 17 then 3 else if sym == 18 then 7 else 0
  }

  /** A code-length symbol and the value of its extra bits. */
  datatype Item = Item(sym: nat, value: nat)

  // ----- what is sent -----

  /** max_count and min_count after a run, for a run of `cur` to come. */
  function MaxCount(prev: int, cur: nat): nat { if cur == 0 then 138 else if prev == cur then 6 else 7 }

  function MinCount(prev: int, cur: nat): nat { if cur == 0 || prev == cur then 3 else 4 }

  function Repeat(it: Item, n: nat): seq<Item> { seq(n, _ => it) }

  /** The items for a run of `count` lengths `cur` after the length `prev`. */
  function RunItems(prev: int, cur: nat, count: nat): seq<Item>
    requires 1 <= count
  {
    if count < MinCount(prev, cur) then Repeat(Item(cur, 0), count)
    else if cur != 0 then
      if cur != prev then [Item(cur, 0), Item(REP_3_6, count - 4)] else [Item(REP_3_6, count - 3)]
    else if count <= 10 then [Item(REPZ_3_10, count - 3)]
    else if count >= 11 then [Item(REPZ_11_138, count - 11)]
    else []
  }

  /** The length after the n-th, with the guard at the end. */
  function NextLen(lens: seq<nat>, n: nat): nat { if n + 1 < |lens| then lens[n + 1] else 0xffff }

  /** The items for lens[n - count..]: `count` lengths equal to lens[n] are pending. */
  function Items(lens: seq<nat>, n: nat, prev: int, count: nat): seq<Item>
    requires n <= |lens|
    decreases |lens| - n
  {
    if n == |lens| then []
    else
      var cur := lens[n];
      if count + 1 < MaxCount(prev, cur) && cur == NextLen(lens, n) then Items(lens, n + 1, prev, count + 1)
      else RunItems(prev, cur, count + 1) + Items(lens, n + 1, cur, 0)
  }

  // ----- what is read -----

  datatype Lens = Lens(lens: seq<nat>) | Bad

  /** CODELENS: one symbol, given that `total` lengths are wanted. */
  function ReadItem(have: seq<nat>, it: Item, total: nat): Lens
  {
    if it.sym < 16 then Lens(have + [it.sym])
    else if it.sym == 16 && have == [] then Bad
    else
      var len := if it.sym == 16 then have[|have| - 1] else 0;
      var copy := if it.sym == 18 then 11 + it.value else 3 + it.value;
      if |have| + copy > total then Bad else Lens(have + seq(copy, _ => len))
  }

  function ReadItems(have: seq<nat>, items: seq<Item>, total: nat): Lens
    decreases |items|
  {
    if items == [] then Lens(have)
    else
      match ReadItem(have, items[0], total)
      case Bad => Bad
      case Lens(more) => ReadItems(more, items[1..], total)
  }

  lemma {:induction false} ReadConcat(have: seq<nat>, a: seq<Item>, b: seq<Item>, total: nat)
    requires ReadItems(have, a, total).Lens?
    ensures ReadItems(have, a + b, total) == ReadItems(ReadItems(have, a, total).lens, b, total)
    decreases |a|
  {
    if a == [] {
      assert a + b == b;
    } else {
      assert (a + b)[1..] == a[1..] + b;
      ReadConcat(ReadItem(have, a[0], total).lens, a[1..], b, total);
    }
  }

  lemma {:induction false} ReadRepeat(have: seq<nat>, cur: nat, n: nat, total: nat)
    requires cur < 16
    ensures ReadItems(have, Repeat(Item(cur, 0), n), total) == Lens(have + seq(n, _ => cur))
    decreases n
  {
    if n == 0 {
      assert have + seq(n, _ => cur) == have;
    } else {
      assert Repeat(Item(cur, 0), n)[1..] == Repeat(Item(cur, 0), n - 1);
      ReadRepeat(have + [cur], cur, n - 1, total);
      assert (have + [cur]) + seq(n - 1, _ => cur) == have + seq(n, _ => cur);
    }
  }

  lemma {:induction false} ReadOne(have: seq<nat>, it: Item, total: nat)
    requires ReadItem(have, it, total).Lens?
    ensures ReadItems(have, [it], total) == ReadItem(have, it, total)
  {
    assert [it][1..] == [];
  }

  /** A run is read back as the run. */
  lemma {:induction false} ReadRun(have: seq<nat>, prev: int, cur: nat, count: nat, total: nat)
    requires cur <= 15 && 1 <= count <= MaxCount(prev, cur) && |have| + count <= total
    requires prev >= 0 ==> have != [] && have[|have| - 1] == prev
    ensures ReadItems(have, RunItems(prev, cur, count), total) == Lens(have + seq(count, _ => cur))
  {
    if count < MinCount(prev, cur) {
      ReadRepeat(have, cur, count, total);
    } else if cur != 0 && cur != prev {
      var rep := Item(REP_3_6, count - 4);
      assert [Item(cur, 0), rep] == [Item(cur, 0)] + [rep];
      ReadOne(have, Item(cur, 0), total);
      ReadConcat(have, [Item(cur, 0)], [rep], total);
      ReadOne(have + [cur], rep, total);
      assert (have + [cur]) + seq(count - 1, _ => cur) == have + seq(count, _ => cur);
    } else if cur != 0 {
      ReadOne(have, Item(REP_3_6, count - 3), total);
    } else if count <= 10 {
      ReadOne(have, Item(REPZ_3_10, count - 3), total);
    } else {
      ReadOne(have, Item(REPZ_11_138, count - 11), total);
    }
  }

  // ----- round trip -----

  /** `count` lengths before the n-th are pending, and equal to it; `prev` came before them. */
  ghost predicate Pending(lens: seq<nat>, n: nat, prev: int, count: nat)
  {
    && count <= n <= |lens|
    && (n < |lens| ==> count < MaxCount(prev, lens[n]) && forall i :: n - count <= i < n ==> lens[i] == lens[n])
    && (n == |lens| ==> count == 0)
    && (prev >= 0 ==> n - count >= 1 && lens[n - count - 1] == prev)
    && prev >= -1
  }

  ghost predicate CodeLens(lens: seq<nat>) { forall i :: 0 <= i < |lens| ==> lens[i] <= 15 }

  lemma {:induction false} RunIs(lens: seq<nat>, n: nat, count: nat, more: nat)
    requires count <= n < |lens| && more == count + 1 && forall i :: n - count <= i < n ==> lens[i] == lens[n]
    ensures lens[..n - count] + seq(more, _ => lens[n]) == lens[..n + 1]
  {
  }

  lemma {:induction false} PendingNext(lens: seq<nat>, n: nat, next: nat, prev: int, count: nat, more: nat)
    requires CodeLens(lens) && n < |lens| && Pending(lens, n, prev, count) && next == n + 1 && more == count + 1
    ensures if more < MaxCount(prev, lens[n]) && lens[n] == NextLen(lens, n)
            then Pending(lens, next, prev, more) else Pending(lens, next, lens[n], 0)
  {
  }

  /** A run that is over is read back; `more` is count + 1. */
  lemma {:induction false} ReadRunBack(before: seq<nat>, lens: seq<nat>, n: nat, prev: int, count: nat, more: nat, start: nat, next: nat, total: nat)
    requires CodeLens(lens) && n < |lens| && Pending(lens, n, prev, count) && |before| + |lens| <= total
    requires more == count + 1 && n == start + count && next == n + 1
    requires !(more < MaxCount(prev, lens[n]) && lens[n] == NextLen(lens, n))
    ensures ReadItems(before + lens[..start], Items(lens, n, prev, count), total) ==
            ReadItems(before + lens[..next], Items(lens, next, lens[n], 0), total)
  {
    var have, run := before + lens[..start], RunItems(prev, lens[n], more);
    ReadRun(have, prev, lens[n], more, total);
    RunIs(lens, n, count, more);
    assert have + seq(more, _ => lens[n]) == before + lens[..next];
    ReadConcat(have, run, Items(lens, next, lens[n], 0), total);
  }

  /** The lengths before the run in progress, which began at `start`, have been read. */
  lemma {:induction false} ReadBack(before: seq<nat>, lens: seq<nat>, n: nat, prev: int, count: nat, start: nat, total: nat)
    requires CodeLens(lens) && Pending(lens, n, prev, count) && |before| + |lens| <= total && n == start + count
    ensures ReadItems(before + lens[..start], Items(lens, n, prev, count), total) == Lens(before + lens)
    decreases |lens| - n
  {
    if n == |lens| {
      assert lens[..start] == lens;
    } else {
      var cur := lens[n];
      PendingNext(lens, n, n + 1, prev, count, count + 1);
      if count + 1 < MaxCount(prev, cur) && cur == NextLen(lens, n) {
        ReadBack(before, lens, n + 1, prev, count + 1, start, total);
      } else {
        ReadRunBack(before, lens, n, prev, count, count + 1, start, n + 1, total);
        ReadBack(before, lens, n + 1, cur, 0, n + 1, total);
      }
    }
  }

  /** All items of a tree. */
  function TreeItems(lens: seq<nat>): seq<Item> { Items(lens, 0, -1, 0) }

  /** The two trees, sent one after the other, are read back as one array of lengths. */
  lemma {:induction false} TreesRoundTrip(llens: seq<nat>, dlens: seq<nat>)
    requires CodeLens(llens) && CodeLens(dlens)
    ensures ReadItems([], TreeItems(llens) + TreeItems(dlens), |llens| + |dlens|) == Lens(llens + dlens)
  {
    var total := |llens| + |dlens|;
    ReadBack([], llens, 0, -1, 0, 0, total);
    assert [] + llens[..0] == [] && [] + llens == llens;
    ReadConcat([], TreeItems(llens), TreeItems(dlens), total);
    ReadBack(llens, dlens, 0, -1, 0, 0, total);
    assert llens + dlens[..0] == llens;
  }
}
