/**
 `inflate_table` of inftrees.c: two-level decoding tables for a canonical code.

 The tables are proved against the codes of section 3.2.2 of RFC 1951 (module Huffman):
 looking up any bit string that begins with a symbol's codeword yields that symbol's
 entry and its code length.
 */
module InflateTable {
  import opened Bits
  import opened Huffman

  datatype Kind = CODES | LENS | DISTS

  /** op: 0 literal, 1..15 link to a sub-table of that many index bits, 16+x base value
      with x extra bits, 96 end of block, 64 and up otherwise invalid. */
  datatype Code = Code(op: nat, bits: nat, val: nat)

  const ENOUGH_LENS := 852
  const ENOUGH_DISTS := 592

  const LBASE: seq<nat> := [
    3, 4, 5, 6, 7, 8, 9, 10, 11, 13, 15, 17, 19, 23, 27, 31,
    35, 43, 51, 59, 67, 83, 99, 115, 131, 163, 195, 227, 258, 0, 0]
  const LEXT: seq<nat> := [
    16, 16, 16, 16, 16, 16, 16, 16, 17, 17, 17, 17, 18, 18, 18, 18,
    19, 19, 19, 19, 20, 20, 20, 20, 21, 21, 21, 21, 16, 199, 75]
  const DBASE: seq<nat> := [
    1, 2, 3, 4, 5, 7, 9, 13, 17, 25, 33, 49, 65, 97, 129, 193,
    257, 385, 513, 769, 1025, 1537, 2049, 3073, 4097, 6145,
    8193, 12289, 16385, 24577, 0, 0]
  const DEXT: seq<nat> := [
    16, 16, 16, 16, 17, 17, 18, 18, 19, 19, 20, 20, 21, 21, 22, 22,
    23, 23, 24, 24, 25, 25, 26, 26, 27, 27,
    28, 28, 29, 29, 64, 64]

  const INVALID := Code(64, 1, 0)

  /** Largest number of symbols each kind of code has. */
  function MaxSymbols(kind: Kind): nat
  {
    match kind case CODES => 19 case LENS => 288 case DISTS => 32
  }

  /** What the entry of a symbol says besides its length. */
  function Entry(kind: Kind, sym: nat, bits: nat): (e: Code)
    requires sym < MaxSymbols(kind)
    ensures e.op == 0 || e.op >= 16
    ensures e.bits == bits
  {
    match kind
    case CODES => Code(0, bits, sym)
    case LENS =>
      if sym < 256 then Code(0, bits, sym)
      else if sym == 256 then Code(96, bits, 0)
      else Code(LEXT[sym - 257], bits, LBASE[sym - 257])
    case DISTS => Code(DEXT[sym], bits, DBASE[sym])
  }

  /** How inflate uses the tables: index with `root` bits, follow at most one link.  `bits`
      of the result is the number of bits the symbol takes. */
  function Lookup(t: seq<Code>, root: nat, s: BitString): Code
  {
    if root <= |s| && Val(s[..root]) < |t| then
      var e := t[Val(s[..root])];
      if e.op == 0 || e.op >= 16 then e
      else if e.bits + e.op <= |s| && e.val + Val(s[e.bits..e.bits + e.op]) < |t| then
        var f := t[e.val + Val(s[e.bits..e.bits + e.op])];
        Code(f.op, e.bits + f.bits, f.val)
      else INVALID
    else INVALID
  }

  /** The look-up stays inside the table. */
  predicate Inside(t: seq<Code>, root: nat, s: BitString)
  {
    && root <= |s| && Val(s[..root]) < |t|
    && var e := t[Val(s[..root])];
       e.op == 0 || e.op >= 16 || (e.bits == root && root + e.op <= |s| && e.val + Val(s[root..root + e.op]) < |t|)
  }

  /** No entry of the table leads to a second one. */
  ghost predicate OneLevel(t: seq<Code>) { forall i :: 0 <= i < |t| ==> t[i].op == 0 || t[i].op >= 16 }

  ghost predicate Found(t: seq<Code>, root: nat, s: BitString, want: Code)
  {
    Lookup(t, root, s) == want && Inside(t, root, s)
  }

  /** Every string that begins with the symbol's codeword is looked up correctly. */
  ghost predicate Answers(t: seq<Code>, root: nat, kind: Kind, lens: seq<nat>, sym: nat)
    requires sym < |lens| <= MaxSymbols(kind)
  {
    forall s: BitString {:trigger Found(t, root, s, Entry(kind, sym, lens[sym]))} ::
      |s| == MAX_BITS && Codeword(lens, sym) <= s ==> Found(t, root, s, Entry(kind, sym, lens[sym]))
  }

  // ----- counting and sorting -----

  method CountLens(lens: seq<nat>) returns (count: seq<nat>)
    requires ValidLens(lens)
    ensures |count| == MAX_BITS + 1
    ensures forall l :: 0 <= l <= MAX_BITS ==> count[l] == Count(lens, l)
  {
    count := seq(MAX_BITS + 1, _ => 0);
    var sym := 0;
    while sym < |lens|
      invariant 0 <= sym <= |lens| && |count| == MAX_BITS + 1
      invariant forall l :: 0 <= l <= MAX_BITS ==> count[l] == Count(lens[..sym], l)
    {
      count := count[lens[sym] := count[lens[sym]] + 1];
      assert lens[..sym + 1][..sym] == lens[..sym];
      sym := sym + 1;
    }
    assert lens[..|lens|] == lens;
  }

  /** Number of symbols with lengths 1..l-1: where length l starts in the sorted table. */
  ghost function Off(lens: seq<nat>, l: nat): nat
  {
    if l <= 1 then 0 else Off(lens, l - 1) + Count(lens, l - 1)
  }

  /** Where the counting sort puts a symbol. */
  ghost function Rank(lens: seq<nat>, sym: nat): nat
    requires sym < |lens|
  {
    Off(lens, lens[sym]) + Count(lens[..sym], lens[sym])
  }

  lemma {:induction false} OffMono(lens: seq<nat>, l: nat, m: nat)
    requires 1 <= l < m
    ensures Off(lens, l) + Count(lens, l) <= Off(lens, m)
    decreases m
  {
    if l < m - 1 {
      OffMono(lens, l, m - 1);
    }
  }

  lemma {:induction false} OffAdd(lens: seq<nat>, l: nat, n: nat)
    requires lens != [] && n == |lens| - 1
    ensures Off(lens, l) == Off(lens[..n], l) + (if 1 <= lens[n] < l then 1 else 0)
  {
    if l > 1 {
      OffAdd(lens, l - 1, n);
    }
  }

  lemma {:induction false} OffTotal(lens: seq<nat>, l: nat)
    ensures Off(lens, l) <= |lens|
  {
    if lens == [] {
      NoSymbols(l);
    } else {
      OffAdd(lens, l, |lens| - 1);
      OffTotal(lens[..|lens| - 1], l);
    }
  }

  lemma {:induction false} NoSymbols(l: nat)
    ensures Off([], l) == 0
  {
    if l > 1 {
      NoSymbols(l - 1);
    }
  }

  lemma {:induction false} RankBounds(lens: seq<nat>, sym: nat)
    requires Used(lens, sym)
    ensures Off(lens, lens[sym]) <= Rank(lens, sym) < Off(lens, lens[sym]) + Count(lens, lens[sym]) <= |lens|
  {
    RankBelowCount(lens, sym);
    OffTotal(lens, lens[sym] + 1);
  }

  lemma {:induction false} RankInjective(lens: seq<nat>, a: nat, b: nat)
    requires Used(lens, a) && Used(lens, b) && a != b
    ensures Rank(lens, a) != Rank(lens, b)
  {
    RankBounds(lens, a);
    RankBounds(lens, b);
    if lens[a] < lens[b] {
      OffMono(lens, lens[a], lens[b]);
    } else if lens[b] < lens[a] {
      OffMono(lens, lens[b], lens[a]);
    } else {
      var x, y := if a < b then a else b, if a < b then b else a;
      assert lens[..x + 1][..x] == lens[..x];
      CountPrefix(lens, x + 1, y, lens[x]);
    }
  }

  ghost predicate Sorted(lens: seq<nat>, work: seq<nat>)
  {
    && |work| == |lens|
    && forall i :: Used(lens, i) ==> Placed(lens, work, i)
  }

  method Offsets(lens: seq<nat>, count: seq<nat>) returns (offs: seq<nat>)
    requires |count| == MAX_BITS + 1
    requires forall l :: 0 <= l <= MAX_BITS ==> count[l] == Count(lens, l)
    ensures |offs| == MAX_BITS + 1
    ensures forall l :: 1 <= l <= MAX_BITS ==> offs[l] == Off(lens, l)
  {
    offs := seq(MAX_BITS + 1, _ => 0);
    var len := 1;
    while len < MAX_BITS
      invariant 1 <= len <= MAX_BITS && |offs| == MAX_BITS + 1
      invariant forall l :: 1 <= l <= len ==> offs[l] == Off(lens, l)
    {
      offs := offs[len + 1 := offs[len] + count[len]];
      len := len + 1;
    }
  }

  ghost predicate Placed(lens: seq<nat>, work: seq<nat>, i: nat)
    requires i < |lens|
  {
    Rank(lens, i) < |work| && work[Rank(lens, i)] == i
  }

  lemma {:induction false} PlaceKeeps(lens: seq<nat>, work: seq<nat>, sym: nat)
    requires Used(lens, sym) && |work| == |lens|
    ensures Rank(lens, sym) < |work|
    ensures Placed(lens, work[Rank(lens, sym) := sym], sym)
    ensures forall i :: Used(lens, i) && i != sym && Placed(lens, work, i) ==>
              Placed(lens, work[Rank(lens, sym) := sym], i)
  {
    RankBounds(lens, sym);
    forall i | Used(lens, i) && i != sym ensures Rank(lens, i) != Rank(lens, sym) {
      RankInjective(lens, i, sym);
    }
  }

  /** After the first `sym` symbols, offs[l] is the next free place of length l. */
  ghost predicate Offset(lens: seq<nat>, sym: nat, offs: seq<nat>)
    requires sym <= |lens|
  {
    && |offs| == MAX_BITS + 1
    && forall l :: 1 <= l <= MAX_BITS ==> offs[l] == Off(lens, l) + Count(lens[..sym], l)
  }

  lemma {:induction false} OffsetStep(lens: seq<nat>, sym: nat, offs: seq<nat>)
    requires sym < |lens| && lens[sym] <= MAX_BITS && Offset(lens, sym, offs)
    ensures lens[sym] == 0 ==> Offset(lens, sym + 1, offs)
    ensures lens[sym] != 0 ==>
              && offs[lens[sym]] == Rank(lens, sym)
              && Offset(lens, sym + 1, offs[lens[sym] := offs[lens[sym]] + 1])
  {
    assert lens[..sym + 1][..sym] == lens[..sym];
  }

  method SortSymbols(lens: seq<nat>, count: seq<nat>) returns (work: seq<nat>)
    requires ValidLens(lens) && |count| == MAX_BITS + 1
    requires forall l :: 0 <= l <= MAX_BITS ==> count[l] == Count(lens, l)
    ensures Sorted(lens, work)
  {
    var offs := Offsets(lens, count);
    work := seq(|lens|, _ => 0);
    var sym := 0;
    while sym < |lens|
      invariant 0 <= sym <= |lens| && |offs| == MAX_BITS + 1 && |work| == |lens|
      invariant Offset(lens, sym, offs)
      invariant forall i :: 0 <= i < sym && lens[i] != 0 ==> Placed(lens, work, i)
    {
      var l := lens[sym];
      OffsetStep(lens, sym, offs);
      if l != 0 {
        PlaceKeeps(lens, work, sym);
        work := work[offs[l] := sym];
        offs := offs[l := offs[l] + 1];
      }
      sym := sym + 1;
    }
  }

  // ----- acceptance of a set of lengths -----

  ghost predicate Unused(lens: seq<nat>, left: int, l: nat)
    requires l <= MAX_BITS
  {
    left * Width(l) == Pow2(MAX_BITS) - Kraft(lens, l)
  }

  lemma {:induction false} UnusedStep(lens: seq<nat>, left: int, l: nat)
    requires 1 <= l <= MAX_BITS && Unused(lens, left, l - 1)
    ensures Unused(lens, left * 2 - Count(lens, l), l)
    ensures left * 2 - Count(lens, l) < 0 ==> OverSubscribed(lens)
  {
    var c := Count(lens, l);
    WidthHalves(l);
    LeftStep(left, c, Width(l));
    if left * 2 - c < 0 {
      NegativeLeft(left * 2 - c, Width(l));
      KraftMono(lens, l, MAX_BITS);
    }
  }

  lemma {:induction false} LeftStep(a: int, c: int, w: int)
    ensures (a * 2 - c) * w == a * (2 * w) - c * w
  {
  }

  lemma {:induction false} NegativeLeft(a: int, w: int)
    requires a < 0 && w > 0
    ensures a * w < 0
  {
  }

  /** `left` counts the unused codes of the current length. */
  method CheckLens(lens: seq<nat>, count: seq<nat>) returns (left: int)
    requires |count| == MAX_BITS + 1
    requires forall l :: 0 <= l <= MAX_BITS ==> count[l] == Count(lens, l)
    ensures left < 0 <==> OverSubscribed(lens)
    ensures left >= 0 ==> left == Pow2(MAX_BITS) - Kraft(lens, MAX_BITS)
  {
    left := 1;
    var len := 1;
    while len <= MAX_BITS
      invariant 1 <= len <= MAX_BITS + 1
      invariant left >= 0 && Unused(lens, left, len - 1)
    {
      UnusedStep(lens, left, len);
      left := left * 2;
      left := left - count[len];
      if left < 0 { return; }
      len := len + 1;
    }
  }

  method LongestLength(count: seq<nat>) returns (max: nat)
    requires |count| == MAX_BITS + 1
    ensures max <= MAX_BITS
    ensures max != 0 ==> count[max] != 0
    ensures forall l :: max < l <= MAX_BITS ==> count[l] == 0
  {
    max := MAX_BITS;
    while max >= 1 && count[max] == 0
      invariant max <= MAX_BITS
      invariant forall l :: max < l <= MAX_BITS ==> count[l] == 0
    {
      max := max - 1;
    }
  }

  method ShortestLength(count: seq<nat>, max: nat) returns (min: nat)
    requires |count| == MAX_BITS + 1 && 1 <= max <= MAX_BITS && count[max] != 0
    ensures 1 <= min <= max && count[min] != 0
    ensures forall l :: 1 <= l < min ==> count[l] == 0
  {
    min := 1;
    while min < max && count[min] == 0
      invariant 1 <= min <= max
      invariant forall l :: 1 <= l < min ==> count[l] == 0
    {
      min := min + 1;
    }
  }

  // ----- the backward increment -----

  /** The code after h, as a number, in the same length. */
  ghost function Successor(h: BitString): BitString { BigBits(Big(h) + 1, |h|) }

  ghost predicate AllOnes(s: BitString) { forall i :: 0 <= i < |s| ==> s[i] }

  lemma {:induction false} OnesValue(s: BitString)
    ensures AllOnes(s) ==> Big(s) + 1 == Pow2(|s|)
    ensures !AllOnes(s) ==> Big(s) + 1 < Pow2(|s|)
  {
    if s != [] {
      OnesValue(s[..|s| - 1]);
    }
  }

  lemma {:induction false} CarryValue(a: BitString, ones: BitString)
    requires AllOnes(ones)
    ensures Big(a + [true] + Zeros(|ones|)) == Big(a + [false] + ones) + 1
  {
    BigConcat(a + [false], ones);
    BigConcat(a + [true], Zeros(|ones|));
    OnesValue(ones);
    ZerosAreZero(|ones|);
    assert (a + [false])[..|a|] == a == (a + [true])[..|a|];
    var x, w := Big(a + [false]), Pow2(|ones|);
    assert Big(a + [true]) == x + 1;
    Distribute(x, 1, w);
  }

  lemma {:induction false} SuccessorShape(h: BitString, e: nat)
    requires e < |h| && !h[e] && AllOnes(h[e + 1..])
    ensures Successor(h) == h[..e] + [true] + Zeros(|h| - e - 1)
  {
    var t := h[..e] + [true] + Zeros(|h| - e - 1);
    assert h == h[..e] + [false] + h[e + 1..];
    CarryValue(h[..e], h[e + 1..]);
    BigBound(t);
    BigBigBits(Big(t), |h|);
    BigInjective(t, Successor(h));
  }

  lemma {:induction false} CarryIndex(h: BitString, e: nat)
    requires e < |h| && !h[e] && AllOnes(h[e + 1..])
    ensures Val(Successor(h)) == Val(h[..e]) + Pow2(e)
  {
    SuccessorShape(h, e);
    ValConcat(h[..e] + [true], Zeros(|h| - e - 1));
    ValConcat(h[..e], [true]);
    assert Val([true]) == 1;
    ZerosAreZero(|h| - e - 1);
  }

  /** Scan down from the top bit of the code for a zero. */
  method TopZero(huff: nat, len: nat, ghost h: BitString) returns (e: int)
    requires 1 <= len == |h| && huff == Val(h)
    ensures -1 <= e < len && AllOnes(h[e + 1..]) && (e >= 0 ==> !h[e])
  {
    e := len - 1;
    while e >= 0 && (huff / Pow2(e)) % 2 == 1
      invariant -1 <= e < len
      invariant AllOnes(h[e + 1..])
      decreases e
    {
      BitAt(h, e);
      assert h[e..] == [h[e]] + h[e + 1..];
      e := e - 1;
    }
    if e >= 0 {
      BitAt(h, e);
    }
  }

  /** huff is the code, first bit least significant. */
  method NextCode(huff: nat, len: nat, ghost h: BitString) returns (huff': nat)
    requires 1 <= len == |h| && huff == Val(h)
    ensures AllOnes(h) ==> huff' == 0
    ensures !AllOnes(h) ==> huff' == Val(Successor(h))
  {
    var e := TopZero(huff, len, h);
    if e >= 0 {
      huff' := huff % Pow2(e) + Pow2(e);
      ValSplit(h, e);
      CarryIndex(h, e);
    } else {
      assert h[0..] == h;
      huff' := 0;
    }
  }

  lemma {:induction false} BitAt(h: BitString, e: nat)
    requires e < |h|
    ensures ((Val(h) / Pow2(e)) % 2 == 1) == h[e]
    ensures Val(h) % Pow2(e) == Val(h[..e])
  {
    ValSplit(h, e);
    assert h[e..][0] == h[e];
    OddBit(Val(h) / Pow2(e), h[e], Val(h[e..][1..]));
  }

  lemma {:induction false} OddBit(v: nat, b: bool, rest: nat)
    requires v == Bit(b) + 2 * rest
    ensures (v % 2 == 1) == b
  {
  }

  // ----- what the table holds -----

  /** Current table: 2^curr entries at nx; `low` is the root slot that links to it. */
  ghost predicate LinkOk(e: Code, slot: nat, root: nat, nx: nat, curr: nat, low: nat)
  {
    && 1 <= e.op && root + e.op <= MAX_BITS && e.bits == root && Pow2(root) <= e.val
    && (e.val + Pow2(e.op) <= nx || (e == Code(curr, root, nx) && slot == low))
  }

  /** The string leads through a link to the entry. */
  ghost predicate FindsSub(t: seq<Code>, root: nat, want: Code, nx: nat, curr: nat, low: nat, s: BitString)
    requires |s| == MAX_BITS && root <= MAX_BITS && Val(s[..root]) < |t|
  {
    var e := t[Val(s[..root])];
    && LinkOk(e, Val(s[..root]), root, nx, curr, low)
    && e.val + Val(s[root..root + e.op]) < |t|
    && t[e.val + Val(s[root..root + e.op])] == want
  }

  /** The entry the string s leads to is the symbol's. */
  ghost predicate Finds(t: seq<Code>, root: nat, info: seq<Code>, lens: seq<nat>, x: nat,
                        nx: nat, curr: nat, low: nat, s: BitString)
    requires x < |lens| == |info| && |s| == MAX_BITS && root <= MAX_BITS
  {
    && Val(s[..root]) < |t|
    && (if lens[x] <= root then t[Val(s[..root])] == info[x].(bits := lens[x])
        else FindsSub(t, root, info[x].(bits := lens[x] - root), nx, curr, low, s))
  }

  ghost predicate InTable(t: seq<Code>, root: nat, info: seq<Code>, lens: seq<nat>, x: nat, nx: nat, curr: nat, low: nat)
    requires x < |lens| == |info| && root <= MAX_BITS
  {
    forall s: BitString :: |s| == MAX_BITS && Codeword(lens, x) <= s ==> Finds(t, root, info, lens, x, nx, curr, low, s)
  }

  /** Index i agrees with the code in its low bits. */
  ghost predicate Replica(i: int, step: nat, low: nat)
    requires step > 0
  {
    i % step == low
  }

  /** The slots of the current table from `fill` up are done. */
  ghost predicate FilledFrom(t: seq<Code>, t': seq<Code>, base: nat, size: nat, fill: nat, low: nat, step: nat, here: Code)
    requires step > 0
  {
    && |t'| == |t| && base + size <= |t|
    && forall i :: 0 <= i < |t| ==>
         t'[i] == if base + fill <= i < base + size && Replica(i - base, step, low) then here else t[i]
  }

  ghost predicate Filled(t: seq<Code>, t': seq<Code>, base: nat, curr: nat, low: nat, step: nat, here: Code)
    requires step > 0
  {
    FilledFrom(t, t', base, Pow2(curr), 0, low, step, here)
  }

  lemma {:induction false} ReplicaAt(j: nat, f: nat, q: nat, low: nat, step: nat)
    requires low < step && f == step * q && f <= j < f + step
    ensures Replica(j, step, low) <==> j == f + low
  {
    DivModUnique(j, step, q, j - f);
  }

  lemma {:induction false} FillStep(t: seq<Code>, t': seq<Code>, base: nat, size: nat, f: nat, q: nat, low: nat, step: nat, here: Code)
    requires low < step && f == step * q && f + step <= size
    requires FilledFrom(t, t', base, size, f + step, low, step, here)
    ensures FilledFrom(t, t'[base + low + f := here], base, size, f, low, step, here)
  {
    var t'' := t'[base + low + f := here];
    forall i | 0 <= i < |t|
      ensures t''[i] == if base + f <= i < base + size && Replica(i - base, step, low) then here else t[i]
    {
      if base + f <= i < base + f + step {
        ReplicaAt(i - base, f, q, low, step);
      }
    }
  }

  /** Replicate the entry through the current table, from the top down. */
  method Fill(table: array<Code>, base: nat, curr: nat, low: nat, m: nat, here: Code)
    requires m <= curr && low < Pow2(m) && base + Pow2(curr) <= table.Length
    modifies table
    ensures Filled(old(table[..]), table[..], base, curr, low, Pow2(m), here)
  {
    var incr := Pow2(m);
    var fill := Pow2(curr);
    Pow2Add(m, curr - m);
    ghost var q := Pow2(curr - m);
    while fill != 0
      invariant fill == incr * q && fill <= Pow2(curr)
      invariant FilledFrom(old(table[..]), table[..], base, Pow2(curr), fill, low, incr, here)
      decreases fill
    {
      ghost var t := table[..];
      q := q - 1;
      fill := fill - incr;
      FillStep(old(table[..]), t, base, Pow2(curr), fill, q, low, incr, here);
      table[base + low + fill] := here;
      assert table[..] == t[base + low + fill := here];
    }
  }

  // ----- one code entered in the root table -----

  lemma {:induction false} RootSlot(s: BitString, root: nat, l: nat)
    requires l <= root <= |s|
    ensures Val(s[..root]) < Pow2(root)
    ensures Val(s[..root]) % Pow2(l) == Val(s[..l])
  {
    ValBound(s[..root]);
    ValSplit(s[..root], l);
    assert s[..root][..l] == s[..l];
  }

  lemma {:induction false} RootFillSets(t: seq<Code>, t': seq<Code>, root: nat, info: seq<Code>, lens: seq<nat>, y: nat, low: nat)
    requires Used(lens, y) && |lens| == |info| && lens[y] <= root <= MAX_BITS
    requires Filled(t, t', 0, root, Val(Codeword(lens, y)), Pow2(lens[y]), info[y].(bits := lens[y]))
    ensures InTable(t', root, info, lens, y, 0, root, low)
  {
    forall s: BitString | |s| == MAX_BITS && Codeword(lens, y) <= s
      ensures Finds(t', root, info, lens, y, 0, root, low, s)
    {
      RootSlot(s, root, lens[y]);
      assert s[..lens[y]] == Codeword(lens, y);
      assert Replica(Val(s[..root]) - 0, Pow2(lens[y]), Val(Codeword(lens, y)));
    }
  }

  lemma {:induction false} RootFillKeeps(t: seq<Code>, t': seq<Code>, root: nat, info: seq<Code>, lens: seq<nat>, x: nat, y: nat, low: nat)
    requires ValidLens(lens) && !OverSubscribed(lens) && |lens| == |info| && root <= MAX_BITS
    requires Used(lens, x) && Used(lens, y) && x != y && lens[x] <= root && lens[y] <= root
    requires InTable(t, root, info, lens, x, 0, root, low)
    requires Filled(t, t', 0, root, Val(Codeword(lens, y)), Pow2(lens[y]), info[y].(bits := lens[y]))
    ensures InTable(t', root, info, lens, x, 0, root, low)
  {
    forall s: BitString | |s| == MAX_BITS && Codeword(lens, x) <= s
      ensures Finds(t', root, info, lens, x, 0, root, low, s)
    {
      assert Finds(t, root, info, lens, x, 0, root, low, s);
      RootSlot(s, root, lens[y]);
      if Replica(Val(s[..root]) - 0, Pow2(lens[y]), Val(Codeword(lens, y))) {
        ValInjective(s[..lens[y]], Codeword(lens, y));
        PrefixFree(lens, x, y, s);
      }
    }
  }

  // ----- one code entered in a sub-table -----

  lemma {:induction false} SubSlot(s: BitString, root: nat, curr: nat, l: nat)
    requires root <= l <= root + curr <= |s|
    ensures Val(s[root..root + curr]) < Pow2(curr)
    ensures Val(s[root..root + curr]) % Pow2(l - root) == Val(s[root..l])
  {
    var u := s[root..root + curr];
    ValBound(u);
    ValSplit(u, l - root);
    assert u[..l - root] == s[root..l];
  }

  lemma {:induction false} SubFillSets(t: seq<Code>, t': seq<Code>, root: nat, info: seq<Code>, lens: seq<nat>, y: nat,
                    nx: nat, curr: nat, low: nat)
    requires Used(lens, y) && |lens| == |info| && root < lens[y] <= root + curr <= MAX_BITS
    requires low == Val(Codeword(lens, y)[..root]) < Pow2(root) <= nx && nx + Pow2(curr) <= |t|
    requires t[low] == Code(curr, root, nx)
    requires Filled(t, t', nx, curr, Val(Codeword(lens, y)[root..]), Pow2(lens[y] - root), info[y].(bits := lens[y] - root))
    ensures InTable(t', root, info, lens, y, nx, curr, low)
  {
    var h, l := Codeword(lens, y), lens[y];
    forall s: BitString | |s| == MAX_BITS && h <= s
      ensures Finds(t', root, info, lens, y, nx, curr, low, s)
    {
      assert s[..l] == h && s[..root] == h[..root] && s[root..l] == h[root..];
      SubSlot(s, root, curr, l);
      var j := nx + Val(s[root..root + curr]);
      assert Replica(j - nx, Pow2(l - root), Val(h[root..]));
      assert t'[low] == t[low] && t'[j] == info[y].(bits := l - root);
    }
  }

  lemma {:induction false} SubFillKeeps(t: seq<Code>, t': seq<Code>, root: nat, info: seq<Code>, lens: seq<nat>, x: nat, y: nat,
                     nx: nat, curr: nat, low: nat)
    requires ValidLens(lens) && !OverSubscribed(lens) && |lens| == |info|
    requires Used(lens, x) && Used(lens, y) && x != y && root < lens[y] <= root + curr <= MAX_BITS
    requires low == Val(Codeword(lens, y)[..root]) && Pow2(root) <= nx
    requires InTable(t, root, info, lens, x, nx, curr, low)
    requires Filled(t, t', nx, curr, Val(Codeword(lens, y)[root..]), Pow2(lens[y] - root), info[y].(bits := lens[y] - root))
    ensures InTable(t', root, info, lens, x, nx, curr, low)
  {
    forall s: BitString | |s| == MAX_BITS && Codeword(lens, x) <= s
      ensures Finds(t', root, info, lens, x, nx, curr, low, s)
    {
      if Codeword(lens, y) <= s {
        PrefixFree(lens, x, y, s);
      }
      SubFillMisses(t, t', root, info, lens, x, Codeword(lens, y), nx, curr, low, info[y].(bits := lens[y] - root), s);
    }
  }

  /** Within one sub-table another symbol's string has an index that differs in the low bits. */
  lemma {:induction false} SubIndexDiffers(h: BitString, root: nat, curr: nat, s: BitString)
    requires root < |h| <= root + curr <= MAX_BITS
    requires |s| == MAX_BITS && !(h <= s) && Val(s[..root]) == Val(h[..root])
    ensures Val(s[root..root + curr]) < Pow2(curr)
    ensures !Replica(Val(s[root..root + curr]), Pow2(|h| - root), Val(h[root..]))
  {
    var l := |h|;
    SubSlot(s, root, curr, l);
    assert s[..l] == s[..root] + s[root..l] && h == h[..root] + h[root..];
    if Val(s[root..l]) == Val(h[root..]) {
      ValInjective(s[..root], h[..root]);
      ValInjective(s[root..l], h[root..]);
    }
  }

  lemma {:induction false} SubFillMisses(t: seq<Code>, t': seq<Code>, root: nat, info: seq<Code>, lens: seq<nat>, x: nat, h: BitString,
                      nx: nat, curr: nat, low: nat, here: Code, s: BitString)
    requires x < |lens| == |info| && root < |h| <= root + curr <= MAX_BITS
    requires low == Val(h[..root]) && Pow2(root) <= nx
    requires |s| == MAX_BITS && !(h <= s) && Finds(t, root, info, lens, x, nx, curr, low, s)
    requires Filled(t, t', nx, curr, Val(h[root..]), Pow2(|h| - root), here)
    ensures Finds(t', root, info, lens, x, nx, curr, low, s)
  {
    var i := Val(s[..root]);
    assert t'[i] == t[i] by {
      ValBound(s[..root]);
      OutsideFill(t, t', nx, curr, Val(h[root..]), Pow2(|h| - root), here, i);
    }
    if lens[x] > root {
      SubSlotMissed(h, root, curr, s, t[i], nx, low);
      StillFindsSub(t, t', root, info[x].(bits := lens[x] - root), nx, curr, low, s, Val(h[root..]), Pow2(|h| - root), here);
    }
  }

  lemma {:induction false} StillFindsSub(t: seq<Code>, t': seq<Code>, root: nat, want: Code, nx: nat, curr: nat, low: nat, s: BitString,
                      k: nat, step: nat, here: Code)
    requires |s| == MAX_BITS && root <= MAX_BITS && Val(s[..root]) < |t| && step > 0
    requires FindsSub(t, root, want, nx, curr, low, s) && Filled(t, t', nx, curr, k, step, here)
    requires t'[Val(s[..root])] == t[Val(s[..root])]
    requires var e := t[Val(s[..root])];
             var j := e.val + Val(s[root..root + e.op]); j < nx || !Replica(j - nx, step, k)
    ensures FindsSub(t', root, want, nx, curr, low, s)
  {
    var e := t[Val(s[..root])];
    OutsideFill(t, t', nx, curr, k, step, here, e.val + Val(s[root..root + e.op]));
  }

  lemma {:induction false} SubSlotMissed(h: BitString, root: nat, curr: nat, s: BitString, e: Code, nx: nat, low: nat)
    requires root < |h| <= root + curr <= MAX_BITS && |s| == MAX_BITS && !(h <= s)
    requires low == Val(h[..root]) && LinkOk(e, Val(s[..root]), root, nx, curr, low)
    ensures var j := e.val + Val(s[root..root + e.op]);
            j < nx || !Replica(j - nx, Pow2(|h| - root), Val(h[root..]))
  {
    if e.val + Pow2(e.op) <= nx {
      ValBound(s[root..root + e.op]);
    } else {
      SubIndexDiffers(h, root, curr, s);
    }
  }

  lemma {:induction false} OutsideFill(t: seq<Code>, t': seq<Code>, base: nat, curr: nat, low: nat, step: nat, here: Code, j: nat)
    requires step > 0 && Filled(t, t', base, curr, low, step, here) && j < |t|
    requires j < base || !Replica(j - base, step, low)
    ensures t'[j] == t[j]
  {
  }

  // ----- a new sub-table linked into the root table -----

  lemma {:induction false} LinkFindsSub(t: seq<Code>, root: nat, want: Code, nx: nat, curr: nat, low: nat, nx': nat, e: Code, low': nat,
                     s: BitString, i: nat, j: nat)
    requires root <= MAX_BITS == |s| && low' < Pow2(root) && low' < |t| && nx' == nx + Pow2(curr)
    requires i == Val(s[..root]) < |t| && i != low' && FindsSub(t, root, want, nx, curr, low, s)
    requires j == t[i].val + Val(s[root..root + t[i].op])
    ensures FindsSub(t[low' := e], root, want, nx', e.op, low', s)
  {
    OlderLink(t[i], i, root, nx, curr, low, nx', e.op, low');
    assert j >= Pow2(root) && t[low' := e][i] == t[i] && t[low' := e][j] == t[j];
  }

  lemma {:induction false} LinkFinds(t: seq<Code>, root: nat, info: seq<Code>, lens: seq<nat>, x: nat,
                  nx: nat, curr: nat, low: nat, nx': nat, e: Code, low': nat, s: BitString)
    requires x < |lens| == |info| && root <= MAX_BITS && |s| == MAX_BITS && low' < Pow2(root) && low' < |t|
    requires nx' == nx + Pow2(curr) && Pow2(root) <= nx'
    requires Finds(t, root, info, lens, x, nx, curr, low, s) && Val(s[..root]) != low'
    ensures Finds(t[low' := e], root, info, lens, x, nx', e.op, low', s)
  {
    if lens[x] > root {
      var i := Val(s[..root]);
      LinkFindsSub(t, root, info[x].(bits := lens[x] - root), nx, curr, low, nx', e, low', s,
                   i, t[i].val + Val(s[root..root + t[i].op]));
    }
  }

  lemma {:induction false} OlderLink(f: Code, i: nat, root: nat, nx: nat, curr: nat, low: nat, nx': nat, curr': nat, low': nat)
    requires LinkOk(f, i, root, nx, curr, low) && nx' == nx + Pow2(curr)
    ensures LinkOk(f, i, root, nx', curr', low')
  {
  }

  lemma {:induction false} LinkKeeps(t: seq<Code>, root: nat, info: seq<Code>, lens: seq<nat>, x: nat,
                  nx: nat, curr: nat, low: nat, nx': nat, e: Code, low': nat)
    requires x < |lens| == |info| && root <= MAX_BITS && low' < Pow2(root) && low' < |t|
    requires nx' == nx + Pow2(curr) && Pow2(root) <= nx'
    requires InTable(t, root, info, lens, x, nx, curr, low)
    requires forall s: BitString :: |s| == MAX_BITS && Codeword(lens, x) <= s ==> Val(s[..root]) != low'
    ensures InTable(t[low' := e], root, info, lens, x, nx', e.op, low')
  {
    forall s: BitString | |s| == MAX_BITS && Codeword(lens, x) <= s
      ensures Finds(t[low' := e], root, info, lens, x, nx', e.op, low', s)
    {
      LinkFinds(t, root, info, lens, x, nx, curr, low, nx', e, low', s);
    }
  }

  // ----- progress through the sorted codes -----

  /** Codes before the r-th of length l. */
  ghost predicate Entered(lens: seq<nat>, x: nat, l: nat, r: nat)
  {
    Used(lens, x) && (lens[x] < l || (lens[x] == l && Count(lens[..x], l) < r))
  }

  ghost predicate AllEntered(t: seq<Code>, root: nat, info: seq<Code>, lens: seq<nat>, l: nat, r: nat,
                             nx: nat, curr: nat, low: nat)
    requires |lens| == |info| && root <= MAX_BITS
  {
    forall x :: Entered(lens, x, l, r) ==> InTable(t, root, info, lens, x, nx, curr, low)
  }

  /** y is the r-th symbol of length l. */
  ghost predicate IsCode(lens: seq<nat>, y: nat, l: nat, r: nat)
  {
    y < |lens| && 1 <= l <= MAX_BITS && lens[y] == l && Count(lens[..y], l) == r
  }

  lemma {:induction false} SameRank(lens: seq<nat>, x: nat, y: nat, l: nat, r: nat)
    requires IsCode(lens, x, l, r) && IsCode(lens, y, l, r)
    ensures x == y
  {
    if x != y {
      RankInjective(lens, x, y);
    }
  }

  lemma {:induction false} EnteredNext(lens: seq<nat>, y: nat, l: nat, r: nat, x: nat)
    requires IsCode(lens, y, l, r) && Entered(lens, x, l, r + 1)
    ensures Entered(lens, x, l, r) || x == y
  {
    if !Entered(lens, x, l, r) {
      SameRank(lens, x, y, l, r);
    }
  }

  /** The code y2 comes right after y: same length and next rank, or first of the next
      length in use. */
  ghost predicate Follows(lens: seq<nat>, y: nat, l: nat, r: nat, y2: nat, l2: nat, r2: nat)
  {
    && IsCode(lens, y, l, r) && IsCode(lens, y2, l2, r2)
    && (if r + 1 < Count(lens, l) then l2 == l && r2 == r + 1
        else l < l2 && r2 == 0 && forall m :: l < m < l2 ==> Count(lens, m) == 0)
  }

  lemma {:induction false} CountPositive(lens: seq<nat>, x: nat)
    requires x < |lens|
    ensures Count(lens, lens[x]) > 0
  {
    if x < |lens| - 1 {
      CountPositive(lens[..|lens| - 1], x);
    }
  }

  lemma {:induction false} EnteredCarries(lens: seq<nat>, y: nat, l: nat, r: nat, y2: nat, l2: nat, r2: nat, x: nat)
    requires Follows(lens, y, l, r, y2, l2, r2) && Entered(lens, x, l2, r2)
    ensures Entered(lens, x, l, r + 1)
  {
    RankBelowCount(lens, x);
    CountPositive(lens, x);
    RankBelowCount(lens, y);
  }

  /** Where the next code is in the sorted table. */
  lemma {:induction false} NextLength(lens: seq<nat>, l: nat, max: nat) returns (l2: nat)
    requires l < max && Count(lens, max) > 0
    ensures l < l2 <= max && Count(lens, l2) > 0 && Off(lens, l2) == Off(lens, l + 1)
    ensures forall m :: l < m < l2 ==> Count(lens, m) == 0
    decreases max - l
  {
    if Count(lens, l + 1) > 0 {
      l2 := l + 1;
    } else {
      l2 := NextLength(lens, l + 1, max);
    }
  }

  /** sorted[k] for the code of rank r among those of length l. */
  ghost predicate AtIndex(lens: seq<nat>, work: seq<nat>, k: nat, l: nat, r: nat)
  {
    k < |work| && k == Off(lens, l) + r && IsCode(lens, work[k], l, r)
  }

  lemma {:induction false} FindCode(lens: seq<nat>, work: seq<nat>, l: nat, r: nat)
    requires Sorted(lens, work) && 1 <= l <= MAX_BITS && r < Count(lens, l)
    ensures AtIndex(lens, work, Off(lens, l) + r, l, r)
  {
    var y := SymbolOfRank(lens, l, r);
    assert Placed(lens, work, y);
  }

  lemma {:induction false} Advance(lens: seq<nat>, work: seq<nat>, k: nat, l: nat, r: nat, max: nat)
    requires Sorted(lens, work) && AtIndex(lens, work, k, l, r)
    requires l <= max <= MAX_BITS && Count(lens, max) > 0 && (r + 1 < Count(lens, l) || l < max)
    ensures k + 1 < |work| && work[k + 1] < |lens| && lens[work[k + 1]] <= max
    ensures var l2 := lens[work[k + 1]]; var r2 := if r + 1 < Count(lens, l) then r + 1 else 0;
            && AtIndex(lens, work, k + 1, l2, r2)
            && Follows(lens, work[k], l, r, work[k + 1], l2, r2)
  {
    RankBelowCount(lens, work[k]);
    if r + 1 < Count(lens, l) {
      FindCode(lens, work, l, r + 1);
    } else {
      var l2 := NextLength(lens, l, max);
      FindCode(lens, work, l2, 0);
    }
  }

  // ----- codewords of consecutive codes -----

  lemma {:induction false} KraftGap(lens: seq<nat>, l: nat, l2: nat)
    requires l <= l2 <= MAX_BITS && forall m :: l < m <= l2 ==> Count(lens, m) == 0
    ensures Kraft(lens, l2) == Kraft(lens, l)
  {
    if l < l2 {
      KraftGap(lens, l, l2 - 1);
    }
  }

  lemma {:induction false} FirstCodeGap(lens: seq<nat>, l: nat, l2: nat)
    requires 1 <= l < l2 && forall m :: l < m < l2 ==> Count(lens, m) == 0
    ensures FirstCode(lens, l2) == (FirstCode(lens, l) + Count(lens, l)) * Pow2(l2 - l)
    decreases l2
  {
    if l + 1 < l2 {
      FirstCodeGap(lens, l, l2 - 1);
    }
    Doubled(FirstCode(lens, l) + Count(lens, l), l2 - l - 1);
  }

  lemma {:induction false} Doubled(x: nat, n: nat)
    ensures x * Pow2(n + 1) == 2 * (x * Pow2(n)) && Pow2(0) == 1
  {
  }

  lemma {:induction false} FollowsCode(lens: seq<nat>, y: nat, l: nat, r: nat, y2: nat, l2: nat, r2: nat)
    requires Follows(lens, y, l, r, y2, l2, r2)
    ensures CodeOf(lens, y2) == (CodeOf(lens, y) + 1) * Pow2(l2 - l)
  {
    if r + 1 < Count(lens, l) {
      assert Pow2(l2 - l) == 1;
    } else {
      RankBelowCount(lens, y);
      FirstCodeGap(lens, l, l2);
    }
  }

  lemma {:induction false} ShiftFits(c: nat, l: nat, g: nat, v: nat)
    requires v == c * Pow2(g) && v < Pow2(l + g)
    ensures c < Pow2(l)
  {
    Pow2Add(l, g);
    Quotient(c, Pow2(l), Pow2(g));
  }

  lemma {:induction false} Quotient(c: nat, n: nat, g: nat)
    requires c * g < n * g
    ensures c < n
  {
    if n <= c {
      MulMono(g, n, c);
    }
  }

  lemma {:induction false} AppendZeros(a: BitString, n: nat)
    ensures Big(a + Zeros(n)) == Big(a) * Pow2(n) && Val(a + Zeros(n)) == Val(a)
  {
    BigConcat(a, Zeros(n));
    ValConcat(a, Zeros(n));
    ZerosAreZero(n);
  }

  lemma {:induction false} SuccessorValue(h: BitString, c: nat)
    requires c == Big(h) + 1 && c < Pow2(|h|)
    ensures !AllOnes(h) && Big(Successor(h)) == c
  {
    OnesValue(h);
    BigBigBits(c, |h|);
  }

  lemma {:induction false} IncrementShape(h: BitString, h2: BitString, c: nat, g: nat)
    requires |h2| == |h| + g && c == Big(h) + 1 && Big(h2) == c * Pow2(g)
    ensures !AllOnes(h)
    ensures h2 == Successor(h) + Zeros(g)
    ensures Val(h2) == Val(Successor(h))
  {
    assert c < Pow2(|h|) by {
      BigBound(h2);
      ShiftFits(c, |h|, g, Big(h2));
    }
    SuccessorValue(h, c);
    ShiftedValue(h2, Successor(h), g);
  }

  lemma {:induction false} ShiftedValue(h2: BitString, s: BitString, g: nat)
    requires |h2| == |s| + g && Big(h2) == Big(s) * Pow2(g)
    ensures h2 == s + Zeros(g) && Val(h2) == Val(s)
  {
    AppendZeros(s, g);
    BigInjective(h2, s + Zeros(g));
  }

  /** The next codeword is the increment of this one, zeros appended. */
  lemma {:induction false} FollowsCodeword(lens: seq<nat>, y: nat, l: nat, r: nat, y2: nat, l2: nat, r2: nat)
    requires Follows(lens, y, l, r, y2, l2, r2) && !OverSubscribed(lens)
    ensures !AllOnes(Codeword(lens, y))
    ensures Codeword(lens, y2) == Successor(Codeword(lens, y)) + Zeros(l2 - l)
    ensures Val(Codeword(lens, y2)) == Val(Successor(Codeword(lens, y)))
  {
    FollowsCode(lens, y, l, r, y2, l2, r2);
    CodeFits(lens, y);
    CodeFits(lens, y2);
    IncrementShape(Codeword(lens, y), Codeword(lens, y2), CodeOf(lens, y) + 1, l2 - l);
  }

  // ----- when a new sub-table starts -----

  /** If the root bits of consecutive codes differ (or the first had no more than root
      bits), the second starts exactly at the beginning of its root slot. */
  lemma {:induction false} NewSlotStart(lens: seq<nat>, y: nat, l: nat, r: nat, y2: nat, l2: nat, r2: nat, root: nat)
    requires Follows(lens, y, l, r, y2, l2, r2) && !OverSubscribed(lens)
    requires root < l2 && (root < l ==> Codeword(lens, y)[..root] != Codeword(lens, y2)[..root])
    ensures Start(lens, y2) == Big(Codeword(lens, y2)[..root]) * Width(root)
  {
    var h, h2 := Codeword(lens, y), Codeword(lens, y2);
    FollowsCodeword(lens, y, l, r, y2, l2, r2);
    if l > root {
      assert h2[..root] == Successor(h)[..root];
      SuccessorChangesPrefix(h, root);
    }
    assert h2[root..] == Zeros(l2 - root);
    CodeFits(lens, y2);
    ZeroTailStart(h2, root);
  }

  lemma {:induction false} ZeroTailStart(h: BitString, root: nat)
    requires root <= |h| <= MAX_BITS && h[root..] == Zeros(|h| - root)
    ensures Big(h) * Width(|h|) == Big(h[..root]) * Width(root)
  {
    assert Big(h) == Big(h[..root]) * Pow2(|h| - root) by {
      assert h == h[..root] + Zeros(|h| - root);
      AppendZeros(h[..root], |h| - root);
    }
    assert Width(root) == Pow2(|h| - root) * Width(|h|) by {
      Pow2Add(|h| - root, MAX_BITS - |h|);
    }
    ScaleOut(Big(h), Big(h[..root]), Pow2(|h| - root), Width(|h|), Width(root));
  }

  lemma {:induction false} ScaleOut(h: nat, p: nat, g: nat, w: nat, b: nat)
    requires h == p * g && b == g * w
    ensures h * w == p * b
  {
    MulAssoc(p, g, w);
  }

  lemma {:induction false} MulAssoc(a: nat, b: nat, c: nat)
    ensures (a * b) * c == a * (b * c)
  {
  }

  lemma {:induction false} SuccessorKeepsPrefix(h: BitString, k: nat, e: nat)
    requires k <= e < |h| && !h[e] && AllOnes(h[e + 1..])
    ensures Successor(h)[..k] == h[..k]
  {
    SuccessorShape(h, e);
  }

  /** An increment that carries into the first k bits leaves zeros behind. */
  lemma {:induction false} SuccessorChangesPrefix(h: BitString, k: nat)
    requires k <= |h| && !AllOnes(h) && Successor(h)[..k] != h[..k]
    ensures Successor(h)[k..] == Zeros(|h| - k)
  {
    var e := LastZero(h);
    if k <= e {
      SuccessorKeepsPrefix(h, k, e);
    } else {
      SuccessorShape(h, e);
    }
  }

  lemma {:induction false} LastZero(h: BitString) returns (e: nat)
    requires !AllOnes(h)
    ensures e < |h| && !h[e] && AllOnes(h[e + 1..])
  {
    var n := |h| - 1;
    if !h[n] {
      e := n;
    } else {
      e := LastZero(h[..n]);
      assert h[e + 1..] == h[..n][e + 1..] + [h[n]];
    }
  }

  /** So no string of an entered code shares the new slot. */
  lemma {:induction false} SlotIsFresh(lens: seq<nat>, x: nat, y2: nat, root: nat, s: BitString)
    requires ValidLens(lens) && !OverSubscribed(lens)
    requires Used(lens, x) && Used(lens, y2) && Before(lens, x, y2) && root < lens[y2]
    requires Start(lens, y2) == Big(Codeword(lens, y2)[..root]) * Width(root)
    requires |s| == MAX_BITS && Codeword(lens, x) <= s
    ensures Val(s[..root]) != Val(Codeword(lens, y2)[..root])
  {
    if Val(s[..root]) == Val(Codeword(lens, y2)[..root]) {
      ValInjective(s[..root], Codeword(lens, y2)[..root]);
      PrefixIsInterval(lens, x, s);
      IntervalsOrdered(lens, x, y2);
      BigSplit(s, root);
    }
  }

  // ----- sizing a sub-table -----

  lemma {:induction false} SlotArith(h: nat, p: nat, u: nat, g: nat, w: nat, b: nat)
    requires h == p * g + u && u < g && b == g * w
    ensures p * b <= h * w && h * w + w <= p * b + b
  {
    Distribute(p * g, u, w);
    MulAssoc(p, g, w);
    RunEnds(w, u, g);
  }

  /** A code's interval lies inside the root slot named by its first root bits. */
  lemma {:induction false} StartInSlot(h: BitString, root: nat)
    requires root <= |h| <= MAX_BITS
    ensures Big(h[..root]) * Width(root) <= Big(h) * Width(|h|)
    ensures Big(h) * Width(|h|) + Width(|h|) <= Big(h[..root]) * Width(root) + Width(root)
  {
    BigSplit(h, root);
    Pow2Add(|h| - root, MAX_BITS - |h|);
    assert Width(root) == Pow2(|h| - root) * Width(|h|);
    SlotArith(Big(h), Big(h[..root]), Big(h[root..]), Pow2(|h| - root), Width(|h|), Width(root));
  }

  lemma {:induction false} CodeInSlot(lens: seq<nat>, y: nat, l: nat, r: nat, root: nat)
    requires IsCode(lens, y, l, r) && !OverSubscribed(lens) && root < l
    ensures Start(lens, y) + Width(l) <= Big(Codeword(lens, y)[..root]) * Width(root) + Width(root)
  {
    CodeFits(lens, y);
    StartInSlot(Codeword(lens, y), root);
  }

  /** Codes longer than root + curr start after the root slot p ends. */
  ghost predicate Roomy(lens: seq<nat>, root: nat, curr: nat, max: nat, p: nat)
  {
    root + curr == max || (root + curr < max <= MAX_BITS && Kraft(lens, root + curr) >= p * Width(root) + Width(root))
  }

  lemma {:induction false} KraftBelowStart(lens: seq<nat>, y: nat)
    requires Used(lens, y) && lens[y] <= MAX_BITS
    ensures Kraft(lens, lens[y] - 1) <= Start(lens, y)
  {
    StartBounds(lens, y);
  }

  lemma {:induction false} FitsSubTable(lens: seq<nat>, y: nat, l: nat, r: nat, root: nat, curr: nat, max: nat)
    requires IsCode(lens, y, l, r) && !OverSubscribed(lens) && root < l <= max <= MAX_BITS
    requires Roomy(lens, root, curr, max, Big(Codeword(lens, y)[..root]))
    ensures l <= root + curr
  {
    if root + curr < l {
      CodeInSlot(lens, y, l, r, root);
      KraftBelowStart(lens, y);
      KraftMono(lens, root + curr, l - 1);
    }
  }

  /** count holds the codes not yet entered. */
  ghost predicate Remaining(lens: seq<nat>, count: seq<nat>, l: nat, r: nat)
  {
    && |count| == MAX_BITS + 1 && 1 <= l <= MAX_BITS && r <= Count(lens, l)
    && count[l] == Count(lens, l) - r
    && forall m :: l < m <= MAX_BITS ==> count[m] == Count(lens, m)
  }

  /** Where the codes of length m end, counting from the r-th code of length l. */
  ghost function Tail(lens: seq<nat>, l: nat, r: nat, m: nat): nat
    requires 1 <= l <= MAX_BITS && m <= MAX_BITS
  {
    if m < l then Kraft(lens, l - 1) + r * Width(l) else Kraft(lens, m)
  }

  lemma {:induction false} TailStep(lens: seq<nat>, count: seq<nat>, l: nat, r: nat, m: nat)
    requires Remaining(lens, count, l, r) && l <= m <= MAX_BITS
    ensures Tail(lens, l, r, m) == Tail(lens, l, r, m - 1) + count[m] * Width(m)
  {
    if m == l {
      Distribute(r, count[l], Width(l));
    }
  }

  /** `left`: unused slots of the sub-table, at index width m - root. */
  ghost predicate LeftIs(lens: seq<nat>, l: nat, r: nat, root: nat, left: int, m: nat, upTo: nat)
    requires 1 <= l <= MAX_BITS && root <= m <= MAX_BITS && upTo <= MAX_BITS
  {
    left * Width(m) == Width(root) + Tail(lens, l, r, l - 1) - Tail(lens, l, r, upTo)
  }

  lemma {:induction false} LeftSubtract(lens: seq<nat>, count: seq<nat>, l: nat, r: nat, root: nat, left: int, m: nat)
    requires Remaining(lens, count, l, r) && root < l <= m <= MAX_BITS
    requires LeftIs(lens, l, r, root, left, m, m - 1)
    ensures LeftIs(lens, l, r, root, left - count[m], m, m)
    ensures left - count[m] <= 0 ==> Tail(lens, l, r, m) >= Width(root) + Tail(lens, l, r, l - 1)
  {
    TailStep(lens, count, l, r, m);
    DistributeMinus(left, count[m], Width(m));
    if left - count[m] <= 0 {
      NonPositive(left - count[m], Width(m));
    }
  }

  lemma {:induction false} LeftDouble(lens: seq<nat>, l: nat, r: nat, root: nat, left: int, m: nat)
    requires 1 <= l <= MAX_BITS && root <= m < MAX_BITS && LeftIs(lens, l, r, root, left, m, m)
    ensures LeftIs(lens, l, r, root, left * 2, m + 1, m)
  {
    WidthHalves(m + 1);
    LeftStep(left, 0, Width(m + 1));
  }

  /** Codes of lengths len to m - 1, counting from the r-th of length len. */
  ghost function Later(lens: seq<nat>, len: nat, r: nat, m: nat): int
  {
    if m <= len then 0 else Off(lens, m) - Off(lens, len) - r
  }

  /** A sub-table of index width m - root is being considered: no shorter one will do, and
      there are at least so many codes for it. */
  ghost predicate Sizing(lens: seq<nat>, len: nat, r: nat, root: nat, left: int, m: nat)
  {
    var range := 1 <= root < len <= m <= MAX_BITS;
    var slots := range && LeftIs(lens, len, r, root, left, m, m - 1);
    var wide := range && (m == len || Kraft(lens, m - 1) < Tail(lens, len, r, len - 1) + Width(root));
    var codes := range && Later(lens, len, r, m) + left >= Pow2(len - root) + (m - len);
    slots && wide && codes
  }

  /** This width will do: it is the least, and the codes for the slot are there. */
  ghost predicate Sized(lens: seq<nat>, len: nat, r: nat, root: nat, m: nat)
  {
    var range := 1 <= root < len <= m <= MAX_BITS;
    var wide := range && (m == len || Kraft(lens, m - 1) < Tail(lens, len, r, len - 1) + Width(root));
    var codes := range && Off(lens, len) + r + Pow2(len - root) + (m - len) <= Off(lens, MAX_BITS + 1);
    wide && codes
  }

  lemma {:induction false} StartSizing(lens: seq<nat>, len: nat, r: nat, root: nat)
    requires 1 <= root < len <= MAX_BITS
    ensures Sizing(lens, len, r, root, Pow2(len - root), len)
  {
    Pow2Add(len - root, MAX_BITS - len);
  }

  lemma {:induction false} LaterStep(lens: seq<nat>, count: seq<nat>, len: nat, r: nat, m: nat)
    requires Remaining(lens, count, len, r) && len <= m <= MAX_BITS
    ensures Later(lens, len, r, m + 1) == Later(lens, len, r, m) + count[m]
  {
  }

  lemma {:induction false} WiderSizing(lens: seq<nat>, count: seq<nat>, len: nat, r: nat, root: nat, left: int, m: nat)
    requires Remaining(lens, count, len, r) && Sizing(lens, len, r, root, left, m) && m < MAX_BITS && left - count[m] > 0
    ensures Sizing(lens, len, r, root, (left - count[m]) * 2, m + 1)
  {
    LeftSubtract(lens, count, len, r, root, left, m);
    LeftDouble(lens, len, r, root, left - count[m], m);
    LaterStep(lens, count, len, r, m);
    Positive(left - count[m], Width(m));
  }

  lemma {:induction false} Positive(a: int, w: nat)
    requires a > 0 && w > 0
    ensures a * w > 0
  {
  }

  lemma {:induction false} EnoughCodes(lens: seq<nat>, count: seq<nat>, len: nat, r: nat, root: nat, left: int, m: nat)
    requires Remaining(lens, count, len, r) && Sizing(lens, len, r, root, left, m) && left <= count[m]
    ensures Sized(lens, len, r, root, m)
  {
    LaterStep(lens, count, len, r, m);
    if m < MAX_BITS {
      OffMono(lens, m + 1, MAX_BITS + 1);
    }
  }

  /** The longest codes fill whatever is left. */
  lemma {:induction false} LongestFills(lens: seq<nat>, count: seq<nat>, len: nat, r: nat, root: nat, left: int, max: nat)
    requires Remaining(lens, count, len, r) && Sizing(lens, len, r, root, left, max)
    requires Kraft(lens, max) >= Tail(lens, len, r, len - 1) + Width(root)
    ensures left <= count[max]
  {
    TailStep(lens, count, len, r, max);
    AtMostAs(left, count[max], Width(max));
  }

  lemma {:induction false} AtMostAs(a: int, c: int, w: nat)
    requires a * w <= c * w && w > 0
    ensures a <= c
  {
    if a > c {
      DistributeMinus(a, c, w);
      Positive(a - c, w);
    }
  }

  method SubTableBits(lens: seq<nat>, count: seq<nat>, len: nat, root: nat, max: nat, ghost r: nat)
    returns (curr: nat)
    requires Remaining(lens, count, len, r) && 1 <= root < len <= max <= MAX_BITS
    requires Kraft(lens, max) >= Tail(lens, len, r, len - 1) + Width(root)
    ensures len <= root + curr <= max
    ensures root + curr < max ==> Kraft(lens, root + curr) >= Tail(lens, len, r, len - 1) + Width(root)
    ensures Sized(lens, len, r, root, root + curr)
  {
    curr := len - root;
    var left: int := Pow2(curr);
    StartSizing(lens, len, r, root);
    while curr + root < max
      invariant len <= curr + root <= max
      invariant Sizing(lens, len, r, root, left, root + curr)
      decreases max - curr
    {
      ghost var left0 := left;
      left := left - count[curr + root];
      if left <= 0 {
        SizeFound(lens, count, len, r, root, left0, root + curr);
        return;
      }
      WiderSizing(lens, count, len, r, root, left0, root + curr);
      curr := curr + 1;
      left := left * 2;
    }
    LongestFills(lens, count, len, r, root, left, max);
    EnoughCodes(lens, count, len, r, root, left, max);
  }

  lemma {:induction false} SizeFound(lens: seq<nat>, count: seq<nat>, len: nat, r: nat, root: nat, left: int, m: nat)
    requires Remaining(lens, count, len, r) && Sizing(lens, len, r, root, left, m) && left - count[m] <= 0
    ensures Kraft(lens, m) >= Tail(lens, len, r, len - 1) + Width(root) && Sized(lens, len, r, root, m)
  {
    LeftSubtract(lens, count, len, r, root, left, m);
    EnoughCodes(lens, count, len, r, root, left, m);
  }

  lemma {:induction false} DistributeMinus(a: int, b: int, w: int)
    ensures (a - b) * w == a * w - b * w
  {
  }

  lemma {:induction false} NonPositive(a: int, w: int)
    requires a <= 0 && w > 0
    ensures a * w <= 0
  {
  }

  // ----- how much space the tables take -----

  lemma {:induction false} PowAbove(x: nat)
    ensures Pow2(x) >= x + 1
  {
    if x > 0 {
      PowAbove(x - 1);
    }
  }

  /** 2^x - x: how far a sub-table of 2^x slots can outgrow its codes. */
  ghost function Gain(x: nat): (g: nat)
    ensures g >= 1 && Pow2(x) == g + x
  {
    PowAbove(x);
    Pow2(x) - x
  }

  lemma {:induction false} GainMono(x: nat, y: nat)
    requires x <= y
    ensures Gain(x) <= Gain(y)
  {
    if x < y {
      GainMono(x, y - 1);
    }
  }

  /** Slots of the sub-table after the code h, counted in its own length. */
  ghost function Rest(h: BitString, root: nat): int
    requires root <= |h|
  {
    Pow2(|h| - root) - 1 - Big(h[root..])
  }

  /** The space used so far is paid for by the k codes in sub-tables, those that the open
      sub-table is still bound to get, and the gain of its width. */
  ghost predicate Accounted(root: nat, curr: nat, used: nat, h: BitString, k: int)
    requires root <= |h|
  {
    var even := used % 2 == 0 && |h| <= root + curr;
    var bound := used + 1 <= Pow2(root) + k + Rest(h, root) + (root + curr - |h|) + Gain(curr);
    even && bound
  }

  /** The open sub-table is no wider than its longest code. */
  ghost predicate Reaches(lens: seq<nat>, root: nat, curr: nat, h: BitString)
    requires root <= |h| && root + curr <= MAX_BITS
  {
    |h| == root + curr || (root + curr >= 1 && Kraft(lens, root + curr - 1) < Big(h[..root]) * Width(root) + Width(root))
  }

  /** Space used when k codes have been entered or are about to be, the last of them y. */
  ghost predicate Spent(lens: seq<nat>, root: nat, curr: nat, used: nat, y: nat, k: nat)
  {
    && y < |lens| && 1 <= root
    && if lens[y] <= root then used == Pow2(root)
       else
         var h := Codeword(lens, y);
         root + curr <= MAX_BITS && Accounted(root, curr, used, h, k - Off(lens, root + 1)) && Reaches(lens, root, curr, h)
  }

  /** (p * m + b + 1) * g == p * (m * g) + c gives c. */
  lemma {:induction false} SlotStep(p: nat, m: nat, b: nat, g: nat, c: nat)
    requires (p * m + b + 1) * g == p * (m * g) + c
    ensures c == (b + 1) * g
  {
    Distribute(p * m, b + 1, g);
    MulAssoc(p, m, g);
  }

  lemma {:induction false} Shrinks(rho: nat, g: nat)
    requires rho >= 1
    ensures rho * Pow2(g) >= rho + g
  {
    PowAbove(g);
    MulMono(rho, g + 1, Pow2(g));
    Linear(rho, g);
  }

  lemma {:induction false} Linear(rho: nat, g: nat)
    requires rho >= 1
    ensures rho * (g + 1) >= rho + g
  {
    MulMono(g, 1, rho);
    Distribute(g, 1, rho);
  }

  lemma {:induction false} NextPlace(h: nat, h2: nat, p: nat, m: nat, b: nat, g: nat, c: nat, m2: nat)
    requires h == p * m + b && h2 == p * m2 + c && m2 == m * g && h2 == (h + 1) * g && b < m && c < m2
    ensures c == (b + 1) * g && m - 1 - b >= 1 && m2 - 1 - c == (m - 1 - b) * g - 1
  {
    SlotStep(p, m, b, g, c);
    Quotient(b + 1, m, g);
    DistributeMinus(m, b + 1, g);
  }

  lemma {:induction false} NextBits(h: BitString, h2: BitString, root: nat)
    requires root <= |h| <= |h2| && h2[..root] == h[..root] && Big(h2) == (Big(h) + 1) * Pow2(|h2| - |h|)
    ensures Rest(h2, root) == Rest(h, root) * Pow2(|h2| - |h|) - 1 && Rest(h, root) >= 1
  {
    var p, m, b := SlotParts(h, root);
    var p2, m2, c := SlotParts(h2, root);
    assert p2 == p;
    Pow2Add(|h| - root, |h2| - |h|);
    NextPlace(Big(h), Big(h2), p, m, b, Pow2(|h2| - |h|), c, m2);
  }

  /** Place of the next code in the same slot. */
  lemma {:induction false} NextInSlot(lens: seq<nat>, y: nat, l: nat, r: nat, y2: nat, l2: nat, r2: nat, root: nat)
    requires Follows(lens, y, l, r, y2, l2, r2) && !OverSubscribed(lens) && root < l
    requires Codeword(lens, y2)[..root] == Codeword(lens, y)[..root]
    ensures Rest(Codeword(lens, y2), root) == Rest(Codeword(lens, y), root) * Pow2(l2 - l) - 1 && Rest(Codeword(lens, y), root) >= 1
  {
    FollowsCode(lens, y, l, r, y2, l2, r2);
    CodeFits(lens, y);
    CodeFits(lens, y2);
    NextBits(Codeword(lens, y), Codeword(lens, y2), root);
  }

  /** A code as a number: its slot, and its place in the slot. */
  lemma {:induction false} SlotParts(h: BitString, root: nat) returns (p: nat, m: nat, b: nat)
    requires root <= |h|
    ensures p == Big(h[..root]) && m == Pow2(|h| - root) && b == Big(h[root..]) && Big(h) == p * m + b && b < m
    ensures Rest(h, root) == m - 1 - b
  {
    BigSplit(h, root);
    p, m, b := Big(h[..root]), Pow2(|h| - root), Big(h[root..]);
  }

  /** The next code goes into the open sub-table. */
  lemma {:induction false} StaysSpent(lens: seq<nat>, root: nat, curr: nat, used: nat, y: nat, l: nat, r: nat, y2: nat, l2: nat, r2: nat, k: nat)
    requires Follows(lens, y, l, r, y2, l2, r2) && !OverSubscribed(lens) && root < l && l2 <= root + curr
    requires Codeword(lens, y2)[..root] == Codeword(lens, y)[..root] && Spent(lens, root, curr, used, y, k)
    ensures Spent(lens, root, curr, used, y2, k + 1)
  {
    var h, h2 := Codeword(lens, y), Codeword(lens, y2);
    NextInSlot(lens, y, l, r, y2, l2, r2, root);
    Shrinks(Rest(h, root), l2 - l);
    assert Accounted(root, curr, used, h2, k + 1 - Off(lens, root + 1));
  }

  lemma {:induction false} OffStays(lens: seq<nat>, a: nat, b: nat)
    requires 1 <= a <= b && forall m :: a <= m < b ==> Count(lens, m) == 0
    ensures Off(lens, b) == Off(lens, a)
    decreases b
  {
    if a < b {
      OffStays(lens, a, b - 1);
    }
  }

  /** The last code of a slot ends where the slot ends. */
  lemma {:induction false} SlotFull(lens: seq<nat>, y: nat, l: nat, r: nat, y2: nat, l2: nat, r2: nat, root: nat)
    requires Follows(lens, y, l, r, y2, l2, r2) && !OverSubscribed(lens) && root < l
    requires Codeword(lens, y2)[..root] != Codeword(lens, y)[..root]
    ensures Rest(Codeword(lens, y), root) == 0
    ensures Start(lens, y) + Width(l) == Big(Codeword(lens, y)[..root]) * Width(root) + Width(root)
  {
    var h := Codeword(lens, y);
    FollowsCodeword(lens, y, l, r, y2, l2, r2);
    CodeFits(lens, y);
    assert Codeword(lens, y2)[..root] == Successor(h)[..root];
    CarryOut(h, root);
    SlotEnd(h, root);
  }

  lemma {:induction false} SlotEnd(h: BitString, root: nat)
    requires root <= |h| <= MAX_BITS && Rest(h, root) == 0
    ensures Big(h) * Width(|h|) + Width(|h|) == Big(h[..root]) * Width(root) + Width(root)
  {
    var p, m, b := SlotParts(h, root);
    Pow2Add(|h| - root, MAX_BITS - |h|);
    EndOfSlot(Big(h), p, m, Width(|h|), Width(root));
  }

  lemma {:induction false} CarryOut(h: BitString, root: nat)
    requires root <= |h| && !AllOnes(h) && Successor(h)[..root] != h[..root]
    ensures Rest(h, root) == 0
  {
    var s := Successor(h);
    SuccessorChangesPrefix(h, root);
    SuccessorValueIs(h);
    ZerosAreZero(|h| - root);
    var p, m, b := SlotParts(h, root);
    var q, m', b' := SlotParts(s, root);
    CarriedOut(p, q, b, m);
  }

  lemma {:induction false} SuccessorValueIs(h: BitString)
    requires !AllOnes(h)
    ensures Big(Successor(h)) == Big(h) + 1
  {
    OnesValue(h);
    BigBound(h);
    BigBigBits(Big(h) + 1, |h|);
  }

  lemma {:induction false} CarriedOut(p: nat, q: nat, b: nat, m: nat)
    requires b < m && q * m == p * m + b + 1
    ensures b + 1 == m
  {
    if q <= p {
      MulMono(m, q, p);
    } else {
      MulMono(m, p + 1, q);
      if q > p + 1 {
        MulMono(m, p + 2, q);
      }
    }
  }

  lemma {:induction false} EndOfSlot(h: nat, p: nat, m: nat, w: nat, width: nat)
    requires h + 1 == p * m + m && width == m * w
    ensures h * w + w == p * width + width
  {
    Distribute(h, 1, w);
    Distribute(p * m, m, w);
    MulAssoc(p, m, w);
  }

  /** A sub-table that is full has a code of its full width. */
  lemma {:induction false} FullReaches(lens: seq<nat>, root: nat, curr: nat, y: nat)
    requires Used(lens, y) && root < lens[y] <= root + curr <= MAX_BITS && Reaches(lens, root, curr, Codeword(lens, y))
    requires Start(lens, y) + Width(lens[y]) == Big(Codeword(lens, y)[..root]) * Width(root) + Width(root)
    ensures lens[y] == root + curr
  {
    if lens[y] < root + curr {
      StartBounds(lens, y);
      KraftMono(lens, lens[y], root + curr - 1);
    }
  }

  /** What a new sub-table adds is covered. */
  lemma {:induction false} NewAccount(root: nat, curr: nat, used: nat, k: int, a: nat, curr': nat, h2: BitString)
    requires root < |h2| && a == |h2| - root && a <= curr' && h2[root..] == Zeros(a) && curr' >= 1 && used % 2 == 0
    requires used + 1 <= Pow2(root) + k + Gain(a)
    ensures Accounted(root, curr', used + Pow2(curr'), h2, k + 1)
  {
    ZerosAreZero(a);
    assert Pow2(curr') == 2 * Pow2(curr' - 1);
  }

  /** The first sub-table: all codes before it are in the root table. */
  lemma {:induction false} FirstSpent(lens: seq<nat>, root: nat, curr: nat, used: nat, y: nat, l: nat, r: nat, y2: nat, l2: nat, r2: nat,
                                      k: nat, curr': nat)
    requires Follows(lens, y, l, r, y2, l2, r2) && l <= root < l2 <= root + curr'
    requires Spent(lens, root, curr, used, y, k) && k == Off(lens, l) + r + 1 && Codeword(lens, y2)[root..] == Zeros(l2 - root)
    ensures Accounted(root, curr', used + Pow2(curr'), Codeword(lens, y2), k + 1 - Off(lens, root + 1))
  {
    RankBelowCount(lens, y);
    OffStays(lens, l + 1, root + 1);
    assert Pow2(root) == 2 * Pow2(root - 1);
    NewAccount(root, curr, used, k - Off(lens, root + 1), l2 - root, curr', Codeword(lens, y2));
  }

  /** A further sub-table: the one before it is full. */
  lemma {:induction false} NextSpent(lens: seq<nat>, root: nat, curr: nat, used: nat, y: nat, l: nat, r: nat, y2: nat, l2: nat, r2: nat,
                                     k: nat, curr': nat)
    requires Follows(lens, y, l, r, y2, l2, r2) && !OverSubscribed(lens) && root < l && l2 <= root + curr'
    requires Codeword(lens, y2)[..root] != Codeword(lens, y)[..root]
    requires Spent(lens, root, curr, used, y, k) && Codeword(lens, y2)[root..] == Zeros(l2 - root)
    ensures Accounted(root, curr', used + Pow2(curr'), Codeword(lens, y2), k + 1 - Off(lens, root + 1))
  {
    SlotFull(lens, y, l, r, y2, l2, r2, root);
    FullReaches(lens, root, curr, y);
    GainMono(curr, l2 - root);
    FullAccount(root, curr, used, Codeword(lens, y), k - Off(lens, root + 1), l2 - root);
    NewAccount(root, curr, used, k - Off(lens, root + 1), l2 - root, curr', Codeword(lens, y2));
  }

  /** A full sub-table has nothing left over for its own codes. */
  lemma {:induction false} FullAccount(root: nat, curr: nat, used: nat, h: BitString, k: int, a: nat)
    requires root <= |h| == root + curr && Accounted(root, curr, used, h, k) && Rest(h, root) == 0 && Gain(curr) <= Gain(a)
    ensures used % 2 == 0 && used + 1 <= Pow2(root) + k + Gain(a)
  {
  }

  /** The next code opens a sub-table. */
  lemma {:induction false} OpensSpent(lens: seq<nat>, root: nat, curr: nat, used: nat, y: nat, l: nat, r: nat, y2: nat, l2: nat, r2: nat,
                                      k: nat, curr': nat)
    requires Follows(lens, y, l, r, y2, l2, r2) && !OverSubscribed(lens) && root < l2 <= root + curr' <= MAX_BITS
    requires root < l ==> Codeword(lens, y2)[..root] != Codeword(lens, y)[..root]
    requires Spent(lens, root, curr, used, y, k) && k == Off(lens, l) + r + 1
    requires Reaches(lens, root, curr', Codeword(lens, y2)) && Codeword(lens, y2)[root..] == Zeros(l2 - root)
    ensures Spent(lens, root, curr', used + Pow2(curr'), y2, k + 1)
  {
    if l <= root {
      FirstSpent(lens, root, curr, used, y, l, r, y2, l2, r2, k, curr');
    } else {
      NextSpent(lens, root, curr, used, y, l, r, y2, l2, r2, k, curr');
    }
  }

  /** Codes of lengths a + 1 to b are at most as wide as the shortest of them. */
  lemma {:induction false} LongCodes(lens: seq<nat>, a: nat, b: nat)
    requires a < b <= MAX_BITS
    ensures Off(lens, b + 1) >= Off(lens, a + 1)
    ensures Kraft(lens, b) <= Kraft(lens, a) + (Off(lens, b + 1) - Off(lens, a + 1)) * Width(a + 1)
    decreases b
  {
    var c, w := Count(lens, b), Width(a + 1);
    Pow2Mono(MAX_BITS - b, MAX_BITS - a - 1);
    MulMono(c, Width(b), w);
    if a + 1 < b {
      LongCodes(lens, a, b - 1);
      Distribute(Off(lens, b) - Off(lens, a + 1), c, w);
    }
  }

  /** The root widths that inflate asks for, with as many symbols as it allows. */
  ghost predicate Asked(kind: Kind, n: nat, bits: nat)
  {
    (kind.LENS? && n <= 286 && bits == 9) || (kind.DISTS? && n <= 30 && bits == 6)
  }

  lemma {:induction false} Widths()
    ensures Width(0) == 32768 && Width(1) == 16384 && Width(2) == 8192 && Width(7) == 256 && Width(10) == 32
  {
    Pow2Values();
    assert Pow2(5) == 32;
    assert Pow2(13) == 8192;
  }

  /** A complete code of so few symbols has a code of at most `bits` bits. */
  lemma {:induction false} ShortCodeExists(kind: Kind, lens: seq<nat>, bits: nat)
    requires Asked(kind, |lens|, bits) && Complete(lens)
    ensures exists l :: 1 <= l <= bits && Count(lens, l) > 0
  {
    if forall l :: 1 <= l <= bits ==> Count(lens, l) == 0 {
      KraftGap(lens, 0, bits);
      LongCodes(lens, bits, MAX_BITS);
      OffTotal(lens, MAX_BITS + 1);
      OffStays(lens, 1, bits + 1);
      Widths();
      Pow2Values();
    }
  }

  lemma {:induction false} TwoShort(k: nat, n: nat, t: nat)
    requires k <= n * 16384 && 32768 <= k + (t - n) * 32 && n <= t <= 286
    ensures n >= 2
  {
  }

  lemma {:induction false} ThreeShort(k: nat, c: nat, n: nat, t: nat)
    requires c * 16384 <= k < 32768 && k <= n * 16384 && k <= c * 16384 + (n - c) * 8192 && 32768 <= k + (t - n) * 256 && c <= n <= t <= 30
    ensures n >= 3
  {
  }

  /** If there are longer codes, at least two (or three) are short. */
  lemma {:induction false} ShortCodes(kind: Kind, lens: seq<nat>, bits: nat)
    requires Asked(kind, |lens|, bits) && Complete(lens) && Kraft(lens, bits) < Pow2(MAX_BITS)
    ensures Off(lens, bits + 1) >= if kind.LENS? then 2 else 3
  {
    var k, n, t := Kraft(lens, bits), Off(lens, bits + 1), Off(lens, MAX_BITS + 1);
    Widths();
    Pow2Values();
    FirstCodes(lens);
    LongCodes(lens, bits, MAX_BITS);
    OffTotal(lens, MAX_BITS + 1);
    LongCodes(lens, 0, bits);
    if kind.LENS? {
      TwoShort(k, n, t);
    } else {
      LongCodes(lens, 1, bits);
      KraftMono(lens, 1, bits);
      ThreeShort(k, Count(lens, 1), n, t);
    }
  }

  lemma {:induction false} FirstCodes(lens: seq<nat>)
    ensures Off(lens, 1) == 0 && Kraft(lens, 0) == 0 && Off(lens, 2) == Count(lens, 1) && Kraft(lens, 1) == Count(lens, 1) * Width(1)
  {
  }

  /** The space in use and the codes that pay for it. */
  lemma {:induction false} SpaceBound(lens: seq<nat>, root: nat, curr: nat, used: nat, y: nat, r: nat, k: nat)
    requires Used(lens, y) && 1 <= root < lens[y] && root + curr <= MAX_BITS
    requires Spent(lens, root, curr, used, y, k + 1) && k == Off(lens, lens[y]) + r && Sized(lens, lens[y], r, root, root + curr)
    requires Codeword(lens, y)[root..] == Zeros(lens[y] - root)
    ensures used % 2 == 0 && used + 1 <= Pow2(root) + (|lens| - Off(lens, root + 1)) + Gain(MAX_BITS - root)
  {
    ZerosAreZero(lens[y] - root);
    GainMono(curr, MAX_BITS - root);
    OffTotal(lens, MAX_BITS + 1);
  }

  /** ENOUGH is enough: with the widths that inflate asks for, the space never runs out. */
  lemma {:induction false} SpaceSuffices(kind: Kind, lens: seq<nat>, root: nat, curr: nat, used: nat, y: nat, r: nat, k: nat)
    requires Asked(kind, |lens|, root) && Complete(lens) && Used(lens, y) && root < lens[y] && root + curr <= MAX_BITS
    requires Spent(lens, root, curr, used, y, k + 1) && k == Off(lens, lens[y]) + r && Sized(lens, lens[y], r, root, root + curr)
    requires Codeword(lens, y)[root..] == Zeros(lens[y] - root)
    ensures used <= Capacity(kind, root)
  {
    SpaceBound(lens, root, curr, used, y, r, k);
    LongerExists(lens, root, y);
    ShortCodes(kind, lens, root);
    GainsAsked(kind, root);
    Numbers(kind, |lens|, root, used, Off(lens, root + 1), Pow2(root), Gain(MAX_BITS - root));
  }

  lemma {:induction false} AskedSuffices(kind: Kind, lens: seq<nat>, root: nat, curr: nat, used: nat, y: nat, r: nat, k: nat)
    requires Complete(lens) && Used(lens, y) && 1 <= root < lens[y] && root + curr <= MAX_BITS
    requires Spent(lens, root, curr, used, y, k + 1) && k == Off(lens, lens[y]) + r && Sized(lens, lens[y], r, root, root + curr)
    requires Codeword(lens, y)[root..] == Zeros(lens[y] - root)
    ensures Asked(kind, |lens|, root) ==> used <= Capacity(kind, root)
  {
    if Asked(kind, |lens|, root) {
      SpaceSuffices(kind, lens, root, curr, used, y, r, k);
    }
  }

  lemma {:induction false} GainsAsked(kind: Kind, root: nat)
    ensures (root == 9 ==> Pow2(root) == 512 && Gain(MAX_BITS - root) == 58) && (root == 6 ==> Pow2(root) == 64 && Gain(MAX_BITS - root) == 503)
  {
    Pow2Values();
    assert Pow2(6) == 64 && Pow2(9) == 512 by { assert Pow2(5) == 32; }
  }

  lemma {:induction false} Numbers(kind: Kind, n: nat, root: nat, used: nat, short: nat, slots: nat, gain: nat)
    requires Asked(kind, n, root) && used % 2 == 0 && used + 1 <= slots + (n - short) + gain
    requires short >= (if kind.LENS? then 2 else 3)
    requires (root == 9 ==> slots == 512 && gain == 58) && (root == 6 ==> slots == 64 && gain == 503)
    ensures used <= Capacity(kind, root)
  {
  }

  lemma {:induction false} LongerExists(lens: seq<nat>, root: nat, y: nat)
    requires Used(lens, y) && root < lens[y] <= MAX_BITS && Complete(lens)
    ensures Kraft(lens, root) < Pow2(MAX_BITS)
  {
    var l := lens[y];
    CountPositive(lens, y);
    Positive(Count(lens, l), Width(l));
    KraftMono(lens, root, l - 1);
    KraftMono(lens, l, MAX_BITS);
  }

  // ----- the filling loop -----

  const NO_SLOT := 0xffff_ffff

  ghost predicate SubTableOpen(t: seq<Code>, root: nat, lens: seq<nat>, max: nat, h: BitString,
                               curr: nat, low: nat, nx: nat)
  {
    && root <= |h| && root + curr <= MAX_BITS && low == Val(h[..root]) < |t|
    && t[low] == Code(curr, root, nx) && Pow2(root) <= nx
    && Roomy(lens, root, curr, max, Big(h[..root]))
  }

  /** About to enter code y, the r-th of length l. */
  ghost predicate LoopOk(t: seq<Code>, root: nat, info: seq<Code>, lens: seq<nat>, max: nat,
                         y: nat, l: nat, r: nat, curr: nat, drop: nat, low: nat, nx: nat)
  {
    && |lens| == |info| && 1 <= root && l <= max <= MAX_BITS && root <= max && IsCode(lens, y, l, r)
    && AllEntered(t, root, info, lens, l, r, nx, curr, low)
    && nx + Pow2(curr) <= |t|
    && (l <= root ==> drop == 0 && nx == 0 && curr == root && low == NO_SLOT)
    && (l > root ==> drop == root && SubTableOpen(t, root, lens, max, Codeword(lens, y), curr, low, nx))
  }

  lemma {:induction false} EnterRootCode(t: seq<Code>, t': seq<Code>, root: nat, info: seq<Code>, lens: seq<nat>, max: nat,
                      y: nat, l: nat, r: nat, low: nat)
    requires ValidLens(lens) && !OverSubscribed(lens)
    requires l <= root && LoopOk(t, root, info, lens, max, y, l, r, root, 0, low, 0)
    requires Filled(t, t', 0, root, Val(Codeword(lens, y)), Pow2(l), info[y].(bits := l))
    ensures AllEntered(t', root, info, lens, l, r + 1, 0, root, low)
  {
    forall x | Entered(lens, x, l, r + 1) ensures InTable(t', root, info, lens, x, 0, root, low) {
      EnteredNext(lens, y, l, r, x);
      if x == y {
        RootFillSets(t, t', root, info, lens, y, low);
      } else {
        RootFillKeeps(t, t', root, info, lens, x, y, low);
      }
    }
  }

  lemma {:induction false} EnterSubCode(t: seq<Code>, t': seq<Code>, root: nat, info: seq<Code>, lens: seq<nat>, max: nat,
                     y: nat, l: nat, r: nat, curr: nat, low: nat, nx: nat)
    requires ValidLens(lens) && !OverSubscribed(lens)
    requires root < l <= root + curr && LoopOk(t, root, info, lens, max, y, l, r, curr, root, low, nx)
    requires Filled(t, t', nx, curr, Val(Codeword(lens, y)[root..]), Pow2(l - root), info[y].(bits := l - root))
    ensures AllEntered(t', root, info, lens, l, r + 1, nx, curr, low)
    ensures low < |t'| && t'[low] == t[low]
  {
    ValBound(Codeword(lens, y)[..root]);
    forall x | Entered(lens, x, l, r + 1) ensures InTable(t', root, info, lens, x, nx, curr, low) {
      EnteredNext(lens, y, l, r, x);
      if x == y {
        SubFillSets(t, t', root, info, lens, y, nx, curr, low);
      } else {
        SubFillKeeps(t, t', root, info, lens, x, y, nx, curr, low);
      }
    }
  }

  lemma {:induction false} CarryEntered(t: seq<Code>, root: nat, info: seq<Code>, lens: seq<nat>, y: nat, l: nat, r: nat,
                     y2: nat, l2: nat, r2: nat, curr: nat, low: nat, nx: nat)
    requires |lens| == |info| && root <= MAX_BITS
    requires AllEntered(t, root, info, lens, l, r + 1, nx, curr, low) && Follows(lens, y, l, r, y2, l2, r2)
    ensures AllEntered(t, root, info, lens, l2, r2, nx, curr, low)
  {
    forall x | Entered(lens, x, l2, r2) ensures InTable(t, root, info, lens, x, nx, curr, low) {
      EnteredCarries(lens, y, l, r, y2, l2, r2, x);
    }
  }

  lemma {:induction false} LinkEntered(t: seq<Code>, root: nat, info: seq<Code>, lens: seq<nat>, y2: nat, l2: nat, r2: nat,
                    curr: nat, low: nat, nx: nat, curr': nat, low': nat, nx': nat)
    requires ValidLens(lens) && !OverSubscribed(lens) && |lens| == |info| && root < l2 <= MAX_BITS
    requires AllEntered(t, root, info, lens, l2, r2, nx, curr, low) && IsCode(lens, y2, l2, r2)
    requires Start(lens, y2) == Big(Codeword(lens, y2)[..root]) * Width(root)
    requires low' == Val(Codeword(lens, y2)[..root]) < |t| && nx' == nx + Pow2(curr) && Pow2(root) <= nx'
    ensures AllEntered(t[low' := Code(curr', root, nx')], root, info, lens, l2, r2, nx', curr', low')
  {
    ValBound(Codeword(lens, y2)[..root]);
    forall x | Entered(lens, x, l2, r2)
      ensures InTable(t[low' := Code(curr', root, nx')], root, info, lens, x, nx', curr', low')
    {
      EnteredIsBefore(lens, x, y2, l2, r2);
      forall s: BitString | |s| == MAX_BITS && Codeword(lens, x) <= s ensures Val(s[..root]) != low' {
        SlotIsFresh(lens, x, y2, root, s);
      }
      LinkKeeps(t, root, info, lens, x, nx, curr, low, nx', Code(curr', root, nx'), low');
    }
  }

  lemma {:induction false} EnteredIsBefore(lens: seq<nat>, x: nat, y: nat, l: nat, r: nat)
    requires Entered(lens, x, l, r) && IsCode(lens, y, l, r)
    ensures Before(lens, x, y)
  {
    if lens[x] == l && y <= x {
      CountPrefix(lens, y, x, l);
    }
  }

  /** A next code needs no new sub-table: it is short, or in the slot already open. */
  lemma {:induction false} KeepTable(t: seq<Code>, root: nat, info: seq<Code>, lens: seq<nat>, max: nat,
                  y: nat, l: nat, r: nat, y2: nat, l2: nat, r2: nat, curr: nat, drop: nat, low: nat, nx: nat)
    requires Follows(lens, y, l, r, y2, l2, r2) && l2 <= max <= MAX_BITS && 1 <= root <= max && |lens| == |info|
    requires AllEntered(t, root, info, lens, l, r + 1, nx, curr, low) && nx + Pow2(curr) <= |t|
    requires l <= root ==> drop == 0 && nx == 0 && curr == root && low == NO_SLOT
    requires l > root ==> drop == root && SubTableOpen(t, root, lens, max, Codeword(lens, y), curr, low, nx)
    requires l2 <= root || Val(Codeword(lens, y2)[..root]) == low
    ensures LoopOk(t, root, info, lens, max, y2, l2, r2, curr, drop, low, nx)
  {
    CarryEntered(t, root, info, lens, y, l, r, y2, l2, r2, curr, low, nx);
    if l2 > root {
      SlotBound(Codeword(lens, y2)[..root]);
      ValInjective(Codeword(lens, y)[..root], Codeword(lens, y2)[..root]);
    }
  }

  lemma {:induction false} SlotBound(p: BitString)
    requires |p| <= MAX_BITS
    ensures Val(p) < Pow2(|p|) && Val(p) < NO_SLOT
  {
    ValBound(p);
    Pow2Mono(|p|, MAX_BITS);
    Pow2Values();
  }

  /** A next code opens the sub-table of its slot, linked from the root table. */
  lemma {:induction false} OpenTable(t: seq<Code>, root: nat, info: seq<Code>, lens: seq<nat>, max: nat,
                  y: nat, l: nat, r: nat, y2: nat, l2: nat, r2: nat,
                  curr: nat, low: nat, nx: nat, curr': nat, low': nat, nx': nat)
    requires ValidLens(lens) && !OverSubscribed(lens) && |lens| == |info|
    requires Follows(lens, y, l, r, y2, l2, r2) && root < l2 <= max <= MAX_BITS && 1 <= root
    requires AllEntered(t, root, info, lens, l, r + 1, nx, curr, low)
    requires l <= root ==> nx == 0 && curr == root
    requires l > root ==> SubTableOpen(t, root, lens, max, Codeword(lens, y), curr, low, nx)
    requires low' == Val(Codeword(lens, y2)[..root]) && low' != low
    requires nx' == nx + Pow2(curr) && nx' + Pow2(curr') <= |t|
    requires l2 <= root + curr' <= max
    requires root + curr' < max ==> Kraft(lens, root + curr') >= Tail(lens, l2, r2, l2 - 1) + Width(root)
    ensures low' < |t|
    ensures LoopOk(t[low' := Code(curr', root, nx')], root, info, lens, max, y2, l2, r2, curr', root, low', nx')
  {
    var h2 := Codeword(lens, y2);
    SlotBound(h2[..root]);
    CarryEntered(t, root, info, lens, y, l, r, y2, l2, r2, curr, low, nx);
    NewSlotStart(lens, y, l, r, y2, l2, r2, root);
    StartBounds(lens, y2);
    LinkEntered(t, root, info, lens, y2, l2, r2, curr, low, nx, curr', low', nx');
  }

  /** Slots a kind of code may use. */
  function Capacity(kind: Kind, root: nat): nat
  {
    match kind case CODES => Pow2(root) case LENS => ENOUGH_LENS case DISTS => ENOUGH_DISTS
  }

  ghost function Infos(kind: Kind, n: nat): (info: seq<Code>)
    requires n <= MaxSymbols(kind)
    ensures |info| == n
    ensures forall i :: 0 <= i < n ==> info[i].op == 0 || info[i].op >= 16
  {
    seq(n, i requires 0 <= i < n => Entry(kind, i, 0))
  }

  lemma {:induction false} EntryBits(kind: Kind, n: nat, i: nat, b: nat)
    requires i < n <= MaxSymbols(kind)
    ensures Infos(kind, n)[i].(bits := b) == Entry(kind, i, b)
  {
  }

  lemma {:induction false} IndexInTable(t: seq<Code>, root: nat, info: seq<Code>, lens: seq<nat>, max: nat,
                     y: nat, l: nat, r: nat, curr: nat, drop: nat, low: nat, nx: nat)
    requires !OverSubscribed(lens) && LoopOk(t, root, info, lens, max, y, l, r, curr, drop, low, nx)
    ensures drop <= l <= drop + curr
    ensures Val(Codeword(lens, y)) / Pow2(drop) == Val(Codeword(lens, y)[drop..]) < Pow2(l - drop)
  {
    var h := Codeword(lens, y);
    if l > root {
      FitsSubTable(lens, y, l, r, root, curr, max);
    }
    ValSplit(h, drop);
    ValBound(h[drop..]);
  }

  lemma {:induction false} CodeEntered(t: seq<Code>, t': seq<Code>, root: nat, info: seq<Code>, lens: seq<nat>, max: nat,
                    y: nat, l: nat, r: nat, curr: nat, drop: nat, low: nat, nx: nat)
    requires ValidLens(lens) && !OverSubscribed(lens)
    requires LoopOk(t, root, info, lens, max, y, l, r, curr, drop, low, nx) && drop <= l <= drop + curr
    requires Filled(t, t', nx, curr, Val(Codeword(lens, y)[drop..]), Pow2(l - drop), info[y].(bits := l - drop))
    ensures AllEntered(t', root, info, lens, l, r + 1, nx, curr, low)
    ensures l > root ==> SubTableOpen(t', root, lens, max, Codeword(lens, y), curr, low, nx)
  {
    if l <= root {
      assert Codeword(lens, y)[0..] == Codeword(lens, y);
      EnterRootCode(t, t', root, info, lens, max, y, l, r, low);
    } else {
      EnterSubCode(t, t', root, info, lens, max, y, l, r, curr, low, nx);
    }
  }

  /** Enter one code at every slot that agrees with it. */
  method EnterCode(kind: Kind, lens: seq<nat>, table: array<Code>, root: nat, max: nat,
                   y: nat, len: nat, huff: nat, curr: nat, drop: nat, low: nat, nx: nat,
                   ghost r: nat, ghost info: seq<Code>)
    requires ValidLens(lens) && !OverSubscribed(lens) && |lens| <= MaxSymbols(kind) && info == Infos(kind, |lens|)
    requires LoopOk(table[..], root, info, lens, max, y, len, r, curr, drop, low, nx)
    requires huff == Val(Codeword(lens, y))
    modifies table
    ensures AllEntered(table[..], root, info, lens, len, r + 1, nx, curr, low)
    ensures len > root ==> SubTableOpen(table[..], root, lens, max, Codeword(lens, y), curr, low, nx)
  {
    IndexInTable(table[..], root, info, lens, max, y, len, r, curr, drop, low, nx);
    var here := Entry(kind, y, len - drop);
    EntryBits(kind, |lens|, y, len - drop);
    Fill(table, nx, curr, huff / Pow2(drop), len - drop, here);
    CodeEntered(old(table[..]), table[..], root, info, lens, max, y, len, r, curr, drop, low, nx);
  }

  /** Space for a sub-table is asked for; `ok` if there is enough. */
  method TakeSpace(kind: Kind, lens: seq<nat>, root: nat, max: nat, len: nat, count: seq<nat>, used: nat,
                   ghost curr: nat, ghost y: nat, ghost l: nat, ghost r: nat, ghost y2: nat, ghost r2: nat, ghost k: nat)
    returns (ok: bool, curr': nat, used': nat)
    requires ValidLens(lens) && Complete(lens) && Longest(lens, max)
    requires Follows(lens, y, l, r, y2, len, r2) && Remaining(lens, count, len, r2) && 1 <= root < len <= max
    requires root < l ==> Codeword(lens, y2)[..root] != Codeword(lens, y)[..root]
    requires Spent(lens, root, curr, used, y, k) && k == Off(lens, l) + r + 1 && k == Off(lens, len) + r2
    ensures len <= root + curr' <= max && used' == used + Pow2(curr')
    ensures root + curr' < max ==> Kraft(lens, root + curr') >= Tail(lens, len, r2, len - 1) + Width(root)
    ensures ok <==> used' <= Capacity(kind, root)
    ensures !ok ==> !Asked(kind, |lens|, root)
    ensures Spent(lens, root, curr', used', y2, k + 1)
  {
    SlotInside(lens, y, l, r, y2, len, r2, root, max);
    curr' := SubTableBits(lens, count, len, root, max, r2);
    used' := used + Pow2(curr');
    ok := used' <= Capacity(kind, root);
    NewTableSpent(lens, root, curr, used, y, l, r, y2, len, r2, k, curr');
    NewTableFits(kind, lens, root, y, l, r, y2, len, r2, k, curr', used');
  }

  lemma {:induction false} NewTableSpent(lens: seq<nat>, root: nat, curr: nat, used: nat, y: nat, l: nat, r: nat,
                                         y2: nat, l2: nat, r2: nat, k: nat, curr': nat)
    requires ValidLens(lens) && Complete(lens) && Follows(lens, y, l, r, y2, l2, r2) && 1 <= root < l2
    requires root < l ==> Codeword(lens, y2)[..root] != Codeword(lens, y)[..root]
    requires Spent(lens, root, curr, used, y, k) && k == Off(lens, l) + r + 1
    requires Sized(lens, l2, r2, root, root + curr')
    ensures Spent(lens, root, curr', used + Pow2(curr'), y2, k + 1)
  {
    NewReaches(lens, y, l, r, y2, l2, r2, root, curr');
    NewZeros(lens, y, l, r, y2, l2, r2, root);
    OpensSpent(lens, root, curr, used, y, l, r, y2, l2, r2, k, curr');
  }

  lemma {:induction false} NewTableFits(kind: Kind, lens: seq<nat>, root: nat, y: nat, l: nat, r: nat,
                                        y2: nat, l2: nat, r2: nat, k: nat, curr': nat, used': nat)
    requires ValidLens(lens) && Complete(lens) && Follows(lens, y, l, r, y2, l2, r2) && 1 <= root < l2
    requires root < l ==> Codeword(lens, y2)[..root] != Codeword(lens, y)[..root]
    requires Spent(lens, root, curr', used', y2, k + 1) && k == Off(lens, l2) + r2 && Sized(lens, l2, r2, root, root + curr')
    ensures Asked(kind, |lens|, root) ==> used' <= Capacity(kind, root)
  {
    NewZeros(lens, y, l, r, y2, l2, r2, root);
    assert lens[y2] == l2;
    AskedSuffices(kind, lens, root, curr', used', y2, r2, k);
  }

  /** The slot of a new sub-table lies below the end of the longest codes. */
  lemma {:induction false} SlotInside(lens: seq<nat>, y: nat, l: nat, r: nat, y2: nat, l2: nat, r2: nat, root: nat, max: nat)
    requires ValidLens(lens) && Complete(lens) && Longest(lens, max) && Follows(lens, y, l, r, y2, l2, r2) && 1 <= root < l2 <= max
    requires root < l ==> Codeword(lens, y2)[..root] != Codeword(lens, y)[..root]
    ensures Kraft(lens, max) >= Tail(lens, l2, r2, l2 - 1) + Width(root)
  {
    NewSlotStart(lens, y, l, r, y2, l2, r2, root);
    StartBounds(lens, y2);
    LongestMeans(lens, max);
    SlotTop(Codeword(lens, y2)[..root]);
  }

  lemma {:induction false} SlotTop(p: BitString)
    requires |p| <= MAX_BITS
    ensures Big(p) * Width(|p|) + Width(|p|) <= Pow2(MAX_BITS)
  {
    BigBound(p);
    RunEnds(Width(|p|), Big(p), Pow2(|p|));
    Pow2Add(|p|, MAX_BITS - |p|);
  }

  lemma {:induction false} NewReaches(lens: seq<nat>, y: nat, l: nat, r: nat, y2: nat, l2: nat, r2: nat, root: nat, curr: nat)
    requires Follows(lens, y, l, r, y2, l2, r2) && !OverSubscribed(lens) && 1 <= root < l2 && Sized(lens, l2, r2, root, root + curr)
    requires root < l ==> Codeword(lens, y2)[..root] != Codeword(lens, y)[..root]
    ensures root + curr <= MAX_BITS && Reaches(lens, root, curr, Codeword(lens, y2))
  {
    NewSlotStart(lens, y, l, r, y2, l2, r2, root);
    StartBounds(lens, y2);
  }

  lemma {:induction false} NewZeros(lens: seq<nat>, y: nat, l: nat, r: nat, y2: nat, l2: nat, r2: nat, root: nat)
    requires Follows(lens, y, l, r, y2, l2, r2) && !OverSubscribed(lens) && 1 <= root < l2
    requires root < l ==> Codeword(lens, y2)[..root] != Codeword(lens, y)[..root]
    ensures Codeword(lens, y2)[root..] == Zeros(l2 - root)
  {
    var h := Codeword(lens, y);
    FollowsCodeword(lens, y, l, r, y2, l2, r2);
    if root < l {
      assert Codeword(lens, y2)[..root] == Successor(h)[..root];
      SuccessorChangesPrefix(h, root);
    }
  }

  /** No new sub-table: the code is short or goes into the open one. */
  lemma {:induction false} KeepsSpent(lens: seq<nat>, root: nat, curr: nat, used: nat, y: nat, l: nat, r: nat, y2: nat, l2: nat, r2: nat, k: nat, max: nat)
    requires Follows(lens, y, l, r, y2, l2, r2) && !OverSubscribed(lens) && l2 <= max <= MAX_BITS && Spent(lens, root, curr, used, y, k)
    requires root < l2 ==> root < l && Codeword(lens, y2)[..root] == Codeword(lens, y)[..root] && Roomy(lens, root, curr, max, Big(Codeword(lens, y2)[..root]))
    ensures Spent(lens, root, curr, used, y2, k + 1)
  {
    if root < l2 {
      FitsSubTable(lens, y2, l2, r2, root, curr, max);
      StaysSpent(lens, root, curr, used, y, l, r, y2, l2, r2, k);
    }
  }

  lemma {:induction false} SameSlot(p: BitString, q: BitString, low: nat)
    requires |p| <= MAX_BITS && Val(p) == low
    ensures low != NO_SLOT && (|q| == |p| && Val(q) == low ==> q == p)
  {
    SlotBound(p);
    if |q| == |p| && Val(q) == low {
      ValInjective(p, q);
    }
  }

  /** Open a new sub-table if the next code, huff of length len, needs one. */
  method PrepareTable(kind: Kind, lens: seq<nat>, table: array<Code>, root: nat, max: nat,
                      huff: nat, len: nat, count: seq<nat>, curr: nat, drop: nat, low: nat, next: nat, used: nat,
                      ghost info: seq<Code>, ghost y: nat, ghost l: nat, ghost r: nat, ghost y2: nat, ghost r2: nat, ghost k: nat)
    returns (ok: bool, curr': nat, drop': nat, low': nat, next': nat, used': nat)
    requires ValidLens(lens) && !OverSubscribed(lens) && |lens| == |info| && (Complete(lens) || max == 1) && Longest(lens, max)
    requires Follows(lens, y, l, r, y2, len, r2) && Remaining(lens, count, len, r2)
    requires len <= max <= MAX_BITS && 1 <= root <= max && (kind.CODES? ==> root == max)
    requires Capacity(kind, root) <= table.Length
    requires AllEntered(table[..], root, info, lens, l, r + 1, next, curr, low)
    requires l <= root ==> drop == 0 && next == 0 && curr == root && low == NO_SLOT
    requires l > root ==> drop == root && SubTableOpen(table[..], root, lens, max, Codeword(lens, y), curr, low, next)
    requires huff == Val(Codeword(lens, y2))
    requires used == next + Pow2(curr) && Pow2(root) <= used <= Capacity(kind, root)
    requires Spent(lens, root, curr, used, y, k) && k == Off(lens, l) + r + 1 && k == Off(lens, len) + r2
    modifies table
    ensures !ok ==> !kind.CODES? && root < max && !Asked(kind, |lens|, root)
    ensures ok ==> LoopOk(table[..], root, info, lens, max, y2, len, r2, curr', drop', low', next')
    ensures ok ==> used' == next' + Pow2(curr') && Pow2(root) <= used' <= Capacity(kind, root)
    ensures ok ==> Spent(lens, root, curr', used', y2, k + 1)
  {
    ok, curr', drop', low', next', used' := true, curr, drop, low, next, used;
    if len > root {
      ValSplit(Codeword(lens, y2), root);
    }
    if len > root && huff % Pow2(root) != low {
      drop' := root;
      next' := next + Pow2(curr);
      ok, curr', used' := TakeSpace(kind, lens, root, max, len, count, used, curr, y, l, r, y2, r2, k);
      if !ok { return; }
      ghost var t := table[..];
      low' := huff % Pow2(root);
      OpenTable(t, root, info, lens, max, y, l, r, y2, len, r2, curr, low, next, curr', low', next');
      table[low'] := Code(curr', root, next');
      assert table[..] == t[low' := Code(curr', root, next')];
    } else {
      KeepTable(table[..], root, info, lens, max, y, l, r, y2, len, r2, curr, drop, low, next);
      if len > root {
        SameSlot(Codeword(lens, y2)[..root], if l > root then Codeword(lens, y)[..root] else [], low);
      }
      KeepsSpent(lens, root, curr, used, y, l, r, y2, len, r2, k, max);
    }
  }

  /** Everything the loop needs to know about the code after the k-th. */
  lemma {:induction false} NextInLine(lens: seq<nat>, work: seq<nat>, count: seq<nat>, k: nat, l: nat, r: nat, max: nat)
    returns (l2: nat, r2: nat)
    requires Sorted(lens, work) && AtIndex(lens, work, k, l, r) && !OverSubscribed(lens)
    requires l <= max <= MAX_BITS && Count(lens, max) > 0 && (r + 1 < Count(lens, l) || l < max)
    requires Remaining(lens, count, l, r + 1)
    ensures k + 1 < |work| && work[k + 1] < |lens| && l2 == lens[work[k + 1]] <= max
    ensures AtIndex(lens, work, k + 1, l2, r2) && Remaining(lens, count, l2, r2)
    ensures Follows(lens, work[k], l, r, work[k + 1], l2, r2)
    ensures r + 1 < Count(lens, l) ==> l2 == l
    ensures !AllOnes(Codeword(lens, work[k]))
    ensures Val(Codeword(lens, work[k + 1])) == Val(Successor(Codeword(lens, work[k])))
  {
    Advance(lens, work, k, l, r, max);
    l2, r2 := lens[work[k + 1]], if r + 1 < Count(lens, l) then r + 1 else 0;
    FollowsCodeword(lens, work[k], l, r, work[k + 1], l2, r2);
  }

  ghost predicate AtCode(t: seq<Code>, kind: Kind, root: nat, info: seq<Code>, lens: seq<nat>, max: nat,
                         work: seq<nat>, count: seq<nat>, sym: nat, len: nat, r: nat, huff: nat,
                         curr: nat, drop: nat, low: nat, next: nat, used: nat)
  {
    && AtIndex(lens, work, sym, len, r) && Remaining(lens, count, len, r)
    && huff == Val(Codeword(lens, work[sym]))
    && LoopOk(t, root, info, lens, max, work[sym], len, r, curr, drop, low, next)
    && used == next + Pow2(curr) && Pow2(root) <= used <= Capacity(kind, root)
  }

  /** Code sym has been entered and its increment computed. */
  ghost predicate CodeDone(t: seq<Code>, kind: Kind, root: nat, info: seq<Code>, lens: seq<nat>, max: nat,
                           work: seq<nat>, count: seq<nat>, sym: nat, len: nat, r: nat, huff: nat,
                           curr: nat, drop: nat, low: nat, next: nat, used: nat)
  {
    && |lens| == |info| && 1 <= root <= max <= MAX_BITS && len <= max
    && AtIndex(lens, work, sym, len, r) && Remaining(lens, count, len, r + 1)
    && AllEntered(t, root, info, lens, len, r + 1, next, curr, low)
    && (len <= root ==> drop == 0 && next == 0 && curr == root && low == NO_SLOT)
    && (len > root ==>
          drop == root && SubTableOpen(t, root, lens, max, Codeword(lens, work[sym]), curr, low, next))
    && huff == (if AllOnes(Codeword(lens, work[sym])) then 0 else Val(Successor(Codeword(lens, work[sym]))))
    && used == next + Pow2(curr) && Pow2(root) <= used <= Capacity(kind, root)
  }

  /** About to enter code sym, or done with it, with the space accounted for. */
  ghost predicate AtSym(t: seq<Code>, kind: Kind, root: nat, info: seq<Code>, lens: seq<nat>, max: nat,
                        work: seq<nat>, count: seq<nat>, sym: nat, len: nat, r: nat, huff: nat,
                        curr: nat, drop: nat, low: nat, next: nat, used: nat)
  {
    var at := AtCode(t, kind, root, info, lens, max, work, count, sym, len, r, huff, curr, drop, low, next, used);
    var spent := sym < |work| && Spent(lens, root, curr, used, work[sym], sym + 1);
    at && spent
  }

  ghost predicate DoneSym(t: seq<Code>, kind: Kind, root: nat, info: seq<Code>, lens: seq<nat>, max: nat,
                          work: seq<nat>, count: seq<nat>, sym: nat, len: nat, r: nat, huff: nat,
                          curr: nat, drop: nat, low: nat, next: nat, used: nat)
  {
    var done := CodeDone(t, kind, root, info, lens, max, work, count, sym, len, r, huff, curr, drop, low, next, used);
    var spent := sym < |work| && Spent(lens, root, curr, used, work[sym], sym + 1);
    done && spent
  }

  method OneCode(kind: Kind, lens: seq<nat>, table: array<Code>, root: nat, max: nat,
                 work: seq<nat>, count: seq<nat>, sym: nat, len: nat, huff: nat,
                 curr: nat, drop: nat, low: nat, next: nat, used: nat, ghost r: nat, ghost info: seq<Code>)
    returns (count': seq<nat>, huff': nat)
    requires ValidLens(lens) && !OverSubscribed(lens) && |lens| <= MaxSymbols(kind) && info == Infos(kind, |lens|)
    requires AtSym(table[..], kind, root, info, lens, max, work, count, sym, len, r, huff, curr, drop, low, next, used)
    modifies table
    ensures DoneSym(table[..], kind, root, info, lens, max, work, count', sym, len, r, huff', curr, drop, low, next, used)
  {
    ghost var y := work[sym];
    EnterCode(kind, lens, table, root, max, work[sym], len, huff, curr, drop, low, next, r, info);
    huff' := NextCode(huff, len, Codeword(lens, y));
    RankBelowCount(lens, y);
    count' := count[len := count[len] - 1];
  }

  method ToNextCode(kind: Kind, lens: seq<nat>, table: array<Code>, root: nat, max: nat,
                    work: seq<nat>, count: seq<nat>, sym: nat, len: nat, huff: nat,
                    curr: nat, drop: nat, low: nat, next: nat, used: nat, ghost r: nat, ghost info: seq<Code>)
    returns (ok: bool, len': nat, curr': nat, drop': nat, low': nat, next': nat, used': nat, ghost r': nat)
    requires ValidLens(lens) && !OverSubscribed(lens) && Sorted(lens, work)
    requires Capacity(kind, root) <= table.Length && (Complete(lens) || max == 1) && Longest(lens, max)
    requires DoneSym(table[..], kind, root, info, lens, max, work, count, sym, len, r, huff, curr, drop, low, next, used)
    requires Count(lens, max) > 0 && (count[len] > 0 || len < max) && (kind.CODES? ==> root == max)
    modifies table
    ensures !ok ==> !kind.CODES? && root < max && !Asked(kind, |lens|, root)
    ensures ok ==> AtSym(table[..], kind, root, info, lens, max, work, count, sym + 1, len', r',
                         huff, curr', drop', low', next', used')
  {
    ghost var l2, r2 := NextInLine(lens, work, count, sym, len, r, max);
    r' := r2;
    len' := if count[len] == 0 then lens[work[sym + 1]] else len;
    ok, curr', drop', low', next', used' :=
      PrepareTable(kind, lens, table, root, max, huff, len', count, curr, drop, low, next, used,
                   info, work[sym], len, r, work[sym + 1], r2, sym + 1);
  }

  /** Every used symbol is in the first `used` slots. */
  ghost predicate Finished(t: seq<Code>, kind: Kind, root: nat, info: seq<Code>, lens: seq<nat>, max: nat,
                           huff: nat, nx: nat, bits: nat, slot: nat, used: nat, last: nat)
    requires |lens| == |info| && root <= MAX_BITS
  {
    && used == nx + Pow2(bits) && Pow2(root) <= used <= Capacity(kind, root)
    && Count(lens, max) > 0
    && AllEntered(t, root, info, lens, max, Count(lens, max), nx, bits, slot)
    && (max <= root ==> nx == 0 && bits == root)
    && IsCode(lens, last, max, Count(lens, max) - 1)
    && huff == (if AllOnes(Codeword(lens, last)) then 0 else Val(Successor(Codeword(lens, last))))
  }

  /** A root width for which the space is sure to suffice. */
  ghost predicate Roomed(kind: Kind, n: nat, root: nat, max: nat)
  {
    (max <= root && Pow2(root) <= Capacity(kind, root)) || (exists bits :: Asked(kind, n, bits) && (root == bits || max <= root <= bits))
  }

  lemma {:induction false} RoomForRoot(kind: Kind, n: nat, root: nat, max: nat)
    ensures Roomed(kind, n, root, max) ==> Pow2(root) <= Capacity(kind, root) && (root < max ==> Asked(kind, n, root))
  {
    if Roomed(kind, n, root, max) && !(max <= root && Pow2(root) <= Capacity(kind, root)) {
      var bits :| Asked(kind, n, bits) && (root == bits || max <= root <= bits);
      Pow2Mono(root, bits);
      Pow2Values();
      assert Pow2(6) == 64 && Pow2(9) == 512 by { assert Pow2(5) == 32; }
    }
  }

  /** The main loop.  On success every used symbol has been entered in the first `used`
      slots; `huff` is what the increment of the last code left. */
  method FillTables(kind: Kind, lens: seq<nat>, table: array<Code>, root: nat, min: nat, max: nat,
                    work: seq<nat>, counts: seq<nat>, ghost info: seq<Code>)
    returns (ok: bool, used: nat, huff: nat, nx: nat, drop: nat, ghost bits: nat, ghost slot: nat, ghost last: nat)
    requires ValidLens(lens) && !OverSubscribed(lens) && |lens| <= MaxSymbols(kind) && info == Infos(kind, |lens|)
    requires Sorted(lens, work) && Remaining(lens, counts, min, 0)
    requires forall l :: 1 <= l < min ==> Count(lens, l) == 0
    requires 1 <= min <= root <= max <= MAX_BITS && Count(lens, min) > 0 && Count(lens, max) > 0
    requires (kind.CODES? ==> root == max) && (Complete(lens) || max == 1) && Longest(lens, max)
    requires Capacity(kind, root) <= table.Length
    modifies table
    ensures !ok ==> !kind.CODES? && !Roomed(kind, |lens|, root, max)
    ensures ok ==> Finished(table[..], kind, root, info, lens, max, huff, nx, bits, slot, used, last)
    ensures ok ==> drop == if max <= root then 0 else root
  {
    var count := counts;
    var sym: nat, len: nat := 0, min;
    var low: nat, next: nat := NO_SLOT, 0;
    var curr := root;
    ghost var r: nat := 0;
    huff := 0;
    used := Pow2(root);
    ok, nx, drop, bits, slot, last := false, 0, 0, 0, 0, 0;
    RoomForRoot(kind, |lens|, root, max);
    if used > Capacity(kind, root) { return; }
    FirstAtCode(table[..], kind, root, info, lens, min, max, work, count);
    while true
      invariant AtSym(table[..], kind, root, info, lens, max, work, count, sym, len, r, huff, curr, drop, low, next, used)
      decreases |work| - sym
    {
      count, huff := OneCode(kind, lens, table, root, max, work, count, sym, len, huff, curr, drop, low, next, used, r, info);
      if count[len] == 0 && len == max {
        ok, nx, bits, slot, last := true, next, curr, low, work[sym];
        LastCodeDone(table[..], kind, root, info, lens, max, work, count, sym, r, huff, curr, drop, low, next, used);
        return;
      }
      ok, len, curr, drop, low, next, used, r :=
        ToNextCode(kind, lens, table, root, max, work, count, sym, len, huff, curr, drop, low, next, used, r, info);
      if !ok { return; }
      sym := sym + 1;
    }
  }

  lemma {:induction false} FirstAtCode(t: seq<Code>, kind: Kind, root: nat, info: seq<Code>, lens: seq<nat>, min: nat, max: nat,
                    work: seq<nat>, count: seq<nat>)
    requires |lens| == |info| && Sorted(lens, work) && Remaining(lens, count, min, 0)
    requires forall l :: 1 <= l < min ==> Count(lens, l) == 0
    requires 1 <= min <= root <= max <= MAX_BITS && Count(lens, min) > 0
    requires Pow2(root) <= Capacity(kind, root) <= |t|
    ensures AtSym(t, kind, root, info, lens, max, work, count, 0, min, 0, 0, root, 0, NO_SLOT, 0, Pow2(root))
  {
    FirstIndex(lens, work, min);
    FirstCodeword(lens, work[0], min);
  }

  lemma {:induction false} LastCodeDone(t: seq<Code>, kind: Kind, root: nat, info: seq<Code>, lens: seq<nat>, max: nat,
                     work: seq<nat>, count: seq<nat>, sym: nat, r: nat, huff: nat,
                     curr: nat, drop: nat, low: nat, next: nat, used: nat)
    requires DoneSym(t, kind, root, info, lens, max, work, count, sym, max, r, huff, curr, drop, low, next, used)
    requires count[max] == 0
    ensures Finished(t, kind, root, info, lens, max, huff, next, curr, low, used, work[sym])
  {
  }

  lemma {:induction false} FirstIndex(lens: seq<nat>, work: seq<nat>, min: nat)
    requires Sorted(lens, work) && 1 <= min <= MAX_BITS && Count(lens, min) > 0
    requires forall l :: 1 <= l < min ==> Count(lens, l) == 0
    ensures AtIndex(lens, work, 0, min, 0)
    ensures forall x :: !Entered(lens, x, min, 0)
  {
    OffGap(lens, min);
    FindCode(lens, work, min, 0);
    forall x: nat | x < |lens| ensures lens[x] >= min || lens[x] == 0 {
      CountPositive(lens, x);
    }
  }

  lemma {:induction false} OffGap(lens: seq<nat>, min: nat)
    requires forall l :: 1 <= l < min ==> Count(lens, l) == 0
    ensures Off(lens, min) == 0 && FirstCode(lens, min) == 0
  {
    if min > 1 {
      OffGap(lens, min - 1);
    }
  }

  lemma {:induction false} FirstCodeword(lens: seq<nat>, y: nat, min: nat)
    requires IsCode(lens, y, min, 0) && forall l :: 1 <= l < min ==> Count(lens, l) == 0
    ensures Val(Codeword(lens, y)) == 0
  {
    OffGap(lens, min);
    ZeroBits(min);
  }

  lemma {:induction false} ZeroBits(n: nat)
    ensures Val(BigBits(0, n)) == 0
  {
    assert BigBits(0, n) == Zeros(n) by { AllZero(n); }
    ZerosAreZero(n);
  }

  lemma {:induction false} AllZero(n: nat)
    ensures BigBits(0, n) == Zeros(n)
  {
    if n > 0 {
      AllZero(n - 1);
    }
  }

  // ----- inflate_table -----

  ghost predicate NoCodes(lens: seq<nat>) { forall i :: 0 <= i < |lens| ==> lens[i] == 0 }

  ghost predicate OneBitAtMost(lens: seq<nat>) { forall i :: 0 <= i < |lens| ==> lens[i] <= 1 }

  /** Sets of lengths the decoder refuses: over-subscribed, or incomplete unless the code
      is empty or a single bit (which the code-length code may not be). */
  ghost predicate Refused(kind: Kind, lens: seq<nat>)
  {
    OverSubscribed(lens) || (!Complete(lens) && !NoCodes(lens) && (kind.CODES? || !OneBitAtMost(lens)))
  }

  /** The first `used` slots decode every used symbol. */
  ghost predicate DecodesAll(t: seq<Code>, root: nat, kind: Kind, lens: seq<nat>)
    requires |lens| <= MaxSymbols(kind)
  {
    forall sym :: Used(lens, sym) ==> Answers(t, root, kind, lens, sym)
  }

  lemma {:induction false} CountZero(lens: seq<nat>, l: nat)
    ensures Count(lens, l) == 0 <==> forall i :: 0 <= i < |lens| ==> lens[i] != l
  {
    if lens != [] {
      CountZero(lens[..|lens| - 1], l);
      assert forall i :: 0 <= i < |lens| - 1 ==> lens[..|lens| - 1][i] == lens[i];
    }
  }

  /** max is the longest length in use. */
  ghost predicate Longest(lens: seq<nat>, max: nat)
  {
    max <= MAX_BITS && (max != 0 ==> Count(lens, max) > 0) && forall l :: max < l <= MAX_BITS ==> Count(lens, l) == 0
  }

  lemma {:induction false} LongestMeans(lens: seq<nat>, max: nat)
    requires ValidLens(lens) && Longest(lens, max)
    ensures max == 0 <==> NoCodes(lens)
    ensures max <= 1 <==> OneBitAtMost(lens)
    ensures Kraft(lens, MAX_BITS) == Kraft(lens, max)
  {
    CountZero(lens, max);
    forall i | 0 <= i < |lens| ensures lens[i] <= max {
      CountPositive(lens, i);
    }
    KraftGap(lens, max, MAX_BITS);
  }

  lemma {:induction false} RootAnswers(t: seq<Code>, root: nat, want: Code, used: nat, s: BitString)
    requires root <= MAX_BITS == |s| && Pow2(root) <= used <= |t|
    requires Val(s[..root]) < |t| && t[Val(s[..root])] == want && (want.op == 0 || want.op >= 16)
    ensures Found(t[..used], root, s, want)
  {
    ValBound(s[..root]);
  }

  lemma {:induction false} LinkLookup(t: seq<Code>, root: nat, s: BitString, i: nat, e: Code, j: nat, want: Code)
    requires root <= |s| && i == Val(s[..root]) < |t| && t[i] == e && 1 <= e.op < 16 && e.bits == root
    requires root + e.op <= |s| && j == e.val + Val(s[root..root + e.op]) < |t| && t[j] == want
    ensures Found(t, root, s, want.(bits := root + want.bits))
  {
  }

  lemma {:induction false} LinkInside(e: Code, i: nat, root: nat, nx: nat, curr: nat, low: nat, used: nat, k: nat)
    requires LinkOk(e, i, root, nx, curr, low) && used == nx + Pow2(curr) && k < Pow2(e.op)
    ensures e.val + k < used
  {
  }

  lemma {:induction false} Indices(s: BitString, root: nat, op: nat)
    requires root + op <= |s|
    ensures Val(s[..root]) < Pow2(root) && Val(s[root..root + op]) < Pow2(op)
  {
    ValBound(s[..root]);
    ValBound(s[root..root + op]);
  }

  lemma {:induction false} SubAnswersAt(t: seq<Code>, root: nat, want: Code, nx: nat, curr: nat, low: nat, used: nat, s: BitString,
                     i: nat, e: Code, k: nat)
    requires 1 <= root <= |s| && i < Pow2(root) <= used <= |t| && used == nx + Pow2(curr) && k < Pow2(e.op)
    requires i == Val(s[..root]) && e == t[i] && LinkOk(e, i, root, nx, curr, low)
    requires root + e.op <= |s| && k == Val(s[root..root + e.op]) && e.val + k < |t| && t[e.val + k] == want
    requires |s| == MAX_BITS
    ensures Found(t[..used], root, s, want.(bits := root + want.bits))
  {
    LinkInside(e, i, root, nx, curr, low, used, k);
    LinkLookup(t[..used], root, s, i, e, e.val + k, want);
  }

  lemma {:induction false} SubAnswers(t: seq<Code>, root: nat, want: Code, nx: nat, curr: nat, low: nat, used: nat, s: BitString)
    requires root <= MAX_BITS == |s| && Pow2(root) <= used <= |t| && used == nx + Pow2(curr) && 1 <= root
    requires Val(s[..root]) < |t| && FindsSub(t, root, want, nx, curr, low, s)
    ensures Found(t[..used], root, s, want.(bits := root + want.bits))
  {
    var e := t[Val(s[..root])];
    Indices(s, root, e.op);
    SubAnswersAt(t, root, want, nx, curr, low, used, s, Val(s[..root]), e, Val(s[root..root + e.op]));
  }

  lemma {:induction false} FindsAnswers(t: seq<Code>, root: nat, info: seq<Code>, lens: seq<nat>, x: nat,
                     nx: nat, curr: nat, low: nat, used: nat, s: BitString)
    requires x < |lens| == |info| && 1 <= root <= MAX_BITS && |s| == MAX_BITS
    requires info[x].op == 0 || info[x].op >= 16
    requires Finds(t, root, info, lens, x, nx, curr, low, s)
    requires used == nx + Pow2(curr) && Pow2(root) <= used <= |t|
    ensures Found(t[..used], root, s, info[x].(bits := lens[x]))
  {
    if lens[x] > root {
      SubAnswers(t, root, info[x].(bits := lens[x] - root), nx, curr, low, used, s);
    } else {
      RootAnswers(t, root, info[x].(bits := lens[x]), used, s);
    }
  }

  lemma {:induction false} FinishedAnswers(t: seq<Code>, kind: Kind, root: nat, info: seq<Code>, lens: seq<nat>, max: nat,
                        huff: nat, nx: nat, bits: nat, slot: nat, used: nat, last: nat, sym: nat, s: BitString)
    requires ValidLens(lens) && Longest(lens, max) && |lens| == |info| && 1 <= root <= MAX_BITS && used <= |t|
    requires Finished(t, kind, root, info, lens, max, huff, nx, bits, slot, used, last)
    requires Used(lens, sym) && |s| == MAX_BITS && Codeword(lens, sym) <= s
    requires info[sym].op == 0 || info[sym].op >= 16
    ensures Found(t[..used], root, s, info[sym].(bits := lens[sym]))
  {
    CountPositive(lens, sym);
    RankBelowCount(lens, sym);
    assert Entered(lens, sym, max, Count(lens, max));
    FindsAnswers(t, root, info, lens, sym, nx, bits, slot, used, s);
  }

  lemma {:induction false} FinishedDecodes(t: seq<Code>, kind: Kind, root: nat, lens: seq<nat>, max: nat,
                        huff: nat, nx: nat, bits: nat, slot: nat, used: nat, last: nat)
    requires ValidLens(lens) && Longest(lens, max) && |lens| <= MaxSymbols(kind) && 1 <= root <= MAX_BITS && used <= |t|
    requires Finished(t, kind, root, Infos(kind, |lens|), lens, max, huff, nx, bits, slot, used, last)
    ensures DecodesAll(t[..used], root, kind, lens)
  {
    forall sym: nat, s: BitString | Used(lens, sym) && |s| == MAX_BITS && Codeword(lens, sym) <= s
      ensures Found(t[..used], root, s, Entry(kind, sym, lens[sym]))
    {
      EntryBits(kind, |lens|, sym, lens[sym]);
      FinishedAnswers(t, kind, root, Infos(kind, |lens|), lens, max, huff, nx, bits, slot, used, last, sym, s);
    }
  }

  lemma {:induction false} TopSlot(b: nat, n: nat, w: nat, end: nat)
    requires w > 0 && b * w + w == end && b < n
    ensures b + 1 == n <==> end == n * w
  {
    Distribute(b, 1, w);
    if b + 1 < n {
      RunEnds(w, b + 1, n);
    }
  }

  lemma {:induction false} LastCodeEnd(lens: seq<nat>, max: nat, last: nat)
    requires 1 <= max <= MAX_BITS && Count(lens, max) > 0 && IsCode(lens, last, max, Count(lens, max) - 1)
    ensures Start(lens, last) + Width(max) == Kraft(lens, max)
  {
    StartBounds(lens, last);
    Distribute(Count(lens, max) - 1, 1, Width(max));
  }

  /** The last code is all ones exactly when the code is complete. */
  lemma {:induction false} LastCodeOnes(lens: seq<nat>, max: nat, last: nat)
    requires !OverSubscribed(lens) && 1 <= max <= MAX_BITS && Count(lens, max) > 0
    requires IsCode(lens, last, max, Count(lens, max) - 1)
    requires Kraft(lens, MAX_BITS) == Kraft(lens, max)
    ensures AllOnes(Codeword(lens, last)) <==> Complete(lens)
  {
    LastCodeEnd(lens, max, last);
    CodeFits(lens, last);
    OnesValue(Codeword(lens, last));
    Pow2Add(max, MAX_BITS - max);
    TopSlot(CodeOf(lens, last), Pow2(max), Width(max), Kraft(lens, max));
  }

  /** A single one-bit code is 0; the other bit is free. */
  lemma {:induction false} LoneCode(lens: seq<nat>, last: nat)
    requires ValidLens(lens) && !OverSubscribed(lens) && !Complete(lens) && Longest(lens, 1) && Count(lens, 1) > 0
    requires IsCode(lens, last, 1, Count(lens, 1) - 1)
    ensures Count(lens, 1) == 1 && Codeword(lens, last) == [false] && Val(Successor([false])) == 1
  {
    LongestMeans(lens, 1);
    assert Kraft(lens, 1) == Count(lens, 1) * Width(1) by { assert Kraft(lens, 0) == 0; }
    Pow2Add(1, 14);
    assert Pow2(1) == 2;
    if Count(lens, 1) >= 2 {
      MulMono(Width(1), 2, Count(lens, 1));
    }
    assert CodeOf(lens, last) == 0;
    assert BigBits(0, 1) == [false] by { assert BigBits(0, 0) == []; }
    assert Big([false]) == 0;
    assert BigBits(1, 1) == [true] by { assert BigBits(0, 0) == []; }
  }

  ghost predicate StartsCode(lens: seq<nat>, s: BitString)
  {
    exists sym :: Used(lens, sym) && Codeword(lens, sym) <= s
  }

  /** Strings that begin with no codeword are looked up as invalid, one bit long. */
  ghost predicate RejectsRest(t: seq<Code>, root: nat, lens: seq<nat>)
  {
    forall s: BitString {:trigger Found(t, root, s, INVALID)} {:trigger StartsCode(lens, s)} ::
      |s| == MAX_BITS && !StartsCode(lens, s) ==> Found(t, root, s, INVALID)
  }

  lemma {:induction false} NothingToDecode(t: seq<Code>, kind: Kind, lens: seq<nat>)
    requires NoCodes(lens) && |lens| <= MaxSymbols(kind) && |t| == 2 && t[0] == t[1] == INVALID
    ensures DecodesAll(t, 1, kind, lens) && RejectsRest(t, 1, lens)
  {
    forall s: BitString | |s| == MAX_BITS ensures Found(t, 1, s, INVALID) {
      ValBound(s[..1]);
      assert Pow2(1) == 2;
    }
  }

  lemma {:induction false} NothingRejected(t: seq<Code>, root: nat, lens: seq<nat>)
    requires ValidLens(lens) && Complete(lens)
    ensures RejectsRest(t, root, lens)
  {
    forall s: BitString | |s| == MAX_BITS ensures StartsCode(lens, s) {
      var sym := CompleteCovers(lens, s);
    }
  }

  lemma {:induction false} OneBitIndex(s: BitString)
    requires |s| == MAX_BITS
    ensures Val(s[..1]) == Bit(s[0])
  {
    assert s[..1][1..] == [];
  }

  lemma {:induction false} OnlySymbol(lens: seq<nat>, last: nat, sym: nat)
    requires ValidLens(lens) && Longest(lens, 1) && Count(lens, 1) == 1 && IsCode(lens, last, 1, 0)
    requires Used(lens, sym)
    ensures sym == last
  {
    LongestMeans(lens, 1);
    RankBelowCount(lens, sym);
    SameRank(lens, sym, last, 1, 0);
  }

  lemma {:induction false} LoneLookup(t: seq<Code>, e: Code, s: BitString)
    requires |t| == 2 && t[0] == e && t[1] == INVALID && (e.op == 0 || e.op >= 16) && |s| == MAX_BITS
    ensures Found(t, 1, s, if s[0] then INVALID else e)
  {
    OneBitIndex(s);
  }

  /** Slot 0 holds the lone code and slot 1 the marker. */
  lemma {:induction false} LoneMarked(t: seq<Code>, kind: Kind, lens: seq<nat>, last: nat, e: Code)
    requires ValidLens(lens) && |lens| <= MaxSymbols(kind) && Longest(lens, 1)
    requires Count(lens, 1) == 1 && IsCode(lens, last, 1, 0) && Codeword(lens, last) == [false]
    requires |t| == 2 && t[0] == e && t[1] == INVALID && e == Entry(kind, last, 1)
    ensures DecodesAll(t, 1, kind, lens) && RejectsRest(t, 1, lens)
  {
    forall sym: nat, s: BitString | Used(lens, sym) && |s| == MAX_BITS && Codeword(lens, sym) <= s
      ensures Found(t, 1, s, Entry(kind, sym, lens[sym]))
    {
      OnlySymbol(lens, last, sym);
      assert s[0] == Codeword(lens, last)[0];
      LoneLookup(t, e, s);
    }
    var h := Codeword(lens, last);
    forall s: BitString | |s| == MAX_BITS && !StartsCode(lens, s) ensures Found(t, 1, s, INVALID) {
      assert Used(lens, last) && !(h <= s);
      assert s[0];
      LoneLookup(t, e, s);
    }
  }

  lemma {:induction false} LoneSlot(t: seq<Code>, kind: Kind, info: seq<Code>, lens: seq<nat>,
                 huff: nat, nx: nat, bits: nat, slot: nat, used: nat, last: nat)
    requires last < |info| == |lens| && Count(lens, 1) == 1 && Codeword(lens, last) == [false]
    requires Finished(t, kind, 1, info, lens, 1, huff, nx, bits, slot, used, last)
    ensures nx == 0 && used == 2 && t != [] && t[0] == info[last].(bits := 1)
  {
    assert Entered(lens, last, 1, 1);
    var s := Zeros(MAX_BITS);
    assert Codeword(lens, last) <= s;
    OneBitIndex(s);
    assert Finds(t, 1, info, lens, last, nx, bits, slot, s);
    assert Pow2(1) == 2;
  }

  /** Fill in the one slot an incomplete code leaves. */
  method MarkFree(kind: Kind, lens: seq<nat>, table: array<Code>, root: nat, max: nat, used: nat, huff: nat,
                  nx: nat, drop: nat, ghost bits: nat, ghost slot: nat, ghost last: nat)
    requires ValidLens(lens) && |lens| <= MaxSymbols(kind) && !OverSubscribed(lens) && Longest(lens, max)
    requires Complete(lens) || max == 1
    requires 1 <= root <= max && drop == (if max <= root then 0 else root) && 2 <= table.Length && used <= table.Length
    requires Finished(table[..], kind, root, Infos(kind, |lens|), lens, max, huff, nx, bits, slot, used, last)
    modifies table
    ensures DecodesAll(table[..used], root, kind, lens) && RejectsRest(table[..used], root, lens)
    ensures OneLevel(old(table[..used])) ==> OneLevel(table[..used])
  {
    LongestMeans(lens, max);
    LastCodeOnes(lens, max, last);
    if huff != 0 {
      LoneCode(lens, last);
      LoneSlot(table[..], kind, Infos(kind, |lens|), lens, huff, nx, bits, slot, used, last);
      EntryBits(kind, |lens|, last, 1);
      table[nx + huff] := Code(64, max - drop, 0);
      LoneMarked(table[..used], kind, lens, last, table[0]);
    } else {
      NotLone(lens, max, last, huff);
      FinishedDecodes(table[..], kind, root, lens, max, huff, nx, bits, slot, used, last);
      NothingRejected(table[..used], root, lens);
    }
  }

  lemma {:induction false} NotLone(lens: seq<nat>, max: nat, last: nat, huff: nat)
    requires ValidLens(lens) && !OverSubscribed(lens) && Longest(lens, max) && Count(lens, max) > 0
    requires IsCode(lens, last, max, Count(lens, max) - 1) && (Complete(lens) || max == 1)
    requires AllOnes(Codeword(lens, last)) <==> Complete(lens)
    requires huff == 0 == (if AllOnes(Codeword(lens, last)) then 0 else Val(Successor(Codeword(lens, last))))
    ensures Complete(lens)
  {
    if !Complete(lens) {
      LoneCode(lens, last);
    }
  }

  lemma {:induction false} CapacityMono(kind: Kind, root: nat, bits: nat)
    requires root <= bits || !kind.CODES?
    ensures Capacity(kind, root) <= Capacity(kind, bits)
  {
    if kind.CODES? {
      Pow2Mono(root, bits);
    }
  }

  lemma {:induction false} LongestBound(lens: seq<nat>, max: nat, bits: nat)
    requires max >= 1 && Longest(lens, max) && forall i :: 0 <= i < |lens| ==> lens[i] <= bits
    ensures max <= bits
  {
    CountZero(lens, max);
  }

  lemma {:induction false} RefusedIs(kind: Kind, lens: seq<nat>, max: nat, left: int)
    requires ValidLens(lens) && Longest(lens, max) && max >= 1
    requires left < 0 <==> OverSubscribed(lens)
    requires left >= 0 ==> left == Pow2(MAX_BITS) - Kraft(lens, MAX_BITS)
    ensures Refused(kind, lens) <==> left < 0 || (left > 0 && (kind.CODES? || max != 1))
  {
    LongestMeans(lens, max);
  }

  lemma {:induction false} NotRefused(kind: Kind, lens: seq<nat>)
    requires ValidLens(lens) && NoCodes(lens)
    ensures !Refused(kind, lens)
  {
    forall l | 0 < l <= MAX_BITS ensures Count(lens, l) == 0 {
      CountZero(lens, l);
    }
    KraftGap(lens, 0, MAX_BITS);
  }

  /** The tables are sure to fit: no code needs a sub-table, or inflate asks for them. */
  ghost predicate Fits(kind: Kind, lens: seq<nat>, bits: nat)
  {
    || Asked(kind, |lens|, bits)
    || ((forall i :: 0 <= i < |lens| ==> lens[i] <= bits) && bits <= 9 && (kind.DISTS? ==> bits <= 6))
  }

  /** With such widths the root table has room. */
  lemma {:induction false} FitsRoomed(kind: Kind, lens: seq<nat>, bits: nat, min: nat, max: nat, root: nat)
    requires ValidLens(lens) && Fits(kind, lens, bits) && (Complete(lens) || max == 1) && Longest(lens, max) && 1 <= min <= max
    requires forall l :: 1 <= l < min ==> Count(lens, l) == 0
    requires root == (var r := if bits > max then max else bits; if r < min then min else r)
    ensures Roomed(kind, |lens|, root, max)
  {
    if Asked(kind, |lens|, bits) {
      if Complete(lens) {
        ShortCodeExists(kind, lens, bits);
      }
    } else {
      LongestBound(lens, max, bits);
      Pow2Mono(root, bits);
      Pow2Mono(bits, if kind.DISTS? then 6 else 9);
      Pow2Values();
      assert Pow2(6) == 64 && Pow2(9) == 512 by { assert Pow2(5) == 32; }
    }
  }

  /** A string for a slot of the root table. */
  lemma {:induction false} SlotString(i: nat, root: nat) returns (s: BitString)
    requires i < Pow2(root) && root <= MAX_BITS
    ensures |s| == MAX_BITS && Val(s[..root]) == i
  {
    s := LowBits(i, root) + Zeros(MAX_BITS - root);
    assert s[..root] == LowBits(i, root);
    ValLowBits(i, root);
  }

  /** If no code is longer than the root width, nothing is linked. */
  lemma {:induction false} RootOnly(t: seq<Code>, kind: Kind, root: nat, lens: seq<nat>, max: nat,
                                    huff: nat, nx: nat, bits: nat, slot: nat, used: nat, last: nat)
    requires ValidLens(lens) && Complete(lens) && Longest(lens, max) && |lens| <= MaxSymbols(kind) && 1 <= max <= root <= MAX_BITS && used <= |t|
    requires Finished(t, kind, root, Infos(kind, |lens|), lens, max, huff, nx, bits, slot, used, last)
    ensures OneLevel(t[..used])
  {
    forall i: nat | i < used ensures t[i].op == 0 || t[i].op >= 16 {
      var s := SlotString(i, root);
      var sym := CompleteCovers(lens, s);
      CountPositive(lens, sym);
      RankBelowCount(lens, sym);
      assert Entered(lens, sym, max, Count(lens, max));
      assert InTable(t, root, Infos(kind, |lens|), lens, sym, nx, bits, slot);
      assert Finds(t, root, Infos(kind, |lens|), lens, sym, nx, bits, slot, s);
    }
  }

  /**
   Returns -1 exactly for the refused sets of lengths.  On 0 the `used` slots decode:
   any string that begins with a symbol's codeword gives that symbol's entry with its code
   length, and any other string gives the invalid marker.  ENOUGH is enough: the return of
   1 cannot happen for the code-length code, nor with the root widths inflate asks for and
   as many symbols as it allows.
   */
  method Build(kind: Kind, lens: seq<nat>, table: array<Code>, bits: nat)
    returns (ret: int, used: nat, root: nat)
    requires ValidLens(lens) && |lens| <= MaxSymbols(kind) && 1 <= bits
    requires kind.CODES? ==> forall i :: 0 <= i < |lens| ==> lens[i] <= bits
    requires 2 <= table.Length && Capacity(kind, bits) <= table.Length
    modifies table
    ensures ret == -1 || ret == 0 || (ret == 1 && !kind.CODES? && !Fits(kind, lens, bits))
    ensures ret == -1 <==> Refused(kind, lens)
    ensures ret == 0 ==>
              && 1 <= root <= MAX_BITS && used <= table.Length
              && DecodesAll(table[..used], root, kind, lens)
              && RejectsRest(table[..used], root, lens)
              && (kind.CODES? ==> OneLevel(table[..used]))
  {
    used, root := 0, 0;
    var count := CountLens(lens);
    root := bits;
    var max := LongestLength(count);
    assert Longest(lens, max);
    if root > max { root := max; }
    if max == 0 {
      LongestMeans(lens, 0);
      NotRefused(kind, lens);
      table[0] := INVALID;
      table[1] := INVALID;
      NothingToDecode(table[..2], kind, lens);
      return 0, 2, 1;
    }
    ret, used, root := BuildCodes(kind, lens, table, bits, root, max, count);
  }

  method BuildCodes(kind: Kind, lens: seq<nat>, table: array<Code>, ghost bits: nat, root0: nat, max: nat, count: seq<nat>)
    returns (ret: int, used: nat, root: nat)
    requires ValidLens(lens) && |lens| <= MaxSymbols(kind)
    requires |count| == MAX_BITS + 1 && forall l :: 0 <= l <= MAX_BITS ==> count[l] == Count(lens, l)
    requires Longest(lens, max) && 1 <= max && 1 <= root0 <= max
    requires root0 == if bits > max then max else bits
    requires kind.CODES? ==> forall i :: 0 <= i < |lens| ==> lens[i] <= bits
    requires 2 <= table.Length && Capacity(kind, bits) <= table.Length
    modifies table
    ensures ret == -1 || ret == 0 || (ret == 1 && !kind.CODES? && !Fits(kind, lens, bits))
    ensures ret == -1 <==> Refused(kind, lens)
    ensures ret == 0 ==>
              && 1 <= root <= MAX_BITS && used <= table.Length
              && DecodesAll(table[..used], root, kind, lens)
              && RejectsRest(table[..used], root, lens)
              && (kind.CODES? ==> OneLevel(table[..used]))
  {
    used, root := 0, root0;
    var min := ShortestLength(count, max);
    if root < min { root := min; }
    var left := CheckLens(lens, count);
    RefusedIs(kind, lens, max, left);
    if left < 0 || (left > 0 && (kind.CODES? || max != 1)) { return -1, used, root; }
    var work := SortSymbols(lens, count);
    if kind.CODES? { LongestBound(lens, max, bits); }
    CapacityMono(kind, root, bits);
    if Fits(kind, lens, bits) { FitsRoomed(kind, lens, bits, min, max, root); }
    var ok, n, huff, nx, drop;
    ghost var wide, slot, last;
    ok, n, huff, nx, drop, wide, slot, last :=
      FillTables(kind, lens, table, root, min, max, work, count, Infos(kind, |lens|));
    if !ok { return 1, used, root; }
    if kind.CODES? { RootOnly(table[..], kind, root, lens, max, huff, nx, wide, slot, n, last); }
    MarkFree(kind, lens, table, root, max, n, huff, nx, drop, wide, slot, last);
    return 0, n, root;
  }
}
