/**
 Canonical Huffman codes, section 3.2.2 of RFC 1951: the reference that both the
 encoder's code generation and the decoder's tables are proved against.

 `lens[sym]` is the code length of a symbol, 0 for an unused one.  Codes are compared on
 the 15-bit line [0, 2^15): a code of length n owns an interval of 2^(15-n) positions.
 */
module Huffman {
  import opened Bits

  const MAX_BITS := 15

  ghost predicate ValidLens(lens: seq<nat>)
  {
    forall i :: 0 <= i < |lens| ==> lens[i] <= MAX_BITS
  }

  /** How many of the symbols have length l. */
  ghost function Count(lens: seq<nat>, l: nat): nat
  {
    if lens == [] then 0
    else Count(lens[..|lens| - 1], l) + (if lens[|lens| - 1] == l then 1 else 0)
  }

  /** Width of the interval of a code of length l. */
  ghost function Width(l: nat): nat
    requires l <= MAX_BITS
  {
    Pow2(MAX_BITS - l)
  }

  /** Total width of all codes of lengths 1..l: the Kraft sum in units of 2^-15. */
  ghost function Kraft(lens: seq<nat>, l: nat): nat
    requires l <= MAX_BITS
  {
    if l == 0 then 0 else Kraft(lens, l - 1) + Count(lens, l) * Width(l)
  }

  ghost predicate Complete(lens: seq<nat>) { Kraft(lens, MAX_BITS) == Pow2(MAX_BITS) }

  ghost predicate OverSubscribed(lens: seq<nat>) { Kraft(lens, MAX_BITS) > Pow2(MAX_BITS) }

  /** next_code[l] of RFC 1951: the smallest code of length l. */
  ghost function FirstCode(lens: seq<nat>, l: nat): nat
  {
    if l <= 1 then 0 else 2 * (FirstCode(lens, l - 1) + Count(lens, l - 1))
  }

  /** Codes of equal length are consecutive in symbol order. */
  ghost function CodeOf(lens: seq<nat>, sym: nat): nat
    requires sym < |lens|
  {
    FirstCode(lens, lens[sym]) + Count(lens[..sym], lens[sym])
  }

  ghost function Codeword(lens: seq<nat>, sym: nat): (s: BitString)
    requires sym < |lens|
    ensures |s| == lens[sym]
  {
    BigBits(CodeOf(lens, sym), lens[sym])
  }

  /** First position of the symbol's interval. */
  ghost function Start(lens: seq<nat>, sym: nat): nat
    requires sym < |lens| && 1 <= lens[sym] <= MAX_BITS
  {
    CodeOf(lens, sym) * Width(lens[sym])
  }

  ghost predicate Used(lens: seq<nat>, sym: nat) { sym < |lens| && lens[sym] != 0 }

  lemma {:induction false} WidthHalves(l: nat)
    requires 1 <= l <= MAX_BITS
    ensures Width(l - 1) == 2 * Width(l)
  {
  }

  lemma {:induction false} DoubleAndAdd(f: nat, c: nat, w: nat)
    ensures (2 * (f + c)) * w == f * (2 * w) + c * (2 * w)
  {
  }

  /** The first code of each length starts where the shorter codes end. */
  lemma {:induction false} FirstCodeStart(lens: seq<nat>, l: nat)
    requires 1 <= l <= MAX_BITS
    ensures FirstCode(lens, l) * Width(l) == Kraft(lens, l - 1)
  {
    if l > 1 {
      FirstCodeStart(lens, l - 1);
      WidthHalves(l);
      DoubleAndAdd(FirstCode(lens, l - 1), Count(lens, l - 1), Width(l));
    }
  }

  lemma {:induction false} CountPrefix(lens: seq<nat>, m: nat, n: nat, l: nat)
    requires m <= n <= |lens|
    ensures Count(lens[..m], l) <= Count(lens[..n], l)
  {
    if m < n {
      assert lens[..n][..n - 1] == lens[..n - 1];
      CountPrefix(lens, m, n - 1, l);
    }
  }

  lemma {:induction false} RankBelowCount(lens: seq<nat>, sym: nat)
    requires sym < |lens|
    ensures Count(lens[..sym], lens[sym]) < Count(lens, lens[sym])
  {
    assert lens[..sym + 1][..sym] == lens[..sym];
    CountPrefix(lens, sym + 1, |lens|, lens[sym]);
    assert lens[..|lens|] == lens;
  }

  lemma {:induction false} KraftMono(lens: seq<nat>, l: nat, m: nat)
    requires l <= m <= MAX_BITS
    ensures Kraft(lens, l) <= Kraft(lens, m)
  {
    if l < m {
      KraftMono(lens, l, m - 1);
    }
  }

  lemma {:induction false} Distribute(a: nat, b: nat, w: nat)
    ensures (a + b) * w == a * w + b * w
  {
  }

  /** The interval of a symbol lies between the shorter codes and the end of its length. */
  lemma {:induction false} StartBounds(lens: seq<nat>, sym: nat)
    requires Used(lens, sym) && lens[sym] <= MAX_BITS
    ensures var l := lens[sym];
            && Start(lens, sym) == Kraft(lens, l - 1) + Count(lens[..sym], l) * Width(l)
            && Start(lens, sym) + Width(l) <= Kraft(lens, l)
            && Kraft(lens, l - 1) <= Start(lens, sym)
  {
    var l := lens[sym];
    var f, r, c, w := FirstCode(lens, l), Count(lens[..sym], l), Count(lens, l), Width(l);
    assert r * w >= 0;
    FirstCodeStart(lens, l);
    RankBelowCount(lens, sym);
    Distribute(f, r, w);
    RunEnds(w, r, c);
  }

  lemma {:induction false} FitsBelow(c: nat, n: nat, w: nat, end: nat)
    requires c * w + w <= end <= n * w
    requires w > 0
    ensures c < n
  {
    if n <= c {
      MulMono(w, n, c);
    }
  }

  /** In a code that is not over-subscribed every code fits its length. */
  lemma {:induction false} CodeFits(lens: seq<nat>, sym: nat)
    requires Used(lens, sym) && lens[sym] <= MAX_BITS && !OverSubscribed(lens)
    ensures CodeOf(lens, sym) < Pow2(lens[sym])
    ensures Big(Codeword(lens, sym)) == CodeOf(lens, sym)
    ensures Start(lens, sym) + Width(lens[sym]) <= Pow2(MAX_BITS)
  {
    var l := lens[sym];
    StartBounds(lens, sym);
    KraftMono(lens, l, MAX_BITS);
    Pow2Add(l, MAX_BITS - l);
    FitsBelow(CodeOf(lens, sym), Pow2(l), Width(l), Kraft(lens, l));
    BigBigBits(CodeOf(lens, sym), l);
  }

  /** A codeword is a prefix of a 15-bit string exactly when the string, as a number, lies
      in the symbol's interval. */
  lemma {:induction false} PrefixIsInterval(lens: seq<nat>, sym: nat, s: BitString)
    requires Used(lens, sym) && lens[sym] <= MAX_BITS && !OverSubscribed(lens) && |s| == MAX_BITS
    ensures Codeword(lens, sym) <= s <==> Start(lens, sym) <= Big(s) < Start(lens, sym) + Width(lens[sym])
  {
    var l := lens[sym];
    var c, w := CodeOf(lens, sym), Width(l);
    CodeFits(lens, sym);
    BigSplit(s, l);
    var p, x := Big(s[..l]), Big(s[l..]);
    if Codeword(lens, sym) <= s {
      assert s[..l] == Codeword(lens, sym);
    } else {
      if p == c {
        BigInjective(s[..l], Codeword(lens, sym));
      }
      if Start(lens, sym) <= Big(s) < Start(lens, sym) + w {
        var y := Big(s) - Start(lens, sym);
        SlotOrder(w, p, x, c, y);
        SlotOrder(w, c, y, p, x);
      }
    }
  }

  /** Symbol order in the sorted table: by length, then by symbol. */
  ghost predicate Before(lens: seq<nat>, a: nat, b: nat)
    requires a < |lens| && b < |lens|
  {
    lens[a] < lens[b] || (lens[a] == lens[b] && a < b)
  }

  /** Intervals follow the sorted order and do not overlap. */
  lemma {:induction false} IntervalsOrdered(lens: seq<nat>, a: nat, b: nat)
    requires Used(lens, a) && Used(lens, b) && lens[a] <= MAX_BITS && lens[b] <= MAX_BITS
    requires Before(lens, a, b)
    ensures Start(lens, a) + Width(lens[a]) <= Start(lens, b)
  {
    if lens[a] < lens[b] {
      StartBounds(lens, a);
      StartBounds(lens, b);
      KraftMono(lens, lens[a], lens[b] - 1);
    } else {
      SameLengthOrdered(lens, a, b, lens[a], Count(lens[..a], lens[a]), Count(lens[..b], lens[a]));
    }
  }

  lemma {:induction false} SameLengthOrdered(lens: seq<nat>, a: nat, b: nat, l: nat, r: nat, q: nat)
    requires a < b < |lens| && lens[a] == lens[b] == l && 1 <= l <= MAX_BITS && r == Count(lens[..a], l) && q == Count(lens[..b], l)
    ensures Start(lens, a) + Width(l) <= Start(lens, b)
  {
    StartBounds(lens, a);
    StartBounds(lens, b);
    RanksOrdered(lens, a, b, l);
    RunEnds(Width(l), r, q);
  }

  lemma {:induction false} RanksOrdered(lens: seq<nat>, a: nat, b: nat, l: nat)
    requires a < b < |lens| && lens[a] == l
    ensures Count(lens[..a], l) < Count(lens[..b], l)
  {
    assert lens[..a + 1][..a] == lens[..a];
    CountPrefix(lens, a + 1, b, l);
  }

  /** No two used symbols have codewords that are prefixes of one string. */
  lemma {:induction false} PrefixFree(lens: seq<nat>, a: nat, b: nat, s: BitString)
    requires ValidLens(lens) && !OverSubscribed(lens) && |s| == MAX_BITS
    requires Used(lens, a) && Used(lens, b) && Codeword(lens, a) <= s && Codeword(lens, b) <= s
    ensures a == b
  {
    PrefixIsInterval(lens, a, s);
    PrefixIsInterval(lens, b, s);
    if Before(lens, a, b) {
      IntervalsOrdered(lens, a, b);
    } else if Before(lens, b, a) {
      IntervalsOrdered(lens, b, a);
    }
  }

  /** The r-th symbol of length l. */
  lemma {:induction false} SymbolOfRank(lens: seq<nat>, l: nat, r: nat) returns (sym: nat)
    requires r < Count(lens, l)
    ensures sym < |lens| && lens[sym] == l && Count(lens[..sym], l) == r
  {
    var n := |lens| - 1;
    if lens[n] == l && Count(lens[..n], l) == r {
      sym := n;
    } else {
      sym := SymbolOfRank(lens[..n], l, r);
      assert lens[..n][..sym] == lens[..sym];
    }
  }

  /** Every position below the Kraft sum belongs to some symbol. */
  lemma {:induction false} PositionOwned(lens: seq<nat>, l: nat, x: nat) returns (sym: nat)
    requires l <= MAX_BITS && x < Kraft(lens, l)
    ensures Used(lens, sym) && lens[sym] <= l
    ensures Start(lens, sym) <= x < Start(lens, sym) + Width(lens[sym])
  {
    if x < Kraft(lens, l - 1) {
      sym := PositionOwned(lens, l - 1, x);
    } else {
      sym := PositionOwnedAt(lens, l, x - Kraft(lens, l - 1));
    }
  }

  lemma {:induction false} PositionOwnedAt(lens: seq<nat>, l: nat, y: nat) returns (sym: nat)
    requires 1 <= l <= MAX_BITS && y < Count(lens, l) * Width(l)
    ensures sym < |lens| && lens[sym] == l
    ensures Start(lens, sym) <= Kraft(lens, l - 1) + y < Start(lens, sym) + Width(l)
  {
    var w := Width(l);
    var r := SlotOfPosition(y, w, Count(lens, l));
    sym := SymbolOfRank(lens, l, r);
    StartBounds(lens, sym);
  }

  lemma {:induction false} SlotOfPosition(y: nat, w: nat, q: nat) returns (r: nat)
    requires w > 0 && y < q * w
    ensures r < q && r * w <= y < r * w + w
  {
    r := y / w;
    if q <= r {
      MulMono(w, q, r);
    }
  }

  /** In a complete code every 15-bit string starts with exactly one codeword. */
  lemma {:induction false} CompleteCovers(lens: seq<nat>, s: BitString) returns (sym: nat)
    requires ValidLens(lens) && Complete(lens) && |s| == MAX_BITS
    ensures Used(lens, sym) && Codeword(lens, sym) <= s
    ensures forall other :: Used(lens, other) && Codeword(lens, other) <= s ==> other == sym
  {
    BigBound(s);
    sym := PositionOwned(lens, MAX_BITS, Big(s));
    PrefixIsInterval(lens, sym, s);
    forall other | Used(lens, other) && Codeword(lens, other) <= s ensures other == sym {
      PrefixFree(lens, other, sym, s);
    }
  }
}
