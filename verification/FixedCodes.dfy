/**
 The fixed codes of section 3.2.6 of RFC 1951, which deflate calls the static trees.
 */
module FixedCodes {
  import opened Bits
  import opened Huffman

  lemma {:induction false} CountJoin(a: seq<nat>, b: seq<nat>, l: nat)
    ensures Count(a + b, l) == Count(a, l) + Count(b, l)
    decreases |b|
  {
    if b == [] {
      assert a + b == a;
    } else {
      assert (a + b)[..|a + b| - 1] == a + b[..|b| - 1];
      CountJoin(a, b[..|b| - 1], l);
    }
  }

  lemma {:induction false} CountSame(n: nat, v: nat, l: nat)
    ensures Count(seq(n, _ => v), l) == if l == v then n else 0
    decreases n
  {
    if n > 0 {
      assert seq(n, _ => v)[..n - 1] == seq(n - 1, _ => v);
      CountSame(n - 1, v, l);
    }
  }

  function StaticL(): seq<nat> { seq(144, _ => 8) + seq(112, _ => 9) + seq(24, _ => 7) + seq(8, _ => 8) }

  function StaticD(): seq<nat> { seq(32, _ => 5) }

  lemma {:induction false} StaticCounts(l: nat)
    ensures Count(StaticL(), l) == if l == 7 then 24 else if l == 8 then 152 else if l == 9 then 112 else 0
    ensures Count(StaticD(), l) == if l == 5 then 32 else 0
  {
    var a, b, c, d: seq<nat> := seq(144, _ => 8), seq(112, _ => 9), seq(24, _ => 7), seq(8, _ => 8);
    CountJoin(a + b + c, d, l);
    CountJoin(a + b, c, l);
    CountJoin(a, b, l);
    CountSame(144, 8, l);
    CountSame(112, 9, l);
    CountSame(24, 7, l);
    CountSame(8, 8, l);
    CountSame(32, 5, l);
  }

  lemma {:induction false} NoShort(lens: seq<nat>, l: nat)
    requires l <= MAX_BITS && forall m: nat :: 1 <= m <= l ==> Count(lens, m) == 0
    ensures Kraft(lens, l) == 0 && FirstCode(lens, l + 1) == 0
    decreases l
  {
    if l > 0 {
      NoShort(lens, l - 1);
    }
  }

  lemma {:induction false} NoLong(lens: seq<nat>, l: nat, m: nat)
    requires l <= m <= MAX_BITS && forall k: nat :: l < k <= m ==> Count(lens, k) == 0
    ensures Kraft(lens, m) == Kraft(lens, l)
    decreases m
  {
    if l < m {
      NoLong(lens, l, m - 1);
    }
  }

  lemma {:induction false} StaticLComplete()
    ensures Complete(StaticL())
  {
    var lens := StaticL();
    forall m: nat ensures Count(lens, m) == if m == 7 then 24 else if m == 8 then 152 else if m == 9 then 112 else 0 {
      StaticCounts(m);
    }
    NoShort(lens, 6);
    NoLong(lens, 9, MAX_BITS);
    Pow2Values();
    assert Pow2(6) == 64;
    assert Kraft(lens, 7) == 24 * 256;
    assert Kraft(lens, 8) == 24 * 256 + 152 * 128;
    assert Kraft(lens, 9) == 32768;
  }

  /** The last literal but one, 254, has the code 111111110. */
  lemma {:induction false} NineBitCode()
    ensures Used(StaticL(), 254) && StaticL()[254] == 9 && CodeOf(StaticL(), 254) == 510
  {
    var lens, a, b: seq<nat> := StaticL(), seq(144, _ => 8), seq(110, _ => 9);
    assert lens[..254] == a + b;
    CountJoin(a, b, 9);
    CountSame(144, 8, 9);
    CountSame(110, 9, 9);
    forall m: nat ensures Count(lens, m) == if m == 7 then 24 else if m == 8 then 152 else if m == 9 then 112 else 0 {
      StaticCounts(m);
    }
    NoShort(lens, 6);
    assert FirstCode(lens, 8) == 48 && FirstCode(lens, 9) == 400;
  }

  lemma {:induction false} StaticDComplete()
    ensures Complete(StaticD())
  {
    var lens := StaticD();
    forall m: nat ensures Count(lens, m) == if m == 5 then 32 else 0 {
      StaticCounts(m);
    }
    NoShort(lens, 4);
    NoLong(lens, 5, MAX_BITS);
    Pow2Values();
    assert Pow2(10) == 1024 by { assert Pow2(9) == 2 * Pow2(8); }
    assert Kraft(lens, 5) == 32 * 1024;
  }
}
