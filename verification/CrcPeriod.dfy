/**
 x^(2^32) = x modulo the CRC polynomial, by squaring x 32 times.
 */
module CrcPeriod {
  import opened Bits
  import opened Gf2

  function BitAt(a: bv32, i: nat): bool
    decreases i
  {
    if i == 0 then a & 1 != 0 else BitAt(a >> 1, i - 1)
  }

  /** The bits of a word. */
  function BitsOf(a: bv32): Poly { seq(32, i requires 0 <= i < 32 => BitAt(a, i)) }

  function TimesB(b: bv32): bv32 { if b & 1 != 0 then (b >> 1) ^ 0xedb88320 else b >> 1 }

  function Times2(b: bv32): bv32 { TimesB(TimesB(b)) }

  function Times4(b: bv32): bv32 { Times2(Times2(b)) }

  function Times8(b: bv32): bv32 { Times4(Times4(b)) }

  /** The coefficient of a under the mask m, times b; then 2, 4, 8, 16 coefficients from there down. */
  function Prod1(a: bv32, m: bv32, b: bv32): bv32 { if a & m != 0 then b else 0 }

  function Prod2(a: bv32, m: bv32, b: bv32): bv32 { Prod1(a, m, b) ^ Prod1(a, m >> 1, TimesB(b)) }

  function Prod4(a: bv32, m: bv32, b: bv32): bv32 { Prod2(a, m, b) ^ Prod2(a, m >> 2, Times2(b)) }

  function Prod8(a: bv32, m: bv32, b: bv32): bv32 { Prod4(a, m, b) ^ Prod4(a, m >> 4, Times4(b)) }

  function Prod16(a: bv32, m: bv32, b: bv32): bv32 { Prod8(a, m, b) ^ Prod8(a, m >> 8, Times8(b)) }

  function Times16(b: bv32): bv32 { Times8(Times8(b)) }

  function Prod32(a: bv32, m: bv32, b: bv32): bv32 { Prod16(a, m, b) ^ Prod16(a, m >> 16, Times16(b)) }

  /** The product of two words. */
  function Product(a: bv32, b: bv32): bv32 { Prod32(a, 0x8000_0000, b) }

  lemma {:induction false} XorHalves(a: bv32, b: bv32, c: bv32, a': bv32, b': bv32, c': bv32)
    requires c == a ^ b && a' == a >> 1 && b' == b >> 1 && c' == c >> 1
    ensures c' == a' ^ b' && (c & 1 != 0) == ((a & 1 != 0) != (b & 1 != 0))
  {
    assert (a ^ b) & 1 == (a & 1) ^ (b & 1);
  }

  /** Bit by bit, c is the sum of a and b. */
  ghost predicate Adds(a: bv32, b: bv32, c: bv32, i: nat)
    decreases i
  {
    (c & 1 != 0) == ((a & 1 != 0) != (b & 1 != 0)) && (i > 0 ==> Adds(a >> 1, b >> 1, c >> 1, i - 1))
  }

  lemma {:induction false} XorAdds(a: bv32, b: bv32, c: bv32, i: nat)
    requires c == a ^ b
    ensures Adds(a, b, c, i)
    decreases i
  {
    var a', b', c' := a >> 1, b >> 1, c >> 1;
    XorHalves(a, b, c, a', b', c');
    if i > 0 {
      XorAdds(a', b', c', i - 1);
    }
  }

  lemma {:induction false} AddsBit(a: bv32, b: bv32, c: bv32, i: nat)
    requires Adds(a, b, c, i)
    ensures BitAt(c, i) == (BitAt(a, i) != BitAt(b, i))
    decreases i
  {
    if i > 0 {
      AddsBit(a >> 1, b >> 1, c >> 1, i - 1);
    }
  }

  lemma {:induction false} XorBits(a: bv32, b: bv32, c: bv32)
    requires c == a ^ b
    ensures BitsOf(c) == Xor(BitsOf(a), BitsOf(b))
  {
    forall i: nat | i < 32 ensures Adds(a, b, c, i) {
      XorAdds(a, b, c, i);
    }
    AddsBits(a, b, c);
  }

  lemma {:induction false} AddsBits(a: bv32, b: bv32, c: bv32)
    requires forall i: nat :: i < 32 ==> Adds(a, b, c, i)
    ensures BitsOf(c) == Xor(BitsOf(a), BitsOf(b))
  {
    forall i: nat | i < 32 ensures BitAt(c, i) == (BitAt(a, i) != BitAt(b, i)) {
      AddsBit(a, b, c, i);
    }
  }

  lemma {:induction false} ZeroBit(i: nat)
    ensures !BitAt(0, i)
    decreases i
  {
    if i > 0 {
      ZeroBit(i - 1);
    }
  }

  lemma {:induction false} ZeroBits()
    ensures BitsOf(0) == ZERO
  {
    forall i | 0 <= i < 32 ensures !BitAt(0, i) {
      ZeroBit(i);
    }
  }

  lemma {:induction false} NextBit(a: bv32, a': bv32, i: nat)
    requires a' == a >> 1
    ensures BitAt(a, i + 1) == BitAt(a', i)
  {
  }

  /** Four places at a time. */
  lemma {:induction false} BitAt4(a: bv32, a': bv32, i: nat)
    requires a' == a >> 4
    ensures BitAt(a, i + 4) == BitAt(a', i)
  {
    var a1 := a >> 1;
    var a2 := a1 >> 1;
    var a3 := a2 >> 1;
    NextBit(a, a1, i + 3);
    NextBit(a1, a2, i + 2);
    NextBit(a2, a3, i + 1);
    NextBit(a3, a', i);
  }

  lemma {:induction false} BitAt16(a: bv32, a': bv32, i: nat)
    requires a' == a >> 16
    ensures BitAt(a, i + 16) == BitAt(a', i)
  {
    var a1 := a >> 4;
    var a2 := a1 >> 4;
    var a3 := a2 >> 4;
    BitAt4(a, a1, i + 12);
    BitAt4(a1, a2, i + 8);
    BitAt4(a2, a3, i + 4);
    BitAt4(a3, a', i);
  }

  lemma {:induction false} NoBit32(a: bv32)
    ensures !BitAt(a, 32)
  {
    var a1 := a >> 16;
    BitAt16(a, a1, 16);
    BitAt16(a1, 0, 0);
  }

  lemma {:induction false} HalfBits(b: bv32, h: bv32)
    requires h == b >> 1
    ensures BitsOf(h) == Half(BitsOf(b))
  {
    NoBit32(b);
    forall i | 0 <= i < 32 ensures BitAt(h, i) == BitAt(b, i + 1) {
      NextBit(b, h, i);
    }
  }

  /** p(x) without x^32. */
  function POLY(): Poly { BitsOf(0xedb8_8320) }

  lemma {:induction false} TimesBits(b: bv32)
    ensures BitsOf(TimesB(b)) == Times(POLY(), BitsOf(b))
  {
    var h, t := b >> 1, TimesB(b);
    HalfBits(b, h);
    assert BitsOf(b)[0] == BitAt(b, 0) == (b & 1 != 0);
    if b & 1 != 0 {
      XorBits(h, 0xedb8_8320, t);
    }
  }


  // ----- the product of words is the product of polynomials -----

  /** The last n coefficients of s have been dealt with: they gave x. */
  ghost predicate Gives(s: BitString, n: nat, b: bv32, x: bv32, b': bv32)
  {
    && n <= |s|
    && Mul(POLY(), s, BitsOf(b)) == Xor(BitsOf(x), Mul(POLY(), s[..|s| - n], BitsOf(b')))
  }

  lemma {:induction false} GivesOne(s: BitString, b: bv32)
    requires s != []
    ensures Gives(s, 1, b, if s[|s| - 1] then b else 0, TimesB(b))
  {
    TimesBits(b);
    ZeroBits();
    XorZero(Mul(POLY(), s[..|s| - 1], BitsOf(TimesB(b))));
  }

  lemma {:induction false} GivesBoth(s: BitString, m: nat, n: nat, b: bv32, x: bv32, b': bv32, y: bv32, b'': bv32, z: bv32)
    requires Gives(s, m, b, x, b') && n <= |s| - m && Gives(s[..|s| - m], n, b', y, b'') && z == x ^ y
    ensures Gives(s, m + n, b, z, b'')
  {
    assert s[..|s| - m][..|s| - m - n] == s[..|s| - (m + n)];
    XorBits(x, y, z);
    XorAssoc(BitsOf(x), BitsOf(y), Mul(POLY(), s[..|s| - (m + n)], BitsOf(b'')));
  }

  /** The last n bits of s are those of a from the mask m down. */
  ghost predicate Covers(a: bv32, m: bv32, s: BitString, n: nat)
    decreases n
  {
    n == 0 || (s != [] && s[|s| - 1] == (a & m != 0) && Covers(a, m >> 1, s[..|s| - 1], n - 1))
  }

  /** prod gives the product with n coefficients, and times is the product with x^n. */
  ghost predicate Level(n: nat, times: bv32 -> bv32, prod: (bv32, bv32, bv32) -> bv32)
  {
    forall a: bv32, m: bv32, s: BitString, b: bv32 :: Covers(a, m, s, n) ==> Gives(s, n, b, prod(a, m, b), times(b))
  }

  /** Twice as many: a lower mask for the second half. */
  ghost predicate Doubles(n: nat, times: bv32 -> bv32, prod: (bv32, bv32, bv32) -> bv32, lower: bv32 -> bv32,
                          times': bv32 -> bv32, prod': (bv32, bv32, bv32) -> bv32)
  {
    && (forall b: bv32 :: times'(b) == times(times(b)))
    && (forall a: bv32, m: bv32, b: bv32 :: prod'(a, m, b) == prod(a, m, b) ^ prod(a, lower(m), times(b)))
  }

  ghost predicate Splits(n: nat, lower: bv32 -> bv32)
  {
    forall a: bv32, m: bv32, s: BitString :: Covers(a, m, s, 2 * n) ==> Covers(a, m, s, n) && n <= |s| && Covers(a, lower(m), s[..|s| - n], n)
  }

  lemma {:induction false} LevelDoubles(n: nat, times: bv32 -> bv32, prod: (bv32, bv32, bv32) -> bv32, lower: bv32 -> bv32,
                                        times': bv32 -> bv32, prod': (bv32, bv32, bv32) -> bv32)
    requires Level(n, times, prod) && Doubles(n, times, prod, lower, times', prod') && Splits(n, lower)
    ensures Level(2 * n, times', prod')
  {
    forall a: bv32, m: bv32, s: BitString, b: bv32 | Covers(a, m, s, 2 * n) ensures Gives(s, 2 * n, b, prod'(a, m, b), times'(b)) {
      LevelOne(n, 2 * n, times, prod, lower, times', prod', a, m, s, b);
    }
  }

  lemma {:induction false} LevelOne(n: nat, twice: nat, times: bv32 -> bv32, prod: (bv32, bv32, bv32) -> bv32, lower: bv32 -> bv32,
                                    times': bv32 -> bv32, prod': (bv32, bv32, bv32) -> bv32, a: bv32, m: bv32, s: BitString, b: bv32)
    requires Level(n, times, prod) && Doubles(n, times, prod, lower, times', prod') && Splits(n, lower)
    requires twice == 2 * n && Covers(a, m, s, twice)
    ensures Gives(s, twice, b, prod'(a, m, b), times'(b))
  {
    SplitAt(n, twice, lower, a, m, s);
    DoublesAt(n, times, prod, lower, times', prod', a, m, b);
    DoubleAt(n, times, prod, lower(m), a, m, s, b, prod'(a, m, b), times'(b));
  }

  lemma {:induction false} SplitAt(n: nat, twice: nat, lower: bv32 -> bv32, a: bv32, m: bv32, s: BitString)
    requires Splits(n, lower) && twice == 2 * n && Covers(a, m, s, twice)
    ensures Covers(a, m, s, n) && n <= |s| && Covers(a, lower(m), s[..|s| - n], n)
  {
  }

  lemma {:induction false} DoublesAt(n: nat, times: bv32 -> bv32, prod: (bv32, bv32, bv32) -> bv32, lower: bv32 -> bv32,
                                     times': bv32 -> bv32, prod': (bv32, bv32, bv32) -> bv32, a: bv32, m: bv32, b: bv32)
    requires Doubles(n, times, prod, lower, times', prod')
    ensures times'(b) == times(times(b)) && prod'(a, m, b) == prod(a, m, b) ^ prod(a, lower(m), times(b))
  {
  }

  lemma {:induction false} DoubleAt(n: nat, times: bv32 -> bv32, prod: (bv32, bv32, bv32) -> bv32, m': bv32, a: bv32, m: bv32, s: BitString, b: bv32,
                                    z: bv32, b2: bv32)
    requires Level(n, times, prod) && Covers(a, m, s, n) && n <= |s| && Covers(a, m', s[..|s| - n], n)
    requires z == prod(a, m, b) ^ prod(a, m', times(b)) && b2 == times(times(b))
    ensures Gives(s, 2 * n, b, z, b2)
  {
    var b1 := times(b);
    GivesAt(n, times, prod, a, m, s, b);
    GivesAt(n, times, prod, a, m', s[..|s| - n], b1);
    GivesBoth(s, n, n, b, prod(a, m, b), b1, prod(a, m', b1), b2, z);
  }

  lemma {:induction false} GivesAt(n: nat, times: bv32 -> bv32, prod: (bv32, bv32, bv32) -> bv32, a: bv32, m: bv32, s: BitString, b: bv32)
    requires Level(n, times, prod) && Covers(a, m, s, n)
    ensures Gives(s, n, b, prod(a, m, b), times(b))
  {
  }

  lemma {:induction false} Level1()
    ensures Level(1, TimesB, Prod1)
  {
    forall a: bv32, m: bv32, s: BitString, b: bv32 | Covers(a, m, s, 1) ensures Gives(s, 1, b, Prod1(a, m, b), TimesB(b)) {
      GivesOne(s, b);
    }
  }

  function Down1(m: bv32): bv32 { m >> 1 }

  function Down2(m: bv32): bv32 { m >> 2 }

  function Down4(m: bv32): bv32 { m >> 4 }

  function Down8(m: bv32): bv32 { m >> 8 }

  function Down16(m: bv32): bv32 { m >> 16 }

  lemma {:induction false} Doubles1()
    ensures Doubles(1, TimesB, Prod1, Down1, Times2, Prod2)
  {
  }

  lemma {:induction false} Doubles2()
    ensures Doubles(2, Times2, Prod2, Down2, Times4, Prod4)
  {
  }

  lemma {:induction false} Doubles4()
    ensures Doubles(4, Times4, Prod4, Down4, Times8, Prod8)
  {
  }

  lemma {:induction false} Doubles8()
    ensures Doubles(8, Times8, Prod8, Down8, Times16, Prod16)
  {
  }

  function Times32(b: bv32): bv32 { Times16(Times16(b)) }

  lemma {:induction false} Doubles16()
    ensures Doubles(16, Times16, Prod16, Down16, Times32, Prod32)
  {
  }

  /** n masks further down. */
  function DownBy(n: nat, m: bv32): bv32
    decreases n
  {
    if n == 0 then m else DownBy(n - 1, m >> 1)
  }

  lemma {:induction false} CoversSplit(a: bv32, m: bv32, s: BitString, n: nat, k: nat)
    requires Covers(a, m, s, n + k)
    ensures Covers(a, m, s, n) && n <= |s| && Covers(a, DownBy(n, m), s[..|s| - n], k)
    decreases n
  {
    if n == 0 {
      assert s[..|s|] == s;
    } else {
      CoversSplit(a, m >> 1, s[..|s| - 1], n - 1, k);
      assert s[..|s| - 1][..|s| - n] == s[..|s| - n];
    }
  }

  lemma {:induction false} SplitsBy(n: nat, lower: bv32 -> bv32)
    requires forall m: bv32 :: lower(m) == DownBy(n, m)
    ensures Splits(n, lower)
  {
    forall a: bv32, m: bv32, s: BitString | Covers(a, m, s, 2 * n)
      ensures Covers(a, m, s, n) && n <= |s| && Covers(a, lower(m), s[..|s| - n], n)
    {
      CoversSplit(a, m, s, n, n);
    }
  }

  /** m has bit k alone. */
  ghost predicate IsMask(m: bv32, k: nat)
    decreases k
  {
    if k == 0 then m == 1 else m & 1 == 0 && IsMask(m >> 1, k - 1)
  }

  lemma {:induction false} Halves(a: bv32, m: bv32, a': bv32, m': bv32)
    requires a' == a >> 1 && m' == m >> 1 && m & 1 == 0
    ensures (a & m != 0) == (a' & m' != 0)
  {
  }

  lemma {:induction false} MaskBit(a: bv32, m: bv32, k: nat)
    requires IsMask(m, k)
    ensures (a & m != 0) == BitAt(a, k)
    decreases k
  {
    if k > 0 {
      var a', m' := a >> 1, m >> 1;
      Halves(a, m, a', m');
      NextBit(a, a', k - 1);
      MaskBit(a', m', k - 1);
    }
  }

  lemma {:induction false} TopMask()
    ensures IsMask(0x8000_0000, 31)
  {
    assert IsMask(8, 3);
    assert IsMask(0x80, 7);
    assert IsMask(0x800, 11);
    assert IsMask(0x8000, 15);
    assert IsMask(0x8_0000, 19);
    assert IsMask(0x80_0000, 23);
    assert IsMask(0x800_0000, 27);
  }

  lemma {:induction false} CoversBits(a: bv32, m: bv32, s: BitString, n: nat)
    requires |s| == n && (n > 0 ==> IsMask(m, n - 1)) && forall i: nat :: i < n ==> s[i] == BitAt(a, i)
    ensures Covers(a, m, s, n)
    decreases n
  {
    if n > 0 {
      MaskBit(a, m, n - 1);
      CoversBits(a, m >> 1, s[..n - 1], n - 1);
    }
  }

  lemma {:induction false} SplitsAll()
    ensures Splits(1, Down1) && Splits(2, Down2) && Splits(4, Down4) && Splits(8, Down8) && Splits(16, Down16)
  {
    SplitsBy(1, Down1);
    SplitsBy(2, Down2);
    SplitsBy(4, Down4);
    SplitsBy(8, Down8);
    SplitsBy(16, Down16);
  }

  lemma {:induction false} Level32()
    ensures Level(32, Times32, Prod32)
  {
    SplitsAll();
    Level1();
    Doubles1();
    LevelDoubles(1, TimesB, Prod1, Down1, Times2, Prod2);
    Doubles2();
    LevelDoubles(2, Times2, Prod2, Down2, Times4, Prod4);
    Doubles4();
    LevelDoubles(4, Times4, Prod4, Down4, Times8, Prod8);
    Doubles8();
    LevelDoubles(8, Times8, Prod8, Down8, Times16, Prod16);
    Doubles16();
    LevelDoubles(16, Times16, Prod16, Down16, Times32, Prod32);
  }

  lemma {:induction false} ProductBits(a: bv32, b: bv32)
    ensures BitsOf(Product(a, b)) == Mul(POLY(), BitsOf(a), BitsOf(b))
  {
    var s := BitsOf(a);
    TopMask();
    CoversBits(a, 0x8000_0000, s, 32);
    Level32();
    GivesAt(32, Times32, Prod32, a, 0x8000_0000, s, b);
    WholeProduct(s, b, Product(a, b), Times32(b));
  }

  lemma {:induction false} WholeProduct(s: Poly, b: bv32, x: bv32, b': bv32)
    requires Gives(s, 32, b, x, b')
    ensures Mul(POLY(), s, BitsOf(b)) == BitsOf(x)
  {
    XorZero(BitsOf(x));
  }

  // ----- the powers x^(2^k) -----

  /** x^(2^k) modulo p. */
  ghost function Power(k: nat): Poly { Raised(POLY(), Pow2(k), ONE) }

  lemma {:induction false} PowerSquares(k: nat)
    ensures Mul(POLY(), Power(k), Power(k)) == Power(k + 1)
  {
    var n := Pow2(k);
    MulPower(POLY(), n, Power(k));
    RaisedTwice(POLY(), n, n, ONE);
  }

  lemma {:induction false} NextPower(k: nat, a: bv32, b: bv32)
    requires Power(k) == BitsOf(a) && Product(a, a) == b
    ensures Power(k + 1) == BitsOf(b)
  {
    PowerSquares(k);
    ProductBits(a, a);
  }

  lemma {:induction false} OtherBits(m: bv32, k: nat, i: nat)
    requires IsMask(m, k) && i != k
    ensures !BitAt(m, i)
    decreases i
  {
    if i > 0 {
      if k == 0 {
        ZeroBit(i - 1);
      } else {
        OtherBits(m >> 1, k - 1, i - 1);
      }
    }
  }

  lemma {:induction false} FirstPower()
    ensures Power(0) == BitsOf(0x4000_0000)
  {
    TopMask();
    forall i: nat | i < 32 ensures BitAt(0x8000_0000, i) == (i == 31) {
      MaskBit(0x8000_0000, 0x8000_0000, 31);
      if i != 31 {
        OtherBits(0x8000_0000, 31, i);
      }
    }
    assert BitsOf(0x8000_0000) == ONE;
    TimesBits(0x8000_0000);
    assert Power(0) == Times(POLY(), Raised(POLY(), 0, ONE));
  }

  lemma {:induction false} Powers0()
    requires Power(0) == BitsOf(0x4000_0000)
    ensures Power(4) == BitsOf(0x0000_8000)
  {
    NextPower(0, 0x4000_0000, 0x2000_0000);
    NextPower(1, 0x2000_0000, 0x0800_0000);
    NextPower(2, 0x0800_0000, 0x0080_0000);
    NextPower(3, 0x0080_0000, 0x0000_8000);
  }

  lemma {:induction false} Powers4()
    requires Power(4) == BitsOf(0x0000_8000)
    ensures Power(8) == BitsOf(0xed62_7dae)
  {
    NextPower(4, 0x0000_8000, 0xedb8_8320);
    NextPower(5, 0xedb8_8320, 0xb1e6_b092);
    NextPower(6, 0xb1e6_b092, 0xa06a_2517);
    NextPower(7, 0xa06a_2517, 0xed62_7dae);
  }

  lemma {:induction false} Powers8()
    requires Power(8) == BitsOf(0xed62_7dae)
    ensures Power(12) == BitsOf(0x8e7e_a170)
  {
    NextPower(8, 0xed62_7dae, 0x88d1_4467);
    NextPower(9, 0x88d1_4467, 0xd7bb_fe6a);
    NextPower(10, 0xd7bb_fe6a, 0xec44_7f11);
    NextPower(11, 0xec44_7f11, 0x8e7e_a170);
  }

  lemma {:induction false} Powers12()
    requires Power(12) == BitsOf(0x8e7e_a170)
    ensures Power(16) == BitsOf(0x8385_2d0f)
  {
    NextPower(12, 0x8e7e_a170, 0x6427_800e);
    NextPower(13, 0x6427_800e, 0x4d47_bae0);
    NextPower(14, 0x4d47_bae0, 0x09fe_548f);
    NextPower(15, 0x09fe_548f, 0x8385_2d0f);
  }

  lemma {:induction false} Powers16()
    requires Power(16) == BitsOf(0x8385_2d0f)
    ensures Power(20) == BitsOf(0x9fec_022a)
  {
    NextPower(16, 0x8385_2d0f, 0x3036_2f1a);
    NextPower(17, 0x3036_2f1a, 0x7b5a_9cc3);
    NextPower(18, 0x7b5a_9cc3, 0x31fe_c169);
    NextPower(19, 0x31fe_c169, 0x9fec_022a);
  }

  lemma {:induction false} Powers20()
    requires Power(20) == BitsOf(0x9fec_022a)
    ensures Power(24) == BitsOf(0xbad9_0e37)
  {
    NextPower(20, 0x9fec_022a, 0x6c8d_edc4);
    NextPower(21, 0x6c8d_edc4, 0x15d6_874d);
    NextPower(22, 0x15d6_874d, 0x5fde_7a4e);
    NextPower(23, 0x5fde_7a4e, 0xbad9_0e37);
  }

  lemma {:induction false} Powers24()
    requires Power(24) == BitsOf(0xbad9_0e37)
    ensures Power(28) == BitsOf(0x429a_969e)
  {
    NextPower(24, 0xbad9_0e37, 0x2e4e_5eef);
    NextPower(25, 0x2e4e_5eef, 0x4eab_a214);
    NextPower(26, 0x4eab_a214, 0xa8a4_72c0);
    NextPower(27, 0xa8a4_72c0, 0x429a_969e);
  }

  lemma {:induction false} Powers28()
    requires Power(28) == BitsOf(0x429a_969e)
    ensures Power(32) == BitsOf(0x4000_0000)
  {
    NextPower(28, 0x429a_969e, 0x148d_302a);
    NextPower(29, 0x148d_302a, 0xc40b_a6d0);
    NextPower(30, 0xc40b_a6d0, 0xc4e2_2c3c);
    NextPower(31, 0xc4e2_2c3c, 0x4000_0000);
  }

  /** x^(2^32) = x, so that the table of powers may be used over and over. */
  lemma {:induction false} PowerPeriod(k: nat)
    ensures Power(k + 32) == Power(k)
  {
    if k == 0 {
      FirstPower();
      Powers0();
      Powers4();
      Powers8();
      Powers12();
      Powers16();
      Powers20();
      Powers24();
      Powers28();
    } else {
      PowerPeriod(k - 1);
      PowerSquares(k - 1);
      PowerSquares(k + 31);
    }
  }
}
