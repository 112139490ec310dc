/**
 The tables of crc32.c: `make_crc_table`, `braid`, and the arithmetic of polynomials they
 need, `multmodp` and `x2nmodp`.
 */
module CrcTables {
  import opened Bits
  import opened Gf2
  import opened CrcPeriod

  lemma {:induction false} AllClear(b: BitString, n: nat)
    requires |b| == n && forall i :: 0 <= i < n ==> !b[i]
    ensures b == Zeros(n)
  {
  }

  lemma {:induction false} SomeBit(b: Poly) returns (i: nat)
    requires b != ZERO
    ensures i < 32 && b[i]
  {
    i := 0;
    while i < 32 && !b[i]
      invariant i <= 32 && forall j :: 0 <= j < i ==> !b[j]
    {
      i := i + 1;
    }
    if i == 32 {
      AllClear(b, 32);
    }
  }

  /** x cannot make a polynomial vanish. */
  lemma {:induction false} TimesNonzero(b: Poly)
    requires b != ZERO
    ensures Times(POLY(), b) != ZERO
  {
    PolyTop();
    var r := Times(POLY(), b);
    if b[0] {
      assert r[31] && !ZERO[31];
    } else {
      var i := SomeBit(b);
      assert r[i - 1] && !ZERO[i - 1];
    }
  }

  lemma {:induction false} PolyTop()
    ensures POLY()[31]
  {
    TopMask();
    MaskBit(0xedb8_8320, 0x8000_0000, 31);
  }

  lemma {:induction false} RaisedNonzero(n: nat, b: Poly)
    requires b != ZERO
    ensures Raised(POLY(), n, b) != ZERO
  {
    if n > 0 {
      RaisedNonzero(n - 1, b);
      TimesNonzero(Raised(POLY(), n - 1, b));
    }
  }

  lemma {:induction false} OneNonzero()
    ensures ONE != ZERO
  {
    assert ONE[31] && !ZERO[31];
  }

  lemma {:induction false} MulZeros(p: Poly, n: nat, b: Poly)
    ensures Mul(p, Zeros(n), b) == ZERO
  {
    if n > 0 {
      assert Zeros(n)[..n - 1] == Zeros(n - 1);
      MulZeros(p, n - 1, Times(p, b));
    }
  }

  /** multmodp: the bits of a from the top down, until none is left. */
  method MultModP(a: Poly, b0: Poly) returns (r: Poly)
    requires a != ZERO
    ensures r == Mul(POLY(), a, b0)
  {
    var b := b0;
    var m: nat := 31;
    r := ZERO;
    assert a[..32] == a;
    XorZero(Mul(POLY(), a, b));
    while true
      invariant m <= 31 && a[..m + 1] != Zeros(m + 1) && Xor(r, Mul(POLY(), a[..m + 1], b)) == Mul(POLY(), a, b0)
      decreases m
    {
      LastCoefficient(a, m, b);
      if a[m] {
        XorAssoc(r, b, Mul(POLY(), a[..m], Times(POLY(), b)));
        r := Xor(r, b);
        if a[..m] == Zeros(m) {
          MulZeros(POLY(), m, Times(POLY(), b));
          XorZero(r);
          break;
        }
      }
      m := m - 1;
      b := Times(POLY(), b);
    }
  }

  /** The coefficient in bit m, and the rest. */
  lemma {:induction false} LastCoefficient(a: Poly, m: nat, b: Poly)
    requires m <= 31 && a[..m + 1] != Zeros(m + 1)
    ensures var rest := Mul(POLY(), a[..m], Times(POLY(), b));
            Mul(POLY(), a[..m + 1], b) == if a[m] then Xor(b, rest) else rest
    ensures !a[m] ==> m > 0 && a[..m] != Zeros(m)
  {
    assert a[..m + 1][..m] == a[..m];
    if !a[m] && (m == 0 || a[..m] == Zeros(m)) {
      ClearUpTo(a, m);
    }
  }

  lemma {:induction false} ClearUpTo(a: Poly, m: nat)
    requires m <= 31 && !a[m] && (m == 0 || a[..m] == Zeros(m))
    ensures a[..m + 1] == Zeros(m + 1)
  {
    assert a[..m + 1] == a[..m] + [a[m]];
  }

  lemma {:induction false} PowerMod(k: nat)
    ensures Power(k) == Power(k % 32)
  {
    if k >= 32 {
      PowerMod(k - 32);
      PowerPeriod(k - 32);
    }
  }

  ghost predicate IsPowers(x2n: seq<Poly>) { |x2n| == 32 && forall k: nat :: k < 32 ==> x2n[k] == Power(k) }

  /** The table of x^(2^n). */
  method MakePowers() returns (x2n: seq<Poly>)
    ensures IsPowers(x2n)
  {
    OneNonzero();
    var p := Times(POLY(), ONE);
    assert Power(0) == Times(POLY(), Raised(POLY(), 0, ONE));
    x2n := [p];
    var n: nat := 1;
    while n < 32
      invariant 1 <= n <= 32 && |x2n| == n && p == Power(n - 1) && forall k: nat :: k < n ==> x2n[k] == Power(k)
    {
      RaisedNonzero(Pow2(n - 1), ONE);
      PowerSquares(n - 1);
      p := MultModP(p, p);
      x2n := x2n + [p];
      n := n + 1;
    }
  }

  /** n times 2^k, one at a time. */
  ghost function Scaled(n: nat, k: nat): nat { if n == 0 then 0 else Pow2(k) + Scaled(n - 1, k) }

  lemma {:induction false} ScaledIs(n: nat, k: nat)
    ensures Scaled(n, k) == n * Pow2(k)
  {
    if n > 0 {
      ScaledIs(n - 1, k);
    }
  }

  lemma {:induction false} HalveExponent(n: nat, k: nat)
    ensures Scaled(n, k) == Scaled(n / 2, k + 1) + if n % 2 == 1 then Pow2(k) else 0
  {
    ScaledIs(n, k);
    ScaledIs(n / 2, k + 1);
    HalveProduct(n, Pow2(k));
  }

  lemma {:induction false} HalveProduct(n: nat, q: nat)
    ensures n * q == (n / 2) * (2 * q) + (n % 2) * q
  {
    var h, r := n / 2, n % 2;
    assert n == 2 * h + r;
    assert (2 * h + r) * q == h * (2 * q) + r * q;
  }

  /** x2nmodp: x^(n 2^k) modulo p. */
  method X2nModP(x2n: seq<Poly>, n0: nat, k0: nat) returns (p: Poly)
    requires IsPowers(x2n)
    ensures p == Raised(POLY(), n0 * Pow2(k0), ONE)
  {
    p := ONE;
    var n, k := n0, k0;
    ghost var e: nat := 0;
    while n != 0
      invariant p == Raised(POLY(), e, ONE) && e + Scaled(n, k) == Scaled(n0, k0)
    {
      HalveExponent(n, k);
      if n % 2 == 1 {
        p := OnePower(x2n, k, p, e);
        e := Pow2(k) + e;
      }
      n := n / 2;
      k := k + 1;
    }
    ScaledIs(n0, k0);
  }

  method OnePower(x2n: seq<Poly>, k: nat, p: Poly, ghost e: nat) returns (r: Poly)
    requires IsPowers(x2n) && p == Raised(POLY(), e, ONE)
    ensures r == Raised(POLY(), Pow2(k) + e, ONE)
  {
    PowerMod(k);
    OneNonzero();
    RaisedNonzero(Pow2(k), ONE);
    MulPower(POLY(), Pow2(k), p);
    RaisedTwice(POLY(), Pow2(k), e, ONE);
    r := MultModP(x2n[k % 32], p);
  }

  // ----- tables of bytes -----

  /** A byte in the low bits of a word, and in the high bits. */
  function ByteWord(v: nat): Poly { LowBits(v, 8) + Zeros(24) }

  function TopByte(v: nat): Poly { Zeros(24) + LowBits(v, 8) }

  lemma {:induction false} ShiftZeros(p: Poly, n: nat, u: BitString)
    requires n + |u| == 32
    ensures Raised(p, n, Zeros(n) + u) == u + Zeros(n)
  {
    ShiftSome(p, n, n, u);
    assert Zeros(0) + u + Zeros(n) == u + Zeros(n);
  }

  lemma {:induction false} ShiftSome(p: Poly, n: nat, k: nat, u: BitString)
    requires k <= n && n + |u| == 32
    ensures Raised(p, k, Zeros(n) + u) == Zeros(n - k) + u + Zeros(k)
  {
    if k == 0 {
      assert Zeros(n) + u + Zeros(0) == Zeros(n) + u;
    } else {
      ShiftSome(p, n, k - 1, u);
      var w := Zeros(n - k + 1) + u + Zeros(k - 1);
      assert w[1..] + [false] == Zeros(n - k) + u + Zeros(k);
    }
  }

  ghost predicate IsByteTable(t: seq<Poly>)
  {
    |t| == 256 && forall i: nat :: i < 256 ==> t[i] == Raised(POLY(), 8, ByteWord(i))
  }

  /** The CRCs of all bytes. */
  method MakeCrcTable() returns (t: seq<Poly>)
    ensures IsByteTable(t)
  {
    t := [];
    var i: nat := 0;
    while i < 256
      invariant i <= 256 && |t| == i && forall x: nat :: x < i ==> t[x] == Raised(POLY(), 8, ByteWord(x))
    {
      var p := ByteWord(i);
      var j: nat := 0;
      while j < 8
        invariant j <= 8 && p == Raised(POLY(), j, ByteWord(i))
      {
        p := Times(POLY(), p);
        j := j + 1;
      }
      t := t + [p];
      i := i + 1;
    }
  }

  /** Table k of a braid: byte k of a word, moved on over the rest of n words of w bytes. */
  ghost predicate IsBraidRow(row: seq<Poly>, e: nat)
  {
    |row| == 256 && forall i: nat :: i < 256 ==> row[i] == Raised(POLY(), e, ByteWord(i))
  }

  ghost predicate IsBraid(ltl: seq<seq<Poly>>, n: nat, w: nat)
  {
    |ltl| == w && forall k: nat :: k < w ==> BytesLeft(n, w, k) >= 0 && IsBraidRow(ltl[k], 8 * BytesLeft(n, w, k))
  }

  function BytesLeft(n: nat, w: nat, k: nat): int { n * w - k }

  lemma {:induction false} LeftOver(n: nat, w: nat, k: nat)
    requires n >= 1 && k < w
    ensures BytesLeft(n, w, k) >= 1
  {
    MulMono(w, 1, n);
  }

  lemma {:induction false} ByteNonzero(i: nat)
    requires 1 <= i < 256
    ensures TopByte(i) != ZERO
  {
    if TopByte(i) == ZERO {
      assert LowBits(i, 8) == TopByte(i)[24..] == Zeros(8);
      Pow2Values();
      ValLowBits(i, 8);
      ZerosAreZero(8);
    }
  }

  lemma {:induction false} RowEntry(i: nat, e: nat)
    ensures Mul(POLY(), TopByte(i), Raised(POLY(), e + 24, ONE)) == Raised(POLY(), e, ByteWord(i))
  {
    MulRaised(POLY(), TopByte(i), e + 24, ONE);
    MulOne(POLY(), TopByte(i));
    RaisedTwice(POLY(), e, 24, TopByte(i));
    ShiftZeros(POLY(), 24, LowBits(i, 8));
  }

  method BraidRow(p: Poly, ghost e: nat) returns (row: seq<Poly>)
    requires p == Raised(POLY(), e + 24, ONE)
    ensures IsBraidRow(row, e)
  {
    row := [ZERO];
    assert ByteWord(0) == ZERO by { assert LowBits(0, 8) == Zeros(8) by { NoBits(8); } }
    RaisedZero(POLY(), e);
    var i: nat := 1;
    while i < 256
      invariant 1 <= i <= 256 && |row| == i && forall x: nat :: x < i ==> row[x] == Raised(POLY(), e, ByteWord(x))
    {
      ByteNonzero(i);
      RowEntry(i, e);
      var q := MultModP(TopByte(i), p);
      row := row + [q];
      i := i + 1;
    }
  }

  lemma {:induction false} NoBits(n: nat)
    ensures LowBits(0, n) == Zeros(n)
  {
    if n > 0 {
      NoBits(n - 1);
      assert Zeros(n) == [false] + Zeros(n - 1);
    }
  }

  /** braid: the tables for n braids of words of w bytes. */
  method Braid(x2n: seq<Poly>, n: nat, w: nat) returns (ltl: seq<seq<Poly>>)
    requires IsPowers(x2n) && n >= 1
    ensures IsBraid(ltl, n, w)
  {
    ltl := [];
    var k: nat := 0;
    while k < w
      invariant k <= w && |ltl| == k
      invariant forall j: nat :: j < k ==> BytesLeft(n, w, j) >= 0 && IsBraidRow(ltl[j], 8 * BytesLeft(n, w, j))
    {
      LeftOver(n, w, k);
      var left := n * w - k;
      var p := X2nModP(x2n, (left + 3) * 8, 0);
      assert (left + 3) * 8 * Pow2(0) == 8 * left + 24;
      var row := BraidRow(p, 8 * left);
      ltl := ltl + [row];
      k := k + 1;
    }
  }
}
