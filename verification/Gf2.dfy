/**
 Polynomials over GF(2) modulo the CRC polynomial, as crc32.c keeps them: 32 coefficients in
 a word, the lowest power in the most significant bit. A word is the string of its bits,
 least significant first, so that the coefficient of x^i is bit 31 - i.
 */
module Gf2 {
  import opened Bits

  /** Addition. */
  function Xor(a: BitString, b: BitString): (r: BitString)
    requires |a| == |b|
    ensures |r| == |a|
  {
    seq(|a|, i requires 0 <= i < |a| => a[i] != b[i])
  }

  lemma {:induction false} XorCommutes(a: BitString, b: BitString)
    requires |a| == |b|
    ensures Xor(a, b) == Xor(b, a)
  {
  }

  lemma {:induction false} XorAssoc(a: BitString, b: BitString, c: BitString)
    requires |a| == |b| == |c|
    ensures Xor(Xor(a, b), c) == Xor(a, Xor(b, c))
  {
  }

  lemma {:induction false} XorZero(a: BitString)
    ensures Xor(a, Zeros(|a|)) == a && Xor(Zeros(|a|), a) == a && Xor(a, a) == Zeros(|a|)
  {
  }

  lemma {:induction false} XorSwap(a: BitString, b: BitString, c: BitString, d: BitString)
    requires |a| == |b| == |c| == |d|
    ensures Xor(Xor(a, b), Xor(c, d)) == Xor(Xor(a, c), Xor(b, d))
  {
  }

  /** A word. */
  type Poly = w: BitString | |w| == 32 witness Zeros(32)

  const ZERO: Poly := Zeros(32)

  /** x^0 */
  const ONE: Poly := Zeros(31) + [true]

  /** Right by one: a product with x when there is no x^31. */
  function Half(b: Poly): Poly { b[1..] + [false] }

  /** Times x, modulo x^32 + p. */
  function Times(p: Poly, b: Poly): Poly { if b[0] then Xor(Half(b), p) else Half(b) }

  /** Times x^n. */
  function Raised(p: Poly, n: nat, b: Poly): Poly { if n == 0 then b else Times(p, Raised(p, n - 1, b)) }

  /** The product: b, b x, b x^2, ... added up where a has the coefficient. */
  function Mul(p: Poly, a: BitString, b: Poly): Poly
    decreases |a|
  {
    if a == [] then ZERO
    else
      var rest := Mul(p, a[..|a| - 1], Times(p, b));
      if a[|a| - 1] then Xor(b, rest) else rest
  }

  // ----- the algebra -----

  lemma {:induction false} HalfSum(a: Poly, b: Poly)
    ensures Half(Xor(a, b)) == Xor(Half(a), Half(b))
  {
  }

  lemma {:induction false} TimesSum(p: Poly, a: Poly, b: Poly)
    ensures Times(p, Xor(a, b)) == Xor(Times(p, a), Times(p, b))
  {
    HalfSum(a, b);
    var u, v := Half(a), Half(b);
    XorAssoc(u, v, p);
    XorAssoc(u, p, v);
    XorCommutes(v, p);
    XorSwap(u, p, v, p);
    XorZero(p);
    XorZero(Xor(u, v));
  }

  lemma {:induction false} TimesZero(p: Poly)
    ensures Times(p, ZERO) == ZERO
  {
    assert Half(ZERO) == ZERO;
  }

  lemma {:induction false} RaisedSum(p: Poly, n: nat, a: Poly, b: Poly)
    ensures Raised(p, n, Xor(a, b)) == Xor(Raised(p, n, a), Raised(p, n, b))
  {
    if n > 0 {
      RaisedSum(p, n - 1, a, b);
      TimesSum(p, Raised(p, n - 1, a), Raised(p, n - 1, b));
    }
  }

  lemma {:induction false} RaisedZero(p: Poly, n: nat)
    ensures Raised(p, n, ZERO) == ZERO
  {
    if n > 0 {
      RaisedZero(p, n - 1);
      TimesZero(p);
    }
  }

  lemma {:induction false} RaisedTwice(p: Poly, m: nat, n: nat, b: Poly)
    ensures Raised(p, m, Raised(p, n, b)) == Raised(p, m + n, b)
  {
    if m > 0 {
      RaisedTwice(p, m - 1, n, b);
    }
  }

  lemma {:induction false} MulSum(p: Poly, a: BitString, b: Poly, c: Poly)
    ensures Mul(p, a, Xor(b, c)) == Xor(Mul(p, a, b), Mul(p, a, c))
    decreases |a|
  {
    if a == [] {
      XorZero(ZERO);
    } else {
      var a' := a[..|a| - 1];
      TimesSum(p, b, c);
      MulSum(p, a', Times(p, b), Times(p, c));
      XorSwap(b, c, Mul(p, a', Times(p, b)), Mul(p, a', Times(p, c)));
    }
  }

  lemma {:induction false} MulTimes(p: Poly, a: BitString, b: Poly)
    ensures Mul(p, a, Times(p, b)) == Times(p, Mul(p, a, b))
    decreases |a|
  {
    if a == [] {
      TimesZero(p);
    } else {
      var a' := a[..|a| - 1];
      MulTimes(p, a', Times(p, b));
      TimesSum(p, b, Mul(p, a', Times(p, b)));
    }
  }

  lemma {:induction false} MulZero(p: Poly, a: BitString)
    ensures Mul(p, a, ZERO) == ZERO
    decreases |a|
  {
    if a != [] {
      TimesZero(p);
      MulZero(p, a[..|a| - 1]);
      XorZero(ZERO);
    }
  }

  /** The factors in front can be exchanged. */
  lemma {:induction false} MulExchange(p: Poly, a: BitString, b: BitString, c: Poly)
    ensures Mul(p, a, Mul(p, b, c)) == Mul(p, b, Mul(p, a, c))
    decreases |b|
  {
    if b == [] {
      MulZero(p, a);
    } else {
      var b' := b[..|b| - 1];
      MulSum(p, a, c, Mul(p, b', Times(p, c)));
      MulExchange(p, a, b', Times(p, c));
      MulTimes(p, a, c);
    }
  }

  /** x^i, as a word. */
  function Basis(i: nat): Poly
    requires i < 32
  {
    Zeros(31 - i) + [true] + Zeros(i)
  }

  /** The first n coefficients of a word, from x^i on, times x^i. */
  lemma {:induction false} MulBasis(p: Poly, a: BitString, i: nat)
    requires |a| + i == 32
    ensures i < 32 ==> Mul(p, a, Basis(i)) == a + Zeros(i)
    decreases |a|
  {
    if 0 < |a| {
      var a' := a[..|a| - 1];
      if i == 31 {
        assert Mul(p, a', Times(p, Basis(i))) == ZERO;
      } else {
        assert Times(p, Basis(i)) == Basis(i + 1);
        MulBasis(p, a', i + 1);
      }
      BasisSum(a, i);
    }
  }

  lemma {:induction false} BasisSum(a: BitString, i: nat)
    requires |a| + i == 32 && |a| > 0
    ensures var rest := a[..|a| - 1] + Zeros(i + 1);
            a + Zeros(i) == if a[|a| - 1] then Xor(Basis(i), rest) else rest
  {
  }

  lemma {:induction false} MulOne(p: Poly, a: Poly)
    ensures Mul(p, a, ONE) == a
  {
    assert ONE == Basis(0) && a + Zeros(0) == a;
    MulBasis(p, a, 0);
  }

  lemma {:induction false} MulCommutes(p: Poly, a: Poly, b: Poly)
    ensures Mul(p, a, b) == Mul(p, b, a)
  {
    MulOne(p, a);
    MulOne(p, b);
    MulExchange(p, a, b, ONE);
  }

  lemma {:induction false} MulRaised(p: Poly, a: BitString, n: nat, b: Poly)
    ensures Mul(p, a, Raised(p, n, b)) == Raised(p, n, Mul(p, a, b))
  {
    if n > 0 {
      MulRaised(p, a, n - 1, b);
      MulTimes(p, a, Raised(p, n - 1, b));
    }
  }

  /** Multiplying by x^n, whichever way it is written. */
  lemma {:induction false} MulPower(p: Poly, n: nat, b: Poly)
    ensures Mul(p, Raised(p, n, ONE), b) == Raised(p, n, b)
  {
    MulCommutes(p, Raised(p, n, ONE), b);
    MulRaised(p, b, n, ONE);
    MulOne(p, b);
  }
}
