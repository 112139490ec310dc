/**
 Bit strings.  A stream is a sequence of bits in the order they are sent.  DEFLATE packs
 them from the least significant bit of each byte up, so the index a decoder forms from
 the next n bits is `Val` of those bits, while a Huffman code read as a number is `Big`.
 */
module Bits {
  type BitString = seq<bool>

  ghost predicate AreBytes(input: seq<nat>) { forall i :: 0 <= i < |input| ==> input[i] < 256 }

  function Pow2(n: nat): (p: nat)
    ensures p > 0
  {
    if n == 0 then 1 else 2 * Pow2(n - 1)
  }

  function Bit(b: bool): nat { if b then 1 else 0 }

  /** First bit least significant. */
  function Val(s: BitString): nat
  {
    if s == [] then 0 else Bit(s[0]) + 2 * Val(s[1..])
  }

  /** First bit most significant. */
  function Big(s: BitString): nat
  {
    if s == [] then 0 else 2 * Big(s[..|s| - 1]) + Bit(s[|s| - 1])
  }

  function Zeros(n: nat): (s: BitString)
    ensures |s| == n
  {
    seq(n, _ => false)
  }

  /** The n bits whose `Val` is v modulo 2^n. */
  function LowBits(v: nat, n: nat): (s: BitString)
    ensures |s| == n
  {
    if n == 0 then [] else [v % 2 == 1] + LowBits(v / 2, n - 1)
  }

  /** The n bits whose `Big` is v modulo 2^n. */
  function BigBits(v: nat, n: nat): (s: BitString)
    ensures |s| == n
  {
    if n == 0 then [] else BigBits(v / 2, n - 1) + [v % 2 == 1]
  }

  lemma {:induction false} Pow2Add(m: nat, n: nat)
    ensures Pow2(m + n) == Pow2(m) * Pow2(n)
  {
    if m != 0 {
      Pow2Add(m - 1, n);
    }
  }

  lemma {:induction false} Pow2Mono(m: nat, n: nat)
    requires m <= n
    ensures Pow2(m) <= Pow2(n)
  {
    if m < n {
      Pow2Mono(m, n - 1);
    }
  }

  lemma {:induction false} Pow2Values()
    ensures Pow2(7) == 128 && Pow2(8) == 256 && Pow2(15) == 32768 && Pow2(16) == 65536
  {
    assert Pow2(3) == 8;
    assert Pow2(5) == 32;
    assert Pow2(7) == 128;
    assert Pow2(9) == 512;
    assert Pow2(11) == 2048;
    assert Pow2(13) == 8192;
    assert Pow2(15) == 32768;
  }

  lemma {:induction false} PowersTo13()
    ensures Pow2(0) == 1 && Pow2(1) == 2 && Pow2(2) == 4 && Pow2(3) == 8 && Pow2(4) == 16 && Pow2(5) == 32 && Pow2(6) == 64
    ensures Pow2(7) == 128 && Pow2(8) == 256 && Pow2(9) == 512 && Pow2(10) == 1024 && Pow2(11) == 2048
    ensures Pow2(12) == 4096 && Pow2(13) == 8192
  {
    assert Pow2(3) == 8;
    assert Pow2(6) == 64;
    assert Pow2(9) == 512;
  }

  lemma {:induction false} ValBound(s: BitString)
    ensures Val(s) < Pow2(|s|)
  {
    if s != [] {
      ValBound(s[1..]);
    }
  }

  lemma {:induction false} BigBound(s: BitString)
    ensures Big(s) < Pow2(|s|)
  {
    if s != [] {
      BigBound(s[..|s| - 1]);
    }
  }

  lemma {:induction false} ValConcat(a: BitString, b: BitString)
    ensures Val(a + b) == Val(a) + Pow2(|a|) * Val(b)
  {
    if a == [] {
      assert a + b == b;
    } else {
      assert (a + b)[1..] == a[1..] + b;
      ValConcat(a[1..], b);
      TwiceScaled(Val(a[1..]), Pow2(|a| - 1), Val(b));
    }
  }

  lemma {:induction false} TwiceScaled(x: nat, p: nat, v: nat)
    ensures 2 * (x + p * v) == 2 * x + (2 * p) * v
  {
  }

  lemma {:induction false} BigConcat(a: BitString, b: BitString)
    ensures Big(a + b) == Big(a) * Pow2(|b|) + Big(b)
  {
    if b == [] {
      assert a + b == a;
    } else {
      var b' := b[..|b| - 1];
      assert (a + b)[..|a + b| - 1] == a + b';
      BigConcat(a, b');
      BigStep(Big(a), Pow2(|b'|), Big(b'), Bit(b[|b| - 1]));
    }
  }

  lemma {:induction false} BigStep(a: nat, p: nat, x: nat, bit: nat)
    ensures 2 * (a * p + x) + bit == a * (2 * p) + (2 * x + bit)
  {
  }

  lemma {:induction false} ValInjective(a: BitString, b: BitString)
    requires |a| == |b| && Val(a) == Val(b)
    ensures a == b
  {
    if a != [] {
      ValInjective(a[1..], b[1..]);
      assert a == [a[0]] + a[1..] && b == [b[0]] + b[1..];
    }
  }

  lemma {:induction false} BigInjective(a: BitString, b: BitString)
    requires |a| == |b| && Big(a) == Big(b)
    ensures a == b
  {
    if a != [] {
      BigInjective(a[..|a| - 1], b[..|b| - 1]);
      assert a == a[..|a| - 1] + [a[|a| - 1]] && b == b[..|b| - 1] + [b[|b| - 1]];
    }
  }

  lemma {:induction false} ValLowBits(v: nat, n: nat)
    requires v < Pow2(n)
    ensures Val(LowBits(v, n)) == v
  {
    if n != 0 {
      ValLowBits(v / 2, n - 1);
      assert LowBits(v, n)[1..] == LowBits(v / 2, n - 1);
    }
  }

  lemma {:induction false} BigBigBits(v: nat, n: nat)
    requires v < Pow2(n)
    ensures Big(BigBits(v, n)) == v
  {
    if n != 0 {
      BigBigBits(v / 2, n - 1);
      assert BigBits(v, n)[..n - 1] == BigBits(v / 2, n - 1);
    }
  }

  lemma {:induction false} ZerosAreZero(n: nat)
    ensures Val(Zeros(n)) == 0 && Big(Zeros(n)) == 0
  {
    if n != 0 {
      ZerosAreZero(n - 1);
      assert Zeros(n)[1..] == Zeros(n - 1) == Zeros(n)[..n - 1];
    }
  }

  /** Quotient and remainder by 2^k are the high and low parts of the string. */
  lemma {:induction false} ValSplit(s: BitString, k: nat)
    requires k <= |s|
    ensures Val(s) % Pow2(k) == Val(s[..k]) && Val(s) / Pow2(k) == Val(s[k..])
  {
    assert s == s[..k] + s[k..];
    ValConcat(s[..k], s[k..]);
    ValBound(s[..k]);
    DivModUnique(Val(s), Pow2(k), Val(s[k..]), Val(s[..k]));
  }

  lemma {:induction false} BigSplit(s: BitString, k: nat)
    requires k <= |s|
    ensures Big(s) == Big(s[..k]) * Pow2(|s| - k) + Big(s[k..]) && Big(s[k..]) < Pow2(|s| - k)
  {
    assert s == s[..k] + s[k..];
    BigConcat(s[..k], s[k..]);
    BigBound(s[k..]);
  }

  lemma {:induction false} DivModUnique(n: nat, d: nat, q: nat, r: nat)
    requires d > 0 && r < d && n == d * q + r
    ensures n / d == q && n % d == r
  {
    var q', r' := n / d, n % d;
    assert n == d * q' + r';
    if q' < q {
      MulMono(d, q' + 1, q);
    } else if q < q' {
      MulMono(d, q + 1, q');
    }
  }

  lemma {:induction false} MulMono(d: nat, a: nat, b: nat)
    requires a <= b
    ensures d * a <= d * b
  {
  }

  /** Numbers split into a slot and an offset inside it compare slot first. */
  lemma {:induction false} SlotOrder(w: nat, p: nat, x: nat, q: nat, y: nat)
    requires x < w && y < w && p * w + x <= q * w + y
    ensures p <= q
  {
    if q < p {
      RunEnds(w, q, p);
    }
  }

  /** The slot after a comes no later than slot b. */
  lemma {:induction false} RunEnds(w: nat, a: nat, b: nat)
    requires a < b
    ensures a * w + w <= b * w
  {
    MulMono(w, a + 1, b);
  }

  lemma {:induction false} Assoc(a: BitString, b: BitString, c: BitString)
    ensures (a + b) + c == a + (b + c)
  {
  }
}
