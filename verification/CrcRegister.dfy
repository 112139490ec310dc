/**
 The shift register of crc32.c, bit by bit: it is linear, and a running value may as well be
 added to the first 32 bits of the data. This is what makes table-driven, braided and
 combined computation possible.
 */
module CrcRegister {
  import opened Bits
  import opened Gf2

  /** A bit as a word. */
  function BitWord(d: bool): Poly { [d] + Zeros(31) }

  /** One bit of data. */
  function Feed(p: Poly, c: Poly, d: bool): Poly { Times(p, Xor(c, BitWord(d))) }

  /** All bits of s, from the register c. */
  function Register(p: Poly, c: Poly, s: BitString): Poly
  {
    if s == [] then c else Feed(p, Register(p, c, s[..|s| - 1]), s[|s| - 1])
  }

  lemma {:induction false} RegisterJoin(p: Poly, c: Poly, s: BitString, t: BitString)
    ensures Register(p, c, s + t) == Register(p, Register(p, c, s), t)
    decreases |t|
  {
    if t == [] {
      assert s + t == s;
    } else {
      var t' := t[..|t| - 1];
      assert (s + t)[..|s + t| - 1] == s + t';
      RegisterJoin(p, c, s, t');
    }
  }

  lemma {:induction false} FeedSum(p: Poly, a: Poly, b: Poly, d: bool, e: bool)
    ensures Feed(p, Xor(a, b), d != e) == Xor(Feed(p, a, d), Feed(p, b, e))
  {
    assert BitWord(d != e) == Xor(BitWord(d), BitWord(e));
    XorSwap(a, b, BitWord(d), BitWord(e));
    TimesSum(p, Xor(a, BitWord(d)), Xor(b, BitWord(e)));
  }

  /** Linear in the register and the data together. */
  lemma {:induction false} RegisterSum(p: Poly, a: Poly, b: Poly, s: BitString, t: BitString)
    requires |s| == |t|
    ensures Register(p, Xor(a, b), Xor(s, t)) == Xor(Register(p, a, s), Register(p, b, t))
    decreases |s|
  {
    if s != [] {
      var n := |s| - 1;
      assert Xor(s, t)[..n] == Xor(s[..n], t[..n]);
      RegisterSum(p, a, b, s[..n], t[..n]);
      FeedSum(p, Register(p, a, s[..n]), Register(p, b, t[..n]), s[n], t[n]);
    }
  }

  lemma {:induction false} RegisterZeros(p: Poly, c: Poly, n: nat)
    ensures Register(p, c, Zeros(n)) == Raised(p, n, c)
  {
    if n > 0 {
      assert Zeros(n)[..n - 1] == Zeros(n - 1);
      RegisterZeros(p, c, n - 1);
      assert BitWord(false) == ZERO;
      XorZero(Raised(p, n - 1, c));
    }
  }

  /** The register and the data apart. */
  lemma {:induction false} RegisterApart(p: Poly, c: Poly, s: BitString)
    ensures Register(p, c, s) == Xor(Raised(p, |s|, c), Register(p, ZERO, s))
  {
    XorZero(c);
    XorZero(s);
    RegisterSum(p, c, ZERO, Zeros(|s|), s);
    RegisterZeros(p, c, |s|);
  }

  lemma {:induction false} FirstBit(p: Poly, w: Poly)
    ensures Times(p, w) == Xor(w[1..] + [false], Times(p, BitWord(w[0])))
  {
    var rest := [false] + w[1..];
    assert w == Xor(rest, BitWord(w[0]));
    TimesSum(p, rest, BitWord(w[0]));
    assert Half(rest) == w[1..] + [false];
  }

  /** The bits of c that have been shifted out have gone in as data would. */
  lemma {:induction false} ShiftedOut(p: Poly, c: Poly, k: nat)
    requires k <= 32
    ensures Raised(p, k, c) == Xor(c[k..] + Zeros(k), Register(p, ZERO, c[..k]))
  {
    if k == 0 {
      assert c[0..] + Zeros(0) == c && c[..0] == [];
      XorZero(c);
    } else {
      ShiftedOut(p, c, k - 1);
      ShiftedOne(p, c, k - 1, k, c[k - 1..] + Zeros(k - 1), Register(p, ZERO, c[..k - 1]));
    }
  }

  /** One bit more; l is k - 1, w and r are what came of the bits before. */
  lemma {:induction false} ShiftedOne(p: Poly, c: Poly, l: nat, k: nat, w: Poly, r: Poly)
    requires k == l + 1 <= 32 && w == c[l..] + Zeros(l) && r == Register(p, ZERO, c[..l])
    ensures Times(p, Xor(w, r)) == Xor(c[k..] + Zeros(k), Register(p, ZERO, c[..k]))
  {
    TimesSum(p, w, r);
    FirstBit(p, w);
    assert w[1..] + [false] == c[k..] + Zeros(k) && w[0] == c[l];
    assert c[..k][..l] == c[..l];
    TimesSum(p, r, BitWord(c[l]));
    var u, v, x := c[k..] + Zeros(k), Times(p, BitWord(c[l])), Times(p, r);
    XorAssoc(u, v, x);
    XorCommutes(v, x);
  }

  /** A running value may be added to the data instead. */
  lemma {:induction false} IntoData(p: Poly, c: Poly, d: Poly, s: BitString)
    requires |s| >= 32
    ensures Register(p, Xor(c, d), s) == Register(p, d, Xor(s, c + Zeros(|s| - 32)))
  {
    var m := |s| - 32;
    ShiftedOut(p, c, 32);
    assert c[32..] + Zeros(32) == ZERO && c[..32] == c;
    XorZero(Register(p, ZERO, c));
    assert Raised(p, 32, c) == Register(p, ZERO, c);
    RegisterJoin(p, ZERO, c, Zeros(m));
    RegisterZeros(p, Register(p, ZERO, c), m);
    RaisedTwice(p, m, 32, c);
    assert Register(p, ZERO, c + Zeros(m)) == Raised(p, |s|, c);
    XorZero(d);
    XorCommutes(c, d);
    RegisterSum(p, d, ZERO, s, c + Zeros(m));
    RegisterApart(p, Xor(c, d), s);
    RegisterApart(p, d, s);
    RaisedSum(p, |s|, c, d);
    var a, b, r := Raised(p, |s|, c), Raised(p, |s|, d), Register(p, ZERO, s);
    XorAssoc(a, b, r);
    XorCommutes(a, Xor(b, r));
  }

  /** Up to 32 bits at once. */
  lemma {:induction false} FewBits(p: Poly, c: Poly, s: BitString)
    requires |s| <= 32
    ensures Register(p, c, s) == Raised(p, |s|, Xor(c, s + Zeros(32 - |s|)))
  {
    var k := |s|;
    var w: Poly := s + Zeros(32 - k);
    RegisterApart(p, c, s);
    RaisedSum(p, k, c, w);
    ShiftedOut(p, w, k);
    assert w[k..] + Zeros(k) == ZERO && w[..k] == s;
    XorZero(Register(p, ZERO, s));
  }
}
