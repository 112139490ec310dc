/**
 `adler32_z` and `adler32_combine_` of adler32.c: sums reduced only now and then, which must
 stay within 32 bits, and the checksum of a concatenation.
 */
module Adler32 {
  import opened Bits
  import opened Wrappers

  const BASE := 65521
  const NMAX := 5552
  const TWO32 := 0x1_0000_0000

  /** A running value: its two sums. */
  datatype Sums = Sums(s1: nat, s2: nat)
  {
    /** adler | (sum2 << 16) */
    function Word(): nat { s1 + 65536 * s2 }

    ghost predicate Valid() { s1 < BASE && s2 < BASE }
  }

  function SumsOf(adler: nat): Sums { Sums(adler % 65536, adler / 65536 % 65536) }

  lemma {:induction false} WordSums(s: Sums)
    requires s.Valid()
    ensures SumsOf(s.Word()) == s && s.Word() < TWO32
  {
  }

  // ----- the definition -----

  /** One byte: section 2.2 of RFC 1950. */
  function Next(s: Sums, b: nat): (r: Sums)
    ensures r.Valid()
  {
    var s1 := (s.s1 + b) % BASE;
    Sums(s1, (s.s2 + s1) % BASE)
  }

  function Adler(s: Sums, buf: seq<nat>): Sums
  {
    if buf == [] then s else Next(Adler(s, buf[..|buf| - 1]), buf[|buf| - 1])
  }

  lemma {:induction false} AdlerValid(s: Sums, buf: seq<nat>)
    requires s.Valid()
    ensures Adler(s, buf).Valid()
  {
  }

  lemma {:induction false} AdlerJoin(s: Sums, a: seq<nat>, b: seq<nat>)
    ensures Adler(s, a + b) == Adler(Adler(s, a), b)
    decreases |b|
  {
    if b == [] {
      assert a + b == a;
    } else {
      assert (a + b)[..|a + b| - 1] == a + b[..|b| - 1];
      AdlerJoin(s, a, b[..|b| - 1]);
    }
  }

  // ----- without reduction -----

  /** Both sums, never reduced. */
  function Raw(s: Sums, buf: seq<nat>): Sums
  {
    if buf == [] then s
    else var r := Raw(s, buf[..|buf| - 1]); Sums(r.s1 + buf[|buf| - 1], r.s2 + r.s1 + buf[|buf| - 1])
  }

  function Reduced(s: Sums): Sums { Sums(s.s1 % BASE, s.s2 % BASE) }

  lemma {:induction false} ModStep(x: nat, y: nat, b: nat)
    ensures (x % BASE + b) % BASE == (x + b) % BASE
    ensures (y % BASE + (x % BASE + b) % BASE) % BASE == (y + x + b) % BASE
  {
  }

  lemma {:induction false} NextReduced(r: Sums, b: nat)
    ensures Next(Reduced(r), b) == Reduced(Sums(r.s1 + b, r.s2 + r.s1 + b))
  {
    ModStep(r.s1, r.s2, b);
  }

  /** Reduction may be left to the end. */
  lemma {:induction false} RawReduced(s: Sums, buf: seq<nat>)
    requires s.Valid()
    ensures Reduced(Raw(s, buf)) == Adler(s, buf)
  {
    if buf != [] {
      RawReduced(s, buf[..|buf| - 1]);
      NextReduced(Raw(s, buf[..|buf| - 1]), buf[|buf| - 1]);
    }
  }

  lemma {:induction false} RawBound(s: Sums, buf: seq<nat>)
    requires s.Valid() && AreBytes(buf)
    ensures Raw(s, buf).s1 <= BASE - 1 + 255 * |buf|
    ensures 2 * Raw(s, buf).s2 <= 2 * (|buf| + 1) * (BASE - 1) + 255 * |buf| * (|buf| + 1)
  {
    if buf != [] {
      var n := |buf| - 1;
      RawBound(s, buf[..n]);
      Triangle(n);
    }
  }

  lemma {:induction false} Triangle(n: nat)
    ensures 255 * n * (n + 1) + 2 * 255 * (n + 1) == 255 * (n + 1) * (n + 2)
    ensures 2 * (n + 1) * (BASE - 1) + 2 * (BASE - 1) == 2 * (n + 2) * (BASE - 1)
  {
  }

  /** Up to NMAX bytes fit in 32 bits. */
  lemma {:induction false} NoOverflow(s: Sums, buf: seq<nat>)
    requires s.Valid() && AreBytes(buf) && |buf| <= NMAX
    ensures Raw(s, buf).s1 < TWO32 && Raw(s, buf).s2 < TWO32
  {
    RawBound(s, buf);
    TriangleMono(|buf|, NMAX);
  }

  /** ... and NMAX is the largest such number, for the largest sums and bytes. */
  lemma {:induction false} NmaxIsLargest(n: nat)
    ensures n <= NMAX <==> 255 * n * (n + 1) / 2 + (n + 1) * (BASE - 1) <= TWO32 - 1
  {
    if n <= NMAX {
      TriangleMono(n, NMAX);
    } else {
      TriangleMono(NMAX + 1, n);
    }
  }

  lemma {:induction false} TriangleMono(m: nat, n: nat)
    requires m <= n
    ensures 255 * m * (m + 1) <= 255 * n * (n + 1)
  {
    assert m * (m + 1) <= n * (m + 1);
    assert n * (m + 1) <= n * (n + 1);
  }

  // ----- adler32_z -----

  /** A 32-bit sum. */
  function Add32(x: nat, y: nat): nat { (x + y) % TWO32 }

  /** Bytes added up, in steps of 16 and then one by one, without reduction. */
  method Accumulate(s0: Sums, buf: seq<nat>) returns (adler: nat, sum2: nat)
    requires s0.Valid() && AreBytes(buf) && |buf| <= NMAX
    ensures Sums(adler, sum2) == Raw(s0, buf)
  {
    adler, sum2 := s0.s1, s0.s2;
    var i: nat := 0;
    assert buf[..0] == [];
    while i + 16 <= |buf|
      invariant i <= |buf| && Sums(adler, sum2) == Raw(s0, buf[..i])
    {
      var j: nat := 0;
      while j < 16
        invariant j <= 16 && Sums(adler, sum2) == Raw(s0, buf[..i + j])
      {
        adler, sum2 := AddByte(s0, buf, i + j, adler, sum2);
        j := j + 1;
      }
      i := i + 16;
    }
    while i < |buf|
      invariant i <= |buf| && Sums(adler, sum2) == Raw(s0, buf[..i])
    {
      adler, sum2 := AddByte(s0, buf, i, adler, sum2);
      i := i + 1;
    }
    assert buf[..|buf|] == buf;
  }

  /** DO1: neither sum overflows. */
  method AddByte(ghost s0: Sums, buf: seq<nat>, i: nat, adler: nat, sum2: nat) returns (adler': nat, sum2': nat)
    requires s0.Valid() && AreBytes(buf) && i < |buf| <= NMAX && Sums(adler, sum2) == Raw(s0, buf[..i])
    ensures Sums(adler', sum2') == Raw(s0, buf[..i + 1])
  {
    assert buf[..i + 1][..i] == buf[..i];
    NoOverflow(s0, buf[..i + 1]);
    adler' := Add32(adler, buf[i]);
    sum2' := Add32(sum2, adler');
  }

  /** adler32_z, for any buffer and any valid running value. */
  method AdlerZ(adler0: nat, buf: Option<seq<nat>>) returns (r: nat)
    requires SumsOf(adler0).Valid() && (buf.Some? ==> AreBytes(buf.value))
    ensures r == match buf case None => 1 case Some(data) => Adler(SumsOf(adler0), data).Word()
  {
    match buf
    case None => return 1;
    case Some(data) =>
      var s := SumsOf(adler0);
      if |data| == 1 {
        r := OneByte(s, data);
      } else if |data| < 16 {
        r := FewBytes(s, data);
      } else {
        r := ManyBytes(s, data);
      }
  }

  /** A byte at a time: one subtraction is a reduction. */
  method OneByte(s: Sums, data: seq<nat>) returns (r: nat)
    requires s.Valid() && AreBytes(data) && |data| == 1
    ensures r == Adler(s, data).Word()
  {
    assert Adler(s, data) == Next(Adler(s, data[..0]), data[0]) == Next(s, data[0]);
    var adler := LessBase(s.s1 + data[0]);
    var sum2 := LessBase(s.s2 + adler);
    r := adler + 65536 * sum2;
  }

  /** if (a >= BASE) a -= BASE */
  method LessBase(a: nat) returns (r: nat)
    requires a < 2 * BASE
    ensures r == a % BASE
  {
    r := if a >= BASE then a - BASE else a;
  }

  method FewBytes(s: Sums, data: seq<nat>) returns (r: nat)
    requires s.Valid() && AreBytes(data) && |data| < 16
    ensures r == Adler(s, data).Word()
  {
    var adler, sum2 := Accumulate(s, data);
    RawReduced(s, data);
    RawBound(s, data);
    adler := LessBase(adler);
    r := adler + 65536 * (sum2 % BASE);
  }

  /** Blocks of NMAX bytes, reduced once each, and the rest. */
  method ManyBytes(s: Sums, data: seq<nat>) returns (r: nat)
    requires s.Valid() && AreBytes(data)
    ensures r == Adler(s, data).Word()
  {
    var c := s;
    var i: nat := 0;
    assert data[..0] == [];
    while i + NMAX <= |data|
      invariant i <= |data| && c.Valid() && c == Adler(s, data[..i])
    {
      c := Block(s, c, data, i, i + NMAX);
      i := i + NMAX;
    }
    if i < |data| {
      c := Block(s, c, data, i, |data|);
    }
    assert i == |data| ==> data[..i] == data;
    assert data[..|data|] == data;
    r := c.Word();
  }

  method Block(ghost s: Sums, c: Sums, data: seq<nat>, i: nat, j: nat) returns (c': Sums)
    requires c.Valid() && AreBytes(data) && i <= j <= |data| && j - i <= NMAX && c == Adler(s, data[..i])
    ensures c'.Valid() && c' == Adler(s, data[..j])
  {
    var adler, sum2 := Accumulate(c, data[i..j]);
    RawReduced(c, data[i..j]);
    AdlerJoin(s, data[..i], data[i..j]);
    assert data[..i] + data[i..j] == data[..j];
    c' := Sums(adler % BASE, sum2 % BASE);
  }

  // ----- adler32_combine_ -----

  /** Both sums of a concatenation, before reduction: the second part counts |b| times what the
      first part left in s1. */
  lemma {:induction false} RawShift(s: Sums, b: seq<nat>)
    ensures Raw(s, b).s1 == Raw(Sums(1, 0), b).s1 + s.s1 - 1
    ensures Raw(s, b).s2 == Raw(Sums(1, 0), b).s2 + s.s2 + |b| * (s.s1 - 1)
  {
    if b != [] {
      RawShift(s, b[..|b| - 1]);
      OneMore(|b|, s.s1 - 1);
    }
  }

  lemma {:induction false} OneMore(n: nat, k: int)
    requires n >= 1
    ensures n * k == (n - 1) * k + k
  {
  }

  /** The second sum, with the length reduced first. */
  lemma {:induction false} SecondSum(n: nat, rem: nat, q: nat, a1: nat, m: nat, p: nat)
    requires n == BASE * q + rem && rem * a1 == BASE * p + m
    ensures n * (a1 - 1) == m - rem + BASE * (q * a1 + p - q)
  {
    assert n * (a1 - 1) == n * a1 - n;
    assert (BASE * q + rem) * a1 == BASE * (q * a1) + rem * a1;
  }

  /** Two conditional subtractions are a reduction, here and below. */
  method LessThree(a: nat) returns (r: nat)
    requires a < 3 * BASE
    ensures r == a % BASE
  {
    r := if a >= BASE then a - BASE else a;
    r := if r >= BASE then r - BASE else r;
  }

  method LessFour(a: nat) returns (r: nat)
    requires a < 4 * BASE
    ensures r == a % BASE
  {
    r := if a >= 2 * BASE then a - 2 * BASE else a;
    r := if r >= BASE then r - BASE else r;
  }

  lemma {:induction false} CombinedSums(x: Sums, y: Sums, b: seq<nat>, rem: nat, m: nat)
    requires x.Valid() && y == Adler(Sums(1, 0), b) && rem == |b| % BASE && m == rem * x.s1 % BASE
    ensures Adler(x, b).s1 == (x.s1 + y.s1 + BASE - 1) % BASE
    ensures Adler(x, b).s2 == (m + x.s2 + y.s2 + BASE - rem) % BASE
  {
    RawReduced(Sums(1, 0), b);
    RawReduced(x, b);
    RawShift(x, b);
    var k := LengthTimes(|b|, rem, x.s1, m);
    FirstReduced(Raw(Sums(1, 0), b).s1, x.s1);
    SecondReduced(Raw(Sums(1, 0), b).s2, x.s2, |b| * (x.s1 - 1), m, rem, k);
  }

  lemma {:induction false} LengthTimes(n: nat, rem: nat, a1: nat, m: nat) returns (k: int)
    requires rem == n % BASE && m == rem * a1 % BASE
    ensures n * (a1 - 1) == m - rem + BASE * k
  {
    var q, p := n / BASE, rem * a1 / BASE;
    SecondSum(n, rem, q, a1, m, p);
    k := q * a1 + p - q;
  }

  lemma {:induction false} FirstReduced(r: nat, x: nat)
    ensures (r + x - 1) % BASE == (x + r % BASE + BASE - 1) % BASE
  {
    SameMod(r + x - 1, x + r % BASE + BASE - 1, r / BASE - 1);
  }

  lemma {:induction false} SecondReduced(r: nat, x: nat, d: int, m: nat, rem: nat, k: int)
    requires d == m - rem + BASE * k
    ensures (r + x + d) % BASE == (m + x + r % BASE + BASE - rem) % BASE
  {
    SameMod(r + x + d, m + x + r % BASE + BASE - rem, r / BASE - 1 + k);
  }

  lemma {:induction false} SameMod(x: int, y: int, k: int)
    requires x == y + BASE * k
    ensures x % BASE == y % BASE
  {
  }

  /** The sums of a concatenation whose second part, of sums y, has n bytes. */
  ghost predicate Combined(x: Sums, y: Sums, n: nat, r: Sums)
  {
    var rem := n % BASE;
    var m := rem * x.s1 % BASE;
    r.s1 == (x.s1 + y.s1 + BASE - 1) % BASE && r.s2 == (m + x.s2 + y.s2 + BASE - rem) % BASE
  }

  /** The sums of adler32_combine_. */
  method CombineSums(x: Sums, y: Sums, len2: nat) returns (s1: nat, s2: nat)
    requires x.Valid() && y.Valid()
    ensures Combined(x, y, len2, Sums(s1, s2))
  {
    var left := len2 % BASE;
    var product := Product(left, x.s1);
    var sum2 := product % BASE;
    s1 := LessThree(x.s1 + y.s1 + BASE - 1);
    s2 := LessFour(sum2 + x.s2 + y.s2 + BASE - left);
  }

  lemma {:induction false} CombinedIs(s: Sums, a: seq<nat>, b: seq<nat>, r: Sums)
    requires s.Valid() && Combined(Adler(s, a), Adler(Sums(1, 0), b), |b|, r)
    ensures r == Adler(s, a + b)
  {
    AdlerValid(s, a);
    var rem := |b| % BASE;
    CombinedSums(Adler(s, a), Adler(Sums(1, 0), b), b, rem, rem * Adler(s, a).s1 % BASE);
    AdlerJoin(s, a, b);
  }

  /** rem * sum1 fits in 32 bits. */
  method Product(x: nat, y: nat) returns (r: nat)
    requires x < BASE && y < BASE
    ensures r == x * y
  {
    SmallProduct(x, BASE - 1, y);
    r := x * y % TWO32;
  }

  lemma {:induction false} SmallProduct(x: nat, c: nat, y: nat)
    requires x <= c
    ensures x * y <= c * y
  {
  }

  /** adler32_combine_: from the checksums of two byte strings, that of their concatenation. */
  method Combine(adler1: nat, adler2: nat, len2: int, ghost s: Sums, ghost a: seq<nat>, ghost b: seq<nat>) returns (r: nat)
    requires SumsOf(adler1).Valid() && SumsOf(adler2).Valid()
    ensures len2 < 0 ==> r == 0xffff_ffff
    ensures len2 == |b| && s.Valid() && adler1 == Adler(s, a).Word() && adler2 == Adler(Sums(1, 0), b).Word() ==> r == Adler(s, a + b).Word()
  {
    if len2 < 0 {
      return 0xffff_ffff;
    }
    var s1, s2 := CombineSums(SumsOf(adler1), SumsOf(adler2), len2);
    if len2 == |b| && s.Valid() && adler1 == Adler(s, a).Word() && adler2 == Adler(Sums(1, 0), b).Word() {
      TheSums(s, a);
      TheSums(Sums(1, 0), b);
      CombinedIs(s, a, b, Sums(s1, s2));
    }
    r := s1 + 65536 * s2;
  }

  lemma {:induction false} TheSums(s: Sums, a: seq<nat>)
    requires s.Valid()
    ensures Adler(s, a).Valid() && SumsOf(Adler(s, a).Word()) == Adler(s, a)
  {
    AdlerValid(s, a);
    WordSums(Adler(s, a));
  }
}
