/**
 The portable wide arithmetic of eminline.h: `mulu_64x64`, `mul_64x64` and `muldivu_64`,
 with numbers of two digits in base 2^32. Operations that may wrap around are written with
 Wrap64.
 */
module MulDiv {
  import opened Bits

  const BASE := 0x1_0000_0000
  const TWO64 := 0x1_0000_0000_0000_0000

  /** Unsigned 64-bit arithmetic. */
  function Wrap64(x: int): (r: nat)
    ensures r < TWO64
  {
    x % TWO64
  }

  ghost predicate U64(x: int) { 0 <= x < TWO64 }

  // ----- the two nonlinear facts -----

  lemma {:induction false} MulBounds(x: nat, y: nat, m: nat, n: nat)
    requires x <= m && y <= n
    ensures 0 <= x * y <= m * n
  {
    assert x * y <= m * y;
    assert m * y <= m * n;
  }

  /** A product by digits. */
  lemma {:induction false} Digits(q: int, h: int, l: int)
    ensures q * (h * BASE + l) == q * h * BASE + q * l
  {
  }

  lemma {:induction false} QuotientIs(n: nat, c: nat, q: nat)
    requires c > 0 && q * c <= n < q * c + c
    ensures n / c == q && n % c == n - q * c
  {
    assert n == c * q + (n - q * c);
    DivModUnique(n, c, q, n - q * c);
  }

  // ----- a digit of the quotient -----

  /** The estimate is above the true digit exactly when the test says so. */
  lemma {:induction false} TooLarge(p2: nat, p1: nat, ch: nat, cl: nat, q: nat, rhat: nat)
    requires q * ch + rhat == p2
    ensures q * cl > rhat * BASE + p1 <==> q * (ch * BASE + cl) > p2 * BASE + p1
  {
    Digits(q, ch, cl);
    assert (q * ch + rhat) * BASE == q * ch * BASE + rhat * BASE;
  }

  /** The true digit, bounding the estimate from below. */
  ghost predicate NotBelow(p2: nat, p1: nat, c: nat, q: nat) { p2 * BASE + p1 < (q + 1) * c }

  /** The first estimate is at most two too large. */
  lemma {:induction false} FirstEstimate(p2: nat, p1: nat, ch: nat, cl: nat, q: nat, rhat: nat)
    requires BASE / 2 <= ch < BASE && cl < BASE && p1 < BASE && p2 < ch * BASE + cl
    requires q * ch + rhat == p2 && rhat < ch
    ensures NotBelow(p2, p1, ch * BASE + cl, q)
    ensures q >= 2 ==> (q - 2) * (ch * BASE + cl) <= p2 * BASE + p1
  {
    var c := ch * BASE + cl;
    Digits(q, ch, cl);
    assert (q * ch + rhat) * BASE == q * ch * BASE + rhat * BASE;
    assert (q + 1) * c == q * c + c;
    if q >= 2 {
      assert (q - 2) * c == q * c - 2 * c;
      EstimateBound(q, ch, cl, p2);
    }
  }

  /** q cl is less than 2c: q <= p2 / ch and cl < 2 ch. */
  lemma {:induction false} EstimateBound(q: nat, ch: nat, cl: nat, p2: nat)
    requires BASE / 2 <= ch && cl < BASE && q * ch <= p2 < ch * BASE + cl
    ensures q * cl <= 2 * (ch * BASE + cl)
  {
    assert q * cl <= q * (2 * ch) by { MulBounds(q, cl, q, 2 * ch); }
    assert q * (2 * ch) == 2 * (q * ch);
  }

  /** The search for a digit: the estimate is not too small, and it has come down from the first one. */
  ghost predicate Estimate(p2: nat, p1: nat, ch: nat, cl: nat, q: nat, rhat: nat, first: nat, steps: nat)
  {
    var c := ch * BASE + cl;
    && q * ch + rhat == p2 && NotBelow(p2, p1, c, q) && q + steps == first && steps <= 2
    && (first >= 2 ==> (first - 2) * c <= p2 * BASE + p1)
  }

  /** One digit of the quotient: the estimate p2 / ch from the first digit of c, then a correction by
      one in each round, at most two of them. */
  method Digit(p2: nat, p1: nat, ch: nat, cl: nat) returns (q: nat, ghost steps: nat)
    requires BASE / 2 <= ch < BASE && cl < BASE && p1 < BASE && p2 < ch * BASE + cl
    ensures q == (p2 * BASE + p1) / (ch * BASE + cl) && q < BASE
    ensures p2 / ch == q + steps && steps <= 2
  {
    var rhat, again;
    q, rhat, again := FirstTry(p2, p1, ch, cl);
    ghost var first := q;
    steps := 0;
    while again
      invariant Estimate(p2, p1, ch, cl, q, rhat, first, steps) && (again <==> More(q, rhat, cl, p1))
      decreases q, again
    {
      q, rhat, again := NextTry(p2, p1, ch, cl, q, rhat, first, steps);
      steps := steps + 1;
    }
    ExactDigit(p2, p1, ch, cl, q, rhat);
  }

  ghost predicate More(q: nat, rhat: nat, cl: nat, p1: nat)
  {
    q >= BASE || (rhat < BASE && q * cl > rhat * BASE + p1)
  }

  method FirstTry(p2: nat, p1: nat, ch: nat, cl: nat) returns (q: nat, rhat: nat, again: bool)
    requires BASE / 2 <= ch < BASE && cl < BASE && p1 < BASE && p2 < ch * BASE + cl
    ensures Estimate(p2, p1, ch, cl, q, rhat, q, 0) && (again <==> More(q, rhat, cl, p1)) && q == p2 / ch
  {
    q, rhat := Divide(p2, ch);
    FirstEstimate(p2, p1, ch, cl, q, rhat);
    again := TestDigit(q, rhat, cl, p1);
  }

  method NextTry(ghost p2: nat, p1: nat, ch: nat, cl: nat, q: nat, rhat: nat, ghost first: nat, ghost steps: nat) returns (q': nat, rhat': nat, again: bool)
    requires ch >= 1 && cl < BASE && p1 < BASE && p2 < ch * BASE + cl && Estimate(p2, p1, ch, cl, q, rhat, first, steps) && More(q, rhat, cl, p1)
    ensures q' == q - 1 && Estimate(p2, p1, ch, cl, q', rhat', first, steps + 1) && (again <==> More(q', rhat', cl, p1))
  {
    q', rhat' := Corrected(p2, p1, ch, cl, q, rhat, first, steps);
    again := TestDigit(q', rhat', cl, p1);
  }

  /** The test of the loop; neither product overflows. */
  /** The products of the test do not overflow. */
  lemma {:induction false} TestFits(q: nat, rhat: nat, cl: nat, p1: nat)
    requires q < BASE && rhat < BASE && cl < BASE && p1 < BASE
    ensures q * cl < TWO64 && rhat * BASE + p1 < TWO64
  {
    MulBounds(q, cl, BASE - 1, BASE - 1);
  }

  method TestDigit(q: nat, rhat: nat, cl: nat, p1: nat) returns (again: bool)
    requires cl < BASE && p1 < BASE
    ensures again <==> More(q, rhat, cl, p1)
  {
    if q >= BASE {
      return true;
    }
    if rhat >= BASE {
      return false;
    }
    TestFits(q, rhat, cl, p1);
    again := Wrap64(q * cl) > Wrap64(rhat * BASE + p1);
  }

  method Divide(n: nat, d: nat) returns (q: nat, r: nat)
    requires d > 0
    ensures q * d + r == n && r < d && q == n / d
  {
    q, r := n / d, n % d;
  }

  /** q--, rhat += ch */
  method Corrected(ghost p2: nat, ghost p1: nat, ch: nat, ghost cl: nat, q: nat, rhat: nat, ghost first: nat, ghost steps: nat) returns (q': nat, rhat': nat)
    requires ch >= 1 && p1 < BASE && p2 < ch * BASE + cl && Estimate(p2, p1, ch, cl, q, rhat, first, steps)
    requires q >= BASE || q * cl > rhat * BASE + p1
    ensures q' == q - 1 && rhat' == rhat + ch && Estimate(p2, p1, ch, cl, q', rhat', first, steps + 1)
  {
    Excess(p2, p1, ch, cl, q, rhat);
    NotThree(p2, p1, ch * BASE + cl, q, first, steps);
    OneLess(q, ch);
    q', rhat' := q - 1, rhat + ch;
  }

  lemma {:induction false} OneLess(q: nat, ch: nat)
    requires q >= 1
    ensures (q - 1) * ch == q * ch - ch
  {
  }

  lemma {:induction false} NotThree(p2: nat, p1: nat, c: nat, q: nat, first: nat, steps: nat)
    requires q >= 1 && NotBelow(p2, p1, c, q - 1) && q + steps == first && steps <= 2 && (first >= 2 ==> (first - 2) * c <= p2 * BASE + p1)
    ensures steps <= 1
  {
    assert steps == 2 ==> first - 2 == q;
  }

  /** While the loop runs the digit is too large, and so not 0. */
  lemma {:induction false} Excess(p2: nat, p1: nat, ch: nat, cl: nat, q: nat, rhat: nat)
    requires ch >= 1 && p1 < BASE && p2 < ch * BASE + cl && q * ch + rhat == p2
    requires q >= BASE || q * cl > rhat * BASE + p1
    ensures q >= 1 && NotBelow(p2, p1, ch * BASE + cl, q - 1)
  {
    var c := ch * BASE + cl;
    TooLarge(p2, p1, ch, cl, q, rhat);
    assert (q - 1 + 1) * c == q * c;
    if q >= BASE {
      MulBounds(BASE, c, q, c);
    }
  }

  lemma {:induction false} ExactDigit(p2: nat, p1: nat, ch: nat, cl: nat, q: nat, rhat: nat)
    requires ch >= 1 && cl < BASE && q * ch + rhat == p2 && NotBelow(p2, p1, ch * BASE + cl, q)
    requires !More(q, rhat, cl, p1)
    ensures q < BASE && q == (p2 * BASE + p1) / (ch * BASE + cl)
  {
    var c := ch * BASE + cl;
    TooLarge(p2, p1, ch, cl, q, rhat);
    if rhat >= BASE {
      MulBounds(q, cl, BASE, BASE);
    }
    assert (q + 1) * c == q * c + c;
    QuotientIs(p2 * BASE + p1, c, q);
  }

  // ----- the product in four digits -----

  lemma {:induction false} FourProducts(ah: nat, al: nat, bh: nat, bl: nat)
    ensures (ah * BASE + al) * (bh * BASE + bl) == ah * bh * TWO64 + (al * bh + ah * bl) * BASE + al * bl
  {
    var b := bh * BASE + bl;
    Digits(ah, bh, bl);
    Digits(al, bh, bl);
    assert (ah * BASE + al) * b == ah * b * BASE + al * b;
  }

  lemma {:induction false} DigitProducts(x: nat, y: nat)
    requires x < BASE && y < BASE
    ensures x * y <= (BASE - 1) * (BASE - 1)
  {
    MulBounds(x, y, BASE - 1, BASE - 1);
  }

  lemma {:induction false} ProductParts(a: nat, b: nat, ah: nat, al: nat, bh: nat, bl: nat)
    requires U64(a) && U64(b) && a == ah * BASE + al && b == bh * BASE + bl && al < BASE && bl < BASE
    ensures al * bl <= (BASE - 1) * (BASE - 1) && al * bh <= (BASE - 1) * (BASE - 1)
    ensures ah * bl <= (BASE - 1) * (BASE - 1) && ah * bh <= (BASE - 1) * (BASE - 1)
    ensures ah * bh * TWO64 + (al * bh + ah * bl) * BASE + al * bl == a * b < TWO64 * TWO64
  {
    DigitProducts(al, bl);
    DigitProducts(al, bh);
    DigitProducts(ah, bh);
    DigitProducts(ah, bl);
    FourProducts(ah, al, bh, bl);
    MulBounds(a, b, TWO64 - 1, TWO64 - 1);
  }

  /** a b in base 2^32: two digits and one and one. No step overflows. */
  method Product(a: nat, b: nat) returns (p2: nat, p1: nat, p0: nat)
    requires U64(a) && U64(b)
    ensures p1 < BASE && p0 < BASE && U64(p2) && p2 * TWO64 + p1 * BASE + p0 == a * b
  {
    var ah, al := HighLow(a);
    var bh, bl := HighLow(b);
    ProductParts(a, b, ah, al, bh, bl);
    p2, p1, p0 := AddUp(al * bl, al * bh, ah * bl, ah * bh);
  }

  /** The four products, added with carries. */
  method AddUp(x: nat, y: nat, w: nat, z: nat) returns (p2: nat, p1: nat, p0: nat)
    requires x <= (BASE - 1) * (BASE - 1) && y <= (BASE - 1) * (BASE - 1) && w <= (BASE - 1) * (BASE - 1) && z <= (BASE - 1) * (BASE - 1)
    requires z * TWO64 + (y + w) * BASE + x < TWO64 * TWO64
    ensures p1 < BASE && p0 < BASE && U64(p2) && p2 * TWO64 + p1 * BASE + p0 == z * TWO64 + (y + w) * BASE + x
  {
    var h0, l0 := HighLow(x);
    p1 := Add64(h0, y);
    var h1, l1 := HighLow(p1);
    p2 := Add64(h1, z);
    p1 := Add64(l1, w);
    var h2, l2 := HighLow(p1);
    CarriedUp(x, y, w, z, h0, l0, h1, l1, h2, l2);
    p2 := Add64(p2, h2);
    p1, p0 := l2, l0;
  }

  /** x / base and x % base */
  method HighLow(x: nat) returns (h: nat, l: nat)
    ensures x == h * BASE + l && l < BASE
  {
    h, l := x / BASE, x % BASE;
  }

  /** An addition that does not overflow. */
  method Add64(x: nat, y: nat) returns (s: nat)
    requires x + y < TWO64
    ensures s == x + y
  {
    s := Wrap64(x + y);
  }

  lemma {:induction false} CarriedUp(x: nat, y: nat, w: nat, z: nat, h0: nat, l0: nat, h1: nat, l1: nat, h2: nat, l2: nat)
    requires x == h0 * BASE + l0 && h0 + y == h1 * BASE + l1 && l1 + w == h2 * BASE + l2
    requires z * TWO64 + (y + w) * BASE + x < TWO64 * TWO64
    ensures (h1 + z + h2) * TWO64 + l2 * BASE + l0 == z * TWO64 + (y + w) * BASE + x && h1 + z + h2 < TWO64
  {
  }

  // ----- the remainder -----

  /** The wrapping subtraction: digits are lost above, but the remainder has only two. */
  method Subtract(p2: nat, p1: nat, q: nat, ch: nat, cl: nat) returns (r: nat)
    requires U64(p2) && p1 < BASE
    requires 0 <= (p2 * BASE + p1) - q * (ch * BASE + cl) < TWO64
    ensures r == (p2 * BASE + p1) - q * (ch * BASE + cl)
  {
    Digits(q, ch, cl);
    r := SubtractParts(p2, p1, q * ch, q * cl);
  }

  method SubtractParts(p2: nat, p1: nat, x: nat, y: nat) returns (r: nat)
    requires U64(p2) && p1 < BASE && 0 <= p2 * BASE + p1 - x * BASE - y < TWO64
    ensures r == p2 * BASE + p1 - x * BASE - y
  {
    var u, v := HighLow(p2);
    var low, high;
    ghost var k, j;
    low, k := Sub64(v * BASE + p1 - y);
    var hi, lo := HighLow(low);
    high, j := Sub64(u * BASE + hi - x);
    var e, d := HighLow(high);
    r := lo + d * BASE;
    TwoDigitsLeft(p2 * BASE + p1 - x * BASE - y, r, e - j * BASE - k);
  }

  /** A subtraction that may wrap around k times. */
  method Sub64(x: int) returns (r: nat, ghost k: int)
    ensures r == x + k * TWO64 && U64(r)
  {
    r := Wrap64(x);
    k := -(x / TWO64);
  }

  lemma {:induction false} TwoDigitsLeft(n: int, r: int, m: int)
    requires U64(n) && U64(r) && n == r + m * TWO64
    ensures n == r
  {
  }

  // ----- mulu_64x64 and mul_64x64 -----

  /** mulu_64x64: the full product of two 64-bit numbers. */
  method MulU64x64(a: nat, b: nat) returns (lo: nat, hi: nat)
    requires U64(a) && U64(b)
    ensures U64(lo) && U64(hi) && hi * TWO64 + lo == a * b
  {
    var a_hi, a_lo := HighLow(a);
    var b_hi, b_lo := HighLow(b);
    ProductParts(a, b, a_hi, a_lo, b_hi, b_lo);
    lo, hi := Halves(a_lo * b_lo, a_hi * b_lo, a_lo * b_hi, a_hi * b_hi);
  }

  /** Both halves of the product from the products of digits; the low half wraps around. */
  method Halves(x: nat, y: nat, w: nat, z: nat) returns (lo: nat, hi: nat)
    requires x <= (BASE - 1) * (BASE - 1) && y <= (BASE - 1) * (BASE - 1) && w <= (BASE - 1) * (BASE - 1) && z <= (BASE - 1) * (BASE - 1)
    requires z * TWO64 + (y + w) * BASE + x < TWO64 * TWO64
    ensures U64(lo) && U64(hi) && hi * TWO64 + lo == z * TWO64 + (y + w) * BASE + x
  {
    var xh, xl := HighLow(x);
    var yh, yl := HighLow(y);
    var wh, wl := HighLow(w);
    var carry, rest := HighLow(xh + yl + wl);
    ghost var k;
    lo, k := Sub64(x + y * BASE + w * BASE);
    LowHalf(x, y, w, xh, xl, yh, yl, wh, wl, carry, rest, lo, k);
    HighFits(x, y, w, z, yh, wh, carry, lo);
    hi := Add64(z, yh);
    hi := Add64(hi, wh);
    hi := Add64(hi, carry);
  }

  lemma {:induction false} LowHalf(x: nat, y: nat, w: nat, xh: nat, xl: nat, yh: nat, yl: nat, wh: nat, wl: nat, carry: nat, rest: nat, lo: nat, k: int)
    requires x == xh * BASE + xl && y == yh * BASE + yl && w == wh * BASE + wl && xh + yl + wl == carry * BASE + rest
    requires xl < BASE && rest < BASE && U64(lo) && lo == x + y * BASE + w * BASE + k * TWO64
    ensures (yh + wh + carry) * TWO64 + lo == (y + w) * BASE + x
  {
    var r := rest * BASE + xl;
    assert x + y * BASE + w * BASE == (yh + wh + carry) * TWO64 + r;
    TwoDigitsLeft(lo, r, yh + wh + carry + k);
  }

  lemma {:induction false} HighFits(x: nat, y: nat, w: nat, z: nat, yh: nat, wh: nat, carry: nat, lo: nat)
    requires (yh + wh + carry) * TWO64 + lo == (y + w) * BASE + x && z * TWO64 + (y + w) * BASE + x < TWO64 * TWO64
    ensures z + yh + wh + carry < TWO64
  {
  }

  ghost predicate S64(x: int) { -(TWO64 / 2) <= x < TWO64 / 2 }

  /** The unsigned number with the same bits, and the signed one. */
  function Unsigned(x: int): (r: int) { if x < 0 then x + TWO64 else x }

  function Signed(x: int): (r: int) { if x >= TWO64 / 2 then x - TWO64 else x }

  /** The signed high half from the unsigned product. */
  lemma {:induction false} SignAdjusted(a: int, b: int, lo: int, hi: int, h: nat, k: int)
    requires S64(a) && S64(b) && U64(lo) && hi * TWO64 + lo == Unsigned(a) * Unsigned(b)
    requires h == hi - (if a < 0 then b else 0) - (if b < 0 then a else 0) + k * TWO64 && U64(h)
    ensures Signed(h) * TWO64 + lo == a * b && S64(Signed(h))
  {
    SignedProduct(a, b);
    var d := (if a < 0 then b else 0) + (if b < 0 then a else 0) + (if a < 0 && b < 0 then TWO64 else 0);
    assert Unsigned(a) * Unsigned(b) == a * b + d * TWO64;
    SignedBound(a, b);
    var true_hi := hi - d;
    assert true_hi * TWO64 + lo == a * b;
    assert -(TWO64 / 2) <= true_hi < TWO64 / 2;
    SignedUnique(h, true_hi, k + if a < 0 && b < 0 then 1 else 0);
  }

  lemma {:induction false} SignedUnique(h: nat, t: int, m: int)
    requires U64(h) && S64(t) && h == t + m * TWO64
    ensures Signed(h) == t
  {
  }

  lemma {:induction false} SignedProduct(a: int, b: int)
    ensures (a + TWO64) * b == a * b + b * TWO64
    ensures a * (b + TWO64) == a * b + a * TWO64
    ensures (a + TWO64) * (b + TWO64) == a * b + (a + b + TWO64) * TWO64
  {
  }

  lemma {:induction false} SignedBound(a: int, b: int)
    requires S64(a) && S64(b)
    ensures -(TWO64 / 4) * TWO64 <= a * b <= (TWO64 / 4) * TWO64
  {
    SizeBound(a, b, TWO64 / 2);
    Quarter(TWO64 / 4, TWO64 / 2, TWO64);
  }

  lemma {:induction false} Quarter(q: int, h: int, t: int)
    requires h == 2 * q && t == 4 * q
    ensures h * h == q * t && -(h * h) == -q * t
  {
    assert h * h == 4 * (q * q) && q * t == 4 * (q * q);
    assert -q * t == -(q * t);
  }

  lemma {:induction false} SizeBound(a: int, b: int, m: int)
    requires 0 <= m && -m <= a <= m && -m <= b <= m
    ensures -(m * m) <= a * b <= m * m
  {
    var x, y := if a < 0 then -a else a, if b < 0 then -b else b;
    MulBounds(x, y, m, m);
    ProductOfSizes(a, b, x, y);
  }

  lemma {:induction false} ProductOfSizes(a: int, b: int, x: int, y: int)
    requires (x == a || x == -a) && (y == b || y == -b)
    ensures a * b == x * y || a * b == -(x * y)
  {
    assert (-a) * b == -(a * b) && a * (-b) == -(a * b) && (-a) * (-b) == a * b;
  }

  /** mul_64x64: the full signed product, from the unsigned one. */
  method Mul64x64(a: int, b: int) returns (lo: int, hi: int)
    requires S64(a) && S64(b)
    ensures S64(lo) && S64(hi) && hi * TWO64 + Unsigned(lo) == a * b
  {
    var l, h := MulU64x64(Unsigned(a), Unsigned(b));
    var adjusted;
    ghost var k;
    adjusted, k := Sub64(h - (if a < 0 then b else 0) - (if b < 0 then a else 0));
    SignAdjusted(a, b, l, h, adjusted, k);
    lo, hi := Signed(l), Signed(adjusted);
  }

  // ----- the quotient -----

  /** Two digits of the quotient, one after the other. */
  lemma {:induction false} TwoDigits(p2: nat, p1: nat, p0: nat, c: nat, q1: nat, r: nat, q0: nat)
    requires c > 0 && p0 < BASE && q1 == (p2 * BASE + p1) / c && r == p2 * BASE + p1 - q1 * c && q0 == (r * BASE + p0) / c
    ensures (p2 * TWO64 + p1 * BASE + p0) / c == q1 * BASE + q0
  {
    var n, m := p2 * BASE + p1, r * BASE + p0;
    var s := m % c;
    assert m == q0 * c + s;
    var q := q1 * BASE + q0;
    TwoDigitProduct(q1, q0, c);
    assert p2 * TWO64 + p1 * BASE + p0 == n * BASE + p0;
    QuotientIs(n * BASE + p0, c, q);
  }

  lemma {:induction false} TwoDigitProduct(q1: nat, q0: nat, c: nat)
    ensures (q1 * BASE + q0) * c == q1 * c * BASE + q0 * c
  {
  }

  lemma {:induction false} RemainderFits(n: nat, c: nat, q: nat)
    requires c > 0 && q == n / c
    ensures 0 <= n - q * c < c
  {
    assert n == q * c + n % c;
  }

  /** Long division of a b by c, when c has been normalised and the quotient has two digits. */
  method LongDivision(a: nat, b: nat, c: nat) returns (q: nat)
    requires U64(a) && U64(b) && TWO64 / 2 <= c < TWO64 && a < c
    ensures q == a * b / c
  {
    var p2, p1, p0 := Product(a, b);
    TopFits(a, b, c, p2, p1, p0);
    var ch, cl := HighLow(c);
    var q1, q0, r;
    ghost var steps;
    q1, steps := Digit(p2, p1, ch, cl);
    RemainderFits(p2 * BASE + p1, c, q1);
    r := Subtract(p2, p1, q1, ch, cl);
    q0, steps := Digit(r, p0, ch, cl);
    TwoDigits(p2, p1, p0, c, q1, r, q0);
    q := q0 + q1 * BASE;
  }

  /** p2 % c is p2: the third digit of the quotient is 0. */
  lemma {:induction false} TopFits(a: nat, b: nat, c: nat, p2: nat, p1: nat, p0: nat)
    requires U64(b) && a < c && p2 * TWO64 + p1 * BASE + p0 == a * b
    ensures p2 < c
  {
    MulBounds(a, b, c, TWO64 - 1);
  }

  /** norm: c becomes at least 2^63, and the quotient stays. */
  lemma {:induction false} Normalised(a: nat, b: nat, c: nat, norm: nat)
    requires BASE <= c < TWO64 && a < c && norm == (TWO64 - 1) / c
    ensures norm >= 1 && TWO64 / 2 <= c * norm < TWO64 && a * norm < c * norm && (a * norm) * b / (c * norm) == a * b / c
  {
    NormIsLarge(c, norm);
    LessScaled(a, c, norm);
    SameQuotient(a * b, c, norm);
    Reordered(a, norm, b);
  }

  lemma {:induction false} LessScaled(a: nat, c: nat, k: nat)
    requires a < c && k > 0
    ensures a * k < c * k
  {
    assert (a + 1) * k <= c * k;
  }

  lemma {:induction false} Reordered(a: nat, k: nat, b: nat)
    ensures (a * k) * b == (a * b) * k
  {
  }

  lemma {:induction false} NormIsLarge(c: nat, norm: nat)
    requires 0 < c < TWO64 && norm == (TWO64 - 1) / c
    ensures norm >= 1 && TWO64 / 2 <= c * norm < TWO64
  {
    var m := TWO64 - 1;
    AtLeastOne(m, c);
    RemainderFits(m, c, norm);
    MulBounds(c, 1, c, norm);
  }

  lemma {:induction false} AtLeastOne(m: nat, c: nat)
    requires 0 < c <= m
    ensures m / c >= 1
  {
  }

  lemma {:induction false} SameQuotient(n: nat, c: nat, k: nat)
    requires c > 0 && k > 0
    ensures c * k > 0 && (n * k) / (c * k) == n / c
  {
    var q, r := n / c, n % c;
    assert n == q * c + r;
    assert n * k == q * (c * k) + r * k by { assert (q * c + r) * k == q * (c * k) + r * k; }
    assert r * k < c * k by { assert (r + 1) * k <= c * k; }
    QuotientIs(n * k, c * k, q);
  }

  /** The easy part: whole multiples of c in a and b. */
  lemma {:induction false} EasyPart(a: nat, b: nat, c: nat, qa: nat, ra: nat, qb: nat, rb: nat)
    requires c > 0 && a == qa * c + ra && b == qb * c + rb
    ensures a * b / c == qa * b + ra * qb + ra * rb / c
  {
    var n, e := ra * rb, qa * b + ra * qb;
    var q := n / c;
    RemainderFits(n, c, q);
    PartsOfProduct(a, b, c, qa, ra, qb, rb);
    SumTimes(e, q, c);
    QuotientIs(a * b, c, e + q);
  }

  lemma {:induction false} SumTimes(e: nat, q: nat, c: nat)
    ensures (e + q) * c == e * c + q * c
  {
  }

  lemma {:induction false} PartsOfProduct(a: nat, b: nat, c: nat, qa: nat, ra: nat, qb: nat, rb: nat)
    requires a == qa * c + ra && b == qb * c + rb
    ensures a * b == (qa * b + ra * qb) * c + ra * rb
  {
    assert (qa * c + ra) * b == (qa * b) * c + ra * b;
    assert ra * (qb * c + rb) == (ra * qb) * c + ra * rb;
    SumTimes(qa * b, ra * qb, c);
  }

  /** A product that does not overflow. */
  method Keep64(x: nat) returns (r: nat)
    requires x < TWO64
    ensures r == x
  {
    r := Wrap64(x);
  }

  method Normalise(a: nat, b: nat, c: nat) returns (q: nat)
    requires BASE <= c < TWO64 && a < c && b < c
    ensures q == a * b / c
  {
    var norm := (TWO64 - 1) / c;
    Normalised(a, b, c, norm);
    var c' := Keep64(c * norm);
    var a' := Keep64(a * norm);
    q := LongDivision(a', b, c');
  }

  /** What remains of the quotient when a and b are less than c. */
  method RestOf(a: nat, b: nat, c: nat) returns (q: nat)
    requires a < c && b < c && 0 < c < TWO64
    ensures q == a * b / c
  {
    if a == 0 || b == 0 {
      NothingLeft(a, b, c);
      return 0;
    }
    if c < BASE {
      MulBounds(a, b, BASE - 1, BASE - 1);
      var p := Keep64(a * b);
      return p / c;
    }
    q := Normalise(a, b, c);
  }

  /**
   muldivu_64: a b / c rounded down, modulo 2^64; so it is exact just when the quotient fits
   in 64 bits.
   */
  method MulDivU64(a: nat, b: nat, c: nat) returns (r: nat)
    requires U64(a) && U64(b) && 0 < c < TWO64
    ensures r == a * b / c % TWO64 && (r == a * b / c <==> a * b / c < TWO64)
  {
    var qa, ra := Divide(a, c);
    var qb, rb := Divide(b, c);
    EasyPart(a, b, c, qa, ra, qb, rb);
    var rest := RestOf(ra, rb, c);
    r := AddThree(qa * b, ra * qb, rest);
    Fits(a * b / c, r);
  }

  lemma {:induction false} Fits(n: nat, r: nat)
    requires r == n % TWO64
    ensures r == n <==> n < TWO64
  {
  }

  /** The sum of three parts, each sum and each part wrapped around. */
  method AddThree(x: nat, y: nat, z: nat) returns (r: nat)
    ensures r == (x + y + z) % TWO64
  {
    var x', y', res;
    ghost var i, j, k, l;
    x', i := Sub64(x);
    y', j := Sub64(y);
    res, k := Sub64(x' + y');
    r, l := Sub64(res + z);
    WrapUnique(x + y + z, r, -(i + j + k + l));
  }

  lemma {:induction false} WrapUnique(n: nat, r: nat, m: int)
    requires U64(r) && n == r + m * TWO64
    ensures r == n % TWO64
  {
    if m >= 0 {
      assert n == TWO64 * m + r;
      DivModUnique(n, TWO64, m, r);
    }
  }

  lemma {:induction false} NothingLeft(x: nat, y: nat, c: nat)
    requires c > 0 && (x == 0 || y == 0)
    ensures x * y / c == 0
  {
    assert x * y == 0;
  }
}
