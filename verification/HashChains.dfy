/**
 The dictionary of deflate.c: the rolling hash of three bytes, the chains from `head`
 through `prev`, and what inserting a string and `slide_hash` keep.

 Positions in the stream are absolute; `base` is the position of the first byte of the
 window, so that an index i of the window is position base + i.
 */
module HashChains {
  import opened Bits

  // ----- the hash -----

  /** hash_shift: three shifts push a byte out. */
  function HashShift(hb: nat): nat { (hb + 2) / 3 }

  function ByteBit(c: nat, i: nat): bool { i < 8 && LowBits(c, 8)[i] }

  /** UPDATE_HASH: shift left, exclusive-or with the byte, keep hash_bits bits. */
  function UpdateHash(hb: nat, h: BitString, c: nat): (r: BitString)
    requires |h| == hb
    ensures |r| == hb
  {
    seq(hb, i requires 0 <= i < hb => (i >= HashShift(hb) && h[i - HashShift(hb)]) != ByteBit(c, i))
  }

  /** The hash of three bytes. */
  function Hash3(hb: nat, a: nat, b: nat, c: nat): (r: BitString)
    ensures |r| == hb
  {
    UpdateHash(hb, UpdateHash(hb, UpdateHash(hb, Zeros(hb), a), b), c)
  }

  /** Whatever came before, three updates give the hash of the three bytes. */
  lemma {:induction false} ThreeUpdates(hb: nat, h: BitString, a: nat, b: nat, c: nat)
    requires |h| == hb
    ensures UpdateHash(hb, UpdateHash(hb, UpdateHash(hb, h, a), b), c) == Hash3(hb, a, b, c)
  {
    var s := HashShift(hb);
    var h1, z1 := UpdateHash(hb, h, a), UpdateHash(hb, Zeros(hb), a);
    var h2, z2 := UpdateHash(hb, h1, b), UpdateHash(hb, z1, b);
    assert forall i :: 0 <= i < hb && i < s ==> h1[i] == z1[i];
    assert forall i :: 0 <= i < hb && i < 2 * s ==> h2[i] == z2[i];
    assert 3 * s >= hb;
  }

  /** Rolling on: from the hash of one string to that of the next. */
  lemma {:induction false} Rolls(hb: nat, a: nat, b: nat, c: nat, d: nat)
    ensures UpdateHash(hb, Hash3(hb, a, b, c), d) == Hash3(hb, b, c, d)
  {
    ThreeUpdates(hb, UpdateHash(hb, Zeros(hb), a), b, c, d);
  }

  /** Two strings that agree in the hash and in two bytes agree in the third: this is why
      longest_match need not compare it. */
  lemma {:induction false} ThirdByte(hb: nat, a: nat, b: nat, c: nat, c': nat)
    requires hb >= 8 && c < 256 && c' < 256 && Hash3(hb, a, b, c) == Hash3(hb, a, b, c')
    ensures c == c'
  {
    var h := UpdateHash(hb, UpdateHash(hb, Zeros(hb), a), b);
    var r, r' := UpdateHash(hb, h, c), UpdateHash(hb, h, c');
    forall i | 0 <= i < 8 ensures LowBits(c, 8)[i] == LowBits(c', 8)[i] {
      assert r[i] == r'[i];
      assert ByteBit(c, i) == ByteBit(c', i);
    }
    Pow2Values();
    ValLowBits(c, 8);
    ValLowBits(c', 8);
    assert LowBits(c, 8) == LowBits(c', 8);
  }

  // ----- the chains -----

  /** Hash of the string at an absolute position. */
  ghost function HashAt(hb: nat, input: seq<nat>, a: nat): (h: nat)
    requires a + 2 < |input|
  {
    Val(Hash3(hb, input[a], input[a + 1], input[a + 2]))
  }

  /** A chain value v names an inserted string with the hash h, or is the end of the chain. */
  ghost predicate Link(hb: nat, input: seq<nat>, ins: set<nat>, base: nat, v: nat, h: nat)
  {
    v == 0 || (base + v in ins && base + v + 2 < |input| && HashAt(hb, input, base + v) == h)
  }

  /** The slot of a position in a table of n slots: its remainder. */
  function Slot(a: nat, n: nat): (r: nat)
    requires n > 0
    ensures r < n
    decreases a
  {
    if a < n then a else Slot(a - n, n)
  }

  lemma {:induction false} OneMore(b: nat, n: nat)
    requires n > 0
    ensures (b + n) % n == b % n
  {
    var q, r := b / n, b % n;
    assert b == n * q + r;
    Difference(n, q + 1, q);
    DivModUnique(b + n, n, q + 1, r);
  }

  lemma {:induction false} SlotIsMod(a: nat, n: nat)
    requires n > 0
    ensures Slot(a, n) == a % n
    decreases a
  {
    if a >= n {
      SlotIsMod(a - n, n);
      OneMore(a - n, n);
    }
  }

  /** The predecessor of an inserted string in its chain. */
  ghost predicate PrevOk(hb: nat, input: seq<nat>, ins: set<nat>, base: nat, prev: seq<nat>, a: nat)
  {
    && |prev| > 0 && a + 2 < |input|
    && Link(hb, input, ins, base, prev[Slot(a, |prev|)], HashAt(hb, input, a)) && base + prev[Slot(a, |prev|)] <= a
    && (prev[Slot(a, |prev|)] == 0 || base + prev[Slot(a, |prev|)] < a)
  }

  ghost predicate Inserted(input: seq<nat>, ins: set<nat>, top: nat)
  {
    forall a :: a in ins ==> a + 2 < |input| && a <= top
  }

  ghost predicate Heads(hb: nat, input: seq<nat>, ins: set<nat>, base: nat, head: seq<nat>)
  {
    forall h: nat {:trigger Link(hb, input, ins, base, head[h], h)} :: h < |head| ==> Link(hb, input, ins, base, head[h], h)
  }

  /** Every inserted string in the window whose slot has not been reused is linked. */
  ghost predicate Prevs(hb: nat, input: seq<nat>, ins: set<nat>, base: nat, prev: seq<nat>, top: nat)
  {
    forall a: nat {:trigger PrevOk(hb, input, ins, base, prev, a)} :: a in ins && base <= a && top < a + |prev| ==> PrevOk(hb, input, ins, base, prev, a)
  }

  ghost predicate Chains(hb: nat, input: seq<nat>, ins: set<nat>, base: nat, head: seq<nat>, prev: seq<nat>, top: nat)
  {
    && |head| == Pow2(hb) && |prev| > 0
    && Inserted(input, ins, top) && Heads(hb, input, ins, base, head) && Prevs(hb, input, ins, base, prev, top)
  }

  lemma {:induction false} OtherSlot(a: nat, b: nat, n: nat)
    requires a < b < a + n
    ensures Slot(a, n) != Slot(b, n)
  {
    SlotIsMod(a, n);
    SlotIsMod(b, n);
    if a % n == b % n {
      var q, p := b / n, a / n;
      assert b == n * q + b % n && a == n * p + a % n;
      assert b - a == n * (q - p) by { Difference(n, q, p); }
      if q - p >= 1 {
        MulAtLeast(n, q - p);
      } else {
        MulAtMost(n, q - p);
      }
    }
  }

  lemma {:induction false} Difference(n: int, q: int, p: int)
    ensures n * q - n * p == n * (q - p)
  {
  }

  lemma {:induction false} MulAtLeast(n: int, k: int)
    requires n > 0 && k >= 1
    ensures n * k >= n
  {
  }

  lemma {:induction false} MulAtMost(n: int, k: int)
    requires n > 0 && k <= 0
    ensures n * k <= 0
  {
  }

  /** More members, more input: links stay. */
  lemma {:induction false} LinkStays(hb: nat, input: seq<nat>, input': seq<nat>, ins: set<nat>, ins': set<nat>, base: nat, v: nat, h: nat)
    requires Link(hb, input, ins, base, v, h) && input <= input' && ins <= ins'
    ensures Link(hb, input', ins', base, v, h)
  {
  }

  /** INSERT_STRING at position a, whose hash is h. */
  lemma {:induction false} InsertKeeps(hb: nat, input: seq<nat>, ins: set<nat>, base: nat, head: seq<nat>, prev: seq<nat>, top: nat, a: nat, h: nat)
    requires Chains(hb, input, ins, base, head, prev, top) && base < a && a + 2 < |input| && h == HashAt(hb, input, a) < |head|
    requires top < a
    ensures Chains(hb, input, ins + {a}, base, head[h := a - base], prev[Slot(a, |prev|) := head[h]], a)
  {
    var ins', head', prev' := ins + {a}, head[h := a - base], prev[Slot(a, |prev|) := head[h]];
    forall x: nat | x < |head'| ensures Link(hb, input, ins', base, head'[x], x) {
      assert Link(hb, input, ins, base, head[x], x);
    }
    forall x: nat | x in ins' && base <= x && a < x + |prev'| ensures PrevOk(hb, input, ins', base, prev', x) {
      if x == a {
        assert Link(hb, input, ins, base, head[h], h);
      } else {
        OldPrev(hb, input, ins, base, prev, top, x, a, head[h]);
      }
    }
  }

  lemma {:induction false} OldPrev(hb: nat, input: seq<nat>, ins: set<nat>, base: nat, prev: seq<nat>, top: nat, x: nat, a: nat, v: nat)
    requires |prev| > 0 && Prevs(hb, input, ins, base, prev, top) && Inserted(input, ins, top) && x in ins && base <= x < a < x + |prev|
    requires top < a
    ensures PrevOk(hb, input, ins + {a}, base, prev[Slot(a, |prev|) := v], x)
  {
    assert PrevOk(hb, input, ins, base, prev, x);
    OtherSlot(x, a, |prev|);
  }

  /** The string at index 0 of the window cannot be told from the end of a chain. */
  lemma {:induction false} InsertFirst(hb: nat, input: seq<nat>, ins: set<nat>, base: nat, head: seq<nat>, prev: seq<nat>, top: nat, h: nat)
    requires Chains(hb, input, ins, base, head, prev, top) && h < |head| && (forall x :: x in ins ==> x < base)
    ensures Chains(hb, input, ins, base, head[h := 0], prev[Slot(base, |prev|) := head[h]], top)
  {
    var head' := head[h := 0];
    forall x: nat | x < |head'| ensures Link(hb, input, ins, base, head'[x], x) {
      assert Link(hb, input, ins, base, head[x], x);
    }
  }

  /** More input changes nothing. */
  lemma {:induction false} ReadKeeps(hb: nat, input: seq<nat>, input': seq<nat>, ins: set<nat>, base: nat, head: seq<nat>, prev: seq<nat>, top: nat)
    requires Chains(hb, input, ins, base, head, prev, top) && input <= input'
    ensures Chains(hb, input', ins, base, head, prev, top)
  {
    forall x: nat | x < |head| ensures Link(hb, input', ins, base, head[x], x) {
      LinkStays(hb, input, input', ins, ins, base, head[x], x);
    }
    forall a: nat | a in ins && base <= a && top < a + |prev| ensures PrevOk(hb, input', ins, base, prev, a) {
      assert PrevOk(hb, input, ins, base, prev, a);
      LinkStays(hb, input, input', ins, ins, base, prev[Slot(a, |prev|)], HashAt(hb, input, a));
    }
  }

  /** slide_hash on one value. */
  function Slid(m: nat, wsize: nat): nat { if m >= wsize then m - wsize else 0 }

  lemma {:induction false} LinkSlides(hb: nat, input: seq<nat>, ins: set<nat>, base: nat, v: nat, h: nat, wsize: nat)
    requires Link(hb, input, ins, base, v, h)
    ensures Link(hb, input, ins, base + wsize, Slid(v, wsize), h)
  {
  }

  /** slide_hash: all values go down with the window. */
  lemma {:induction false} SlideKeeps(hb: nat, input: seq<nat>, ins: set<nat>, base: nat, head: seq<nat>, prev: seq<nat>, top: nat,
                                      head': seq<nat>, prev': seq<nat>)
    requires Chains(hb, input, ins, base, head, prev, top)
    requires |head'| == |head| && forall i :: 0 <= i < |head| ==> head'[i] == Slid(head[i], |prev|)
    requires |prev'| == |prev| && forall i :: 0 <= i < |prev| ==> prev'[i] == Slid(prev[i], |prev|)
    ensures Chains(hb, input, ins, base + |prev|, head', prev', top)
  {
    var base' := base + |prev|;
    forall x: nat | x < |head'| ensures Link(hb, input, ins, base', head'[x], x) {
      LinkSlides(hb, input, ins, base, head[x], x, |prev|);
    }
    forall a: nat | a in ins && base' <= a && top < a + |prev'| ensures PrevOk(hb, input, ins, base', prev', a) {
      assert PrevOk(hb, input, ins, base, prev, a);
      LinkSlides(hb, input, ins, base, prev[Slot(a, |prev|)], HashAt(hb, input, a), |prev|);
    }
  }

  method SlideHash(head: array<nat>, prev: array<nat>)
    requires head != prev
    modifies head, prev
    ensures forall i :: 0 <= i < head.Length ==> head[i] == Slid(old(head[i]), prev.Length)
    ensures forall i :: 0 <= i < prev.Length ==> prev[i] == Slid(old(prev[i]), prev.Length)
  {
    SlideAll(head, prev.Length);
    SlideAll(prev, prev.Length);
  }

  method SlideAll(p: array<nat>, wsize: nat)
    modifies p
    ensures forall i :: 0 <= i < p.Length ==> p[i] == Slid(old(p[i]), wsize)
  {
    var n: nat := p.Length;
    while n > 0
      invariant n <= p.Length
      invariant forall i :: n <= i < p.Length ==> p[i] == Slid(old(p[i]), wsize)
      invariant forall i :: 0 <= i < n ==> p[i] == old(p[i])
    {
      n := n - 1;
      var m := p[n];
      p[n] := if m >= wsize then m - wsize else 0;
    }
  }
}
