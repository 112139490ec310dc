/**
 The bit accumulator of inflate.c and its states LEN to DISTEXT: each reads from the input
 as it needs bits, and can stop for lack of input and be resumed.
 */
module Inflating {
  import opened Bits
  import opened Huffman
  import opened InflateTable
  import opened Decoding

  // ----- the accumulator -----

  /** The bits of a run of bytes, least significant bit of each byte first. */
  ghost function ByteBits(input: seq<nat>): (s: BitString)
    ensures |s| == 8 * |input|
  {
    if input == [] then [] else LowBits(input[0], 8) + ByteBits(input[1..])
  }

  lemma {:induction false} ByteBitsAppend(a: seq<nat>, b: seq<nat>)
    ensures ByteBits(a + b) == ByteBits(a) + ByteBits(b)
  {
    if a == [] {
      assert a + b == b;
    } else {
      assert (a + b)[1..] == a[1..] + b;
      ByteBitsAppend(a[1..], b);
    }
  }

  /** The bits in the accumulator. */
  ghost function Held(hold: nat, bits: nat): (s: BitString)
    ensures |s| == bits
  {
    LowBits(hold, bits)
  }

  /** All bits still to be used: accumulator, unread input, and what follows it. */
  ghost function Ahead(hold: nat, bits: nat, input: seq<nat>, next: nat, u: BitString): BitString
    requires next <= |input|
  {
    Held(hold, bits) + (ByteBits(input[next..]) + u)
  }

  lemma {:induction false} AddByte(hold: nat, bits: nat, b: nat)
    requires hold < Pow2(bits) && b < 256
    ensures hold + b * Pow2(bits) < Pow2(bits + 8)
    ensures Held(hold + b * Pow2(bits), bits + 8) == Held(hold, bits) + LowBits(b, 8)
  {
    var hold' := hold + b * Pow2(bits);
    var s := LowBits(hold, bits) + LowBits(b, 8);
    Pow2Values();
    ValLowBits(hold, bits);
    ValLowBits(b, 8);
    ValConcat(LowBits(hold, bits), LowBits(b, 8));
    Commute(b, Pow2(bits));
    ValBound(s);
    ValLowBits(hold', bits + 8);
    ValInjective(LowBits(hold', bits + 8), s);
  }

  lemma {:induction false} Commute(a: nat, b: nat)
    ensures a * b == b * a
  {
  }

  lemma {:induction false} NextByte(input: seq<nat>, next: nat)
    requires next < |input|
    ensures ByteBits(input[next..]) == LowBits(input[next], 8) + ByteBits(input[next + 1..])
  {
    assert input[next..][1..] == input[next + 1..];
  }

  /** PULLBYTE. */
  method PullByte(input: seq<nat>, next: nat, hold: nat, bits: nat, ghost u: BitString)
    returns (next': nat, hold': nat, bits': nat)
    requires AreBytes(input) && next < |input| && hold < Pow2(bits)
    ensures next' == next + 1 && bits' == bits + 8 && hold' < Pow2(bits') && hold' == hold + input[next] * Pow2(bits)
    ensures Held(hold, bits) <= Held(hold', bits')
    ensures Ahead(hold', bits', input, next', u) == Ahead(hold, bits, input, next, u)
  {
    AddByte(hold, bits, input[next]);
    NextByte(input, next);
    hold' := hold + input[next] * Pow2(bits);
    bits' := bits + 8;
    next' := next + 1;
    Regroup(Held(hold, bits), LowBits(input[next], 8), ByteBits(input[next'..]), u);
  }

  lemma {:induction false} Regroup(a: BitString, b: BitString, c: BitString, d: BitString)
    ensures (a + b) + (c + d) == a + ((b + c) + d)
  {
  }

  /** BITS(n), DROPBITS(n). */
  lemma {:induction false} TakeBits(hold: nat, bits: nat, n: nat)
    requires hold < Pow2(bits) && n <= bits
    ensures hold % Pow2(n) == Val(Held(hold, bits)[..n])
    ensures hold / Pow2(n) < Pow2(bits - n)
    ensures Held(hold / Pow2(n), bits - n) == Held(hold, bits)[n..]
  {
    var s := Held(hold, bits);
    ValLowBits(hold, bits);
    ValSplit(s, n);
    ValBound(s[n..]);
    ValLowBits(hold / Pow2(n), bits - n);
    ValInjective(Held(hold / Pow2(n), bits - n), s[n..]);
  }

  lemma {:induction false} PadIsVal(s: BitString)
    requires |s| < MAX_BITS
    ensures Val(Pad(s)) == Val(s)
  {
    AppendZeros(s, MAX_BITS - |s|);
  }

  lemma {:induction false} PadPrefix(s: BitString, n: nat)
    requires n <= MAX_BITS
    ensures Val(s) % Pow2(n) == Val(Pad(s)[..n])
  {
    if |s| < MAX_BITS {
      PadIsVal(s);
      ValSplit(Pad(s), n);
    } else {
      ValSplit(s, n);
      assert Pad(s)[..n] == s[..n];
    }
  }

  lemma {:induction false} PadValue(hold: nat, bits: nat, n: nat)
    requires hold < Pow2(bits) && n <= MAX_BITS
    ensures hold % Pow2(n) == Val(Pad(Held(hold, bits))[..n])
  {
    ValLowBits(hold, bits);
    PadPrefix(Held(hold, bits), n);
  }

  lemma {:induction false} PadMiddle(hold: nat, bits: nat, b: nat, n: nat)
    requires hold < Pow2(bits) && b + n <= MAX_BITS
    ensures (hold % Pow2(b + n)) / Pow2(b) == Val(Pad(Held(hold, bits))[b..b + n])
  {
    var p := Pad(Held(hold, bits));
    PadValue(hold, bits, b + n);
    ValSplit(p[..b + n], b);
    assert p[..b + n][b..] == p[b..b + n];
  }

  // ----- reading a code -----

  /** Every look-up stays inside the table and takes 1 to 15 bits. */
  ghost predicate Usable(t: seq<Code>, root: nat)
  {
    1 <= root <= MAX_BITS && forall s: BitString :: UsableAt(t, root, s)
  }

  ghost predicate UsableAt(t: seq<Code>, root: nat, s: BitString)
  {
    Inside(t, root, Pad(s)) && 1 <= Peek(t, root, s).bits <= MAX_BITS
  }

  lemma {:induction false} GoodIsUsable(t: seq<Code>, root: nat, kind: Kind, lens: seq<nat>)
    requires GoodTable(t, root, kind, lens)
    ensures Usable(t, root)
  {
    forall s: BitString ensures UsableAt(t, root, s) {
      PeekIsCanon(t, root, kind, lens, s);
    }
  }

  /** BITS(n): the low n bits of the accumulator. */
  function Low(hold: nat, n: nat): nat { hold % Pow2(n) }

  /** BITS(b + n) >> b. */
  function Mid(hold: nat, b: nat, n: nat): nat { Shifted(Low(hold, b + n), Pow2(b)) }

  function Shifted(a: nat, d: nat): nat requires d > 0 { a / d }

  predicate IsLink(e: Code) { e.op != 0 && e.op < 16 }

  /** Indexing the table with the accumulator, as the code does, agrees with `look`. */
  ghost predicate Indexed(t: seq<Code>, root: nat, look: BitString -> Code, hold: nat, bits: nat)
  {
    && Low(hold, root) < |t|
    && var e := t[Low(hold, root)];
       if IsLink(e) then
         && e.bits == root && root + e.op <= MAX_BITS
         && var i := e.val + Mid(hold, e.bits, e.op);
            i < |t| && look(Held(hold, bits)) == Code(t[i].op, e.bits + t[i].bits, t[i].val)
       else look(Held(hold, bits)) == e
  }

  ghost predicate Reads(t: seq<Code>, root: nat, look: BitString -> Code)
  {
    forall hold: nat, bits: nat :: hold < Pow2(bits) ==> Indexed(t, root, look, hold, bits)
  }

  lemma {:induction false} IndexFirst(t: seq<Code>, root: nat, hold: nat, bits: nat, p: BitString)
    requires UsableAt(t, root, Held(hold, bits)) && hold < Pow2(bits) && 1 <= root <= MAX_BITS && p == Pad(Held(hold, bits))
    ensures Low(hold, root) == Val(p[..root]) && Inside(t, root, p) && Peek(t, root, Held(hold, bits)) == Lookup(t, root, p)
  {
    PadValue(hold, bits, root);
  }

  lemma {:induction false} IndexSecond(t: seq<Code>, root: nat, hold: nat, bits: nat, p: BitString, e: Code)
    requires hold < Pow2(bits) && p == Pad(Held(hold, bits)) && root <= MAX_BITS && e.bits == root && root + e.op <= MAX_BITS
    ensures Mid(hold, e.bits, e.op) == Val(p[root..root + e.op])
  {
    PadMiddle(hold, bits, root, e.op);
  }

  /** Look-up with the two indices named. */
  lemma {:induction false} LookupIs(t: seq<Code>, root: nat, p: BitString, i: nat, e: Code)
    requires Inside(t, root, p) && i == Val(p[..root]) && e == t[i] && root <= |p|
    ensures !IsLink(e) ==> Lookup(t, root, p) == e
    ensures IsLink(e) ==>
              && e.bits == root && root + e.op <= |p|
              && var j := e.val + Val(p[root..root + e.op]);
                 j < |t| && Lookup(t, root, p) == Code(t[j].op, e.bits + t[j].bits, t[j].val)
  {
  }

  lemma {:induction false} UsableReads(t: seq<Code>, root: nat, look: BitString -> Code)
    requires Usable(t, root) && forall s :: look(s) == Peek(t, root, s)
    ensures Reads(t, root, look)
  {
    forall hold: nat, bits: nat | hold < Pow2(bits) ensures Indexed(t, root, look, hold, bits) {
      var s := Held(hold, bits);
      assert UsableAt(t, root, s) && look(s) == Peek(t, root, s);
      IndexedAt(t, root, look, hold, bits);
    }
  }

  lemma {:induction false} IndexedAt(t: seq<Code>, root: nat, look: BitString -> Code, hold: nat, bits: nat)
    requires UsableAt(t, root, Held(hold, bits)) && hold < Pow2(bits) && 1 <= root <= MAX_BITS
    requires look(Held(hold, bits)) == Peek(t, root, Held(hold, bits))
    ensures Indexed(t, root, look, hold, bits)
  {
    var p := Pad(Held(hold, bits));
    IndexFirst(t, root, hold, bits, p);
    var e := t[Val(p[..root])];
    LookupIs(t, root, p, Val(p[..root]), e);
    if IsLink(e) {
      IndexSecond(t, root, hold, bits, p, e);
    }
  }

  lemma {:induction false} LowSame(hold: nat, b: nat, bits: nat, root: nat)
    requires hold < Pow2(bits) && root <= bits
    ensures Low(hold + b * Pow2(bits), root) == Low(hold, root)
  {
    Pow2Add(root, bits - root);
    var d, q := Pow2(root), b * Pow2(bits - root);
    AddMultipleMod(hold, d, q, b, Pow2(bits - root));
  }

  lemma {:induction false} AddMultipleMod(n: nat, d: nat, q: nat, b: nat, k: nat)
    requires d > 0 && q == b * k
    ensures (n + b * (d * k)) % d == n % d
  {
    assert b * (d * k) == d * q;
    DivModUnique(n + d * q, d, n / d + q, n % d) by { Spread(n, d, q); }
  }

  lemma {:induction false} Spread(n: nat, d: nat, q: nat)
    requires d > 0
    ensures n + d * q == d * (n / d + q) + n % d
  {
  }

  /** Either no byte was pulled, or the bits before the last byte were too few. */
  ghost predicate JustEnough(look: BitString -> Code, hold0: nat, bits0: nat, hold: nat, bits: nat)
  {
    || (hold == hold0 && bits == bits0)
    || (bits >= 8 && look(Held(hold, bits)[..bits - 8]).bits > bits - 8)
  }

  lemma {:induction false} JustPulled(look: BitString -> Code, hold0: nat, bits0: nat, hold: nat, bits: nat, hold': nat, bits': nat)
    requires Held(hold, bits) <= Held(hold', bits') && bits' == bits + 8 && look(Held(hold, bits)).bits > bits
    ensures JustEnough(look, hold0, bits0, hold', bits')
  {
    assert Held(hold', bits')[..bits' - 8] == Held(hold, bits);
  }

  lemma {:induction false} TooFew(t: seq<Code>, root: nat, look: BitString -> Code, hold: nat, bits: nat)
    requires Indexed(t, root, look, hold, bits) && t[Low(hold, root)].bits > bits
    ensures look(Held(hold, bits)).bits > bits
  {
  }

  /** Read a code through the tables.  `here.bits` is the number of bits the code takes. */
  method ReadCode(t: seq<Code>, root: nat, input: seq<nat>, next0: nat, hold0: nat, bits0: nat,
                  ghost look: BitString -> Code, ghost u: BitString)
    returns (ok: bool, next: nat, hold: nat, bits: nat, here: Code)
    requires Reads(t, root, look) && AreBytes(input) && next0 <= |input| && hold0 < Pow2(bits0)
    ensures next0 <= next <= |input| && hold < Pow2(bits)
    ensures Ahead(hold, bits, input, next, u) == Ahead(hold0, bits0, input, next0, u)
    ensures ok ==> here == look(Held(hold, bits)) && here.bits <= bits
    ensures !ok ==> next == |input| && look(Held(hold, bits)).bits > bits
    ensures JustEnough(look, hold0, bits0, hold, bits)
  {
    next, hold, bits := next0, hold0, bits0;
    ok := false;
    while true
      invariant next0 <= next <= |input| && hold < Pow2(bits)
      invariant Ahead(hold, bits, input, next, u) == Ahead(hold0, bits0, input, next0, u)
      invariant JustEnough(look, hold0, bits0, hold, bits)
      decreases |input| - next
    {
      assert Indexed(t, root, look, hold, bits);
      here := t[Low(hold, root)];
      if here.bits <= bits { break; }
      TooFew(t, root, look, hold, bits);
      if next == |input| { return; }
      ghost var hold1, bits1 := hold, bits;
      next, hold, bits := PullByte(input, next, hold, bits, u);
      JustPulled(look, hold0, bits0, hold1, bits1, hold, bits);
    }
    ok := true;
    if IsLink(here) {
      ok, next, hold, bits, here := ReadSecond(t, root, here, input, next, hold, bits, look, u);
    }
  }

  /** The loop for a second-level entry. */
  method ReadSecond(t: seq<Code>, root: nat, last: Code, input: seq<nat>, next0: nat, hold0: nat, bits0: nat,
                    ghost look: BitString -> Code, ghost u: BitString)
    returns (ok: bool, next: nat, hold: nat, bits: nat, here: Code)
    requires Reads(t, root, look) && AreBytes(input) && next0 <= |input| && hold0 < Pow2(bits0)
    requires Low(hold0, root) < |t| && last == t[Low(hold0, root)] && IsLink(last) && last.bits <= bits0
    ensures next0 <= next <= |input| && hold < Pow2(bits)
    ensures Ahead(hold, bits, input, next, u) == Ahead(hold0, bits0, input, next0, u)
    ensures ok ==> here == look(Held(hold, bits)) && here.bits <= bits
    ensures !ok ==> next == |input| && look(Held(hold, bits)).bits > bits
    ensures JustEnough(look, hold0, bits0, hold, bits)
  {
    next, hold, bits := next0, hold0, bits0;
    assert Indexed(t, root, look, hold, bits);
    while true
      invariant next0 <= next <= |input| && hold < Pow2(bits) && last.bits <= bits
      invariant Ahead(hold, bits, input, next, u) == Ahead(hold0, bits0, input, next0, u)
      invariant Low(hold, root) < |t| && last == t[Low(hold, root)]
      invariant JustEnough(look, hold0, bits0, hold, bits)
      decreases |input| - next
    {
      assert Indexed(t, root, look, hold, bits);
      here := t[last.val + Mid(hold, last.bits, last.op)];
      if last.bits + here.bits <= bits {
        ok, here := true, Code(here.op, last.bits + here.bits, here.val);
        return;
      }
      if next == |input| {
        ok := false;
        return;
      }
      LowSame(hold, input[next], bits, root);
      ghost var hold1, bits1 := hold, bits;
      next, hold, bits := PullByte(input, next, hold, bits, u);
      JustPulled(look, hold0, bits0, hold1, bits1, hold, bits);
    }
  }

  /** NEEDBITS(n). */
  method NeedBits(n: nat, input: seq<nat>, next0: nat, hold0: nat, bits0: nat, ghost u: BitString)
    returns (ok: bool, next: nat, hold: nat, bits: nat)
    requires AreBytes(input) && next0 <= |input| && hold0 < Pow2(bits0)
    ensures next0 <= next <= |input| && hold < Pow2(bits)
    ensures Ahead(hold, bits, input, next, u) == Ahead(hold0, bits0, input, next0, u)
    ensures ok <==> n <= bits
    ensures !ok ==> next == |input|
    ensures bits == bits0 || bits < n + 8
  {
    next, hold, bits := next0, hold0, bits0;
    ok := true;
    while bits < n
      invariant next0 <= next <= |input| && hold < Pow2(bits) && ok && (bits == bits0 || bits < n + 8)
      invariant Ahead(hold, bits, input, next, u) == Ahead(hold0, bits0, input, next0, u)
      decreases |input| - next
    {
      if next == |input| {
        ok := false;
        return;
      }
      next, hold, bits := PullByte(input, next, hold, bits, u);
    }
  }

  /** DROPBITS(n). */
  method DropBits(n: nat, hold: nat, bits: nat) returns (hold': nat, bits': nat)
    requires hold < Pow2(bits) && n <= bits
    ensures bits' == bits - n && hold' < Pow2(bits') && Held(hold', bits') == Held(hold, bits)[n..]
    ensures Low(hold, n) == Val(Held(hold, bits)[..n]) && hold' == Shifted(hold, Pow2(n))
  {
    TakeBits(hold, bits, n);
    hold' := Shifted(hold, Pow2(n));
    bits' := bits - n;
  }

  // ----- the states that read codes and extra bits -----

  /** The tables do what the reader says. */
  ghost predicate Tabled(tabs: Tables, r: Reader)
  {
    Steady(r) && Bounded(r) && Reads(tabs.lens, tabs.lenBits, r.len) && Reads(tabs.dists, tabs.distBits, r.dist)
  }

  lemma {:induction false} GoodReads(t: seq<Code>, root: nat, kind: Kind, lens: seq<nat>, look: BitString -> Code)
    requires GoodTable(t, root, kind, lens) && forall s :: look(s) == CanonCode(kind, lens, s)
    ensures Reads(t, root, look)
  {
    GoodIsUsable(t, root, kind, lens);
    forall s: BitString ensures look(s) == Peek(t, root, s) {
      PeekIsCanon(t, root, kind, lens, s);
    }
    UsableReads(t, root, look);
  }

  lemma {:induction false} GoodIsTabled(tabs: Tables, llens: seq<nat>, dlens: seq<nat>)
    requires GoodTables(tabs, llens, dlens)
    ensures Tabled(tabs, Canonical(llens, dlens))
  {
    var r := Canonical(llens, dlens);
    CanonicalSteady(llens, dlens);
    CanonicalBounded(llens, dlens);
    GoodReads(tabs.lens, tabs.lenBits, LENS, llens, r.len);
    GoodReads(tabs.dists, tabs.distBits, DISTS, dlens, r.dist);
  }

  /** One step was taken on the bits at hand: the whole run is the same. */
  lemma {:induction false} StepKeepsRun(r: Reader, p: Point, out: seq<nat>, hold: nat, bits: nat, hold': nat, bits': nat, p': Point,
                                        input: seq<nat>, next: nat, u: BitString)
    requires Steady(r) && next <= |input| && !Stuck(r, p, Held(hold, bits))
    requires Step(r, p, out, Held(hold, bits)) == Outcome(out, p', Held(hold', bits'))
    ensures Run(r, p', out, Ahead(hold', bits', input, next, u)) == Run(r, p, out, Ahead(hold, bits, input, next, u))
  {
    RunStep(r, p, out, Held(hold, bits), ByteBits(input[next..]) + u);
  }

  /** Progress: fewer bits are left, or as many and a later state. */
  ghost predicate Forward(p: Point, n: nat, p': Point, n': nat)
  {
    n' < n || (n' == n && Height(p'.mode) < Height(p.mode))
  }

  ghost function Left(bits: nat, input: seq<nat>, next: nat): nat
    requires next <= |input|
  {
    bits + 8 * (|input| - next)
  }

  /** Fewer than 8 bits are held, or all of them are needed for the next code. */
  ghost predicate Lean(r: Reader, p: Point, hold: nat, bits: nat)
  {
    bits < 8 || (p.mode != TYPE && Stuck(r, p, Held(hold, bits)))
  }

  lemma {:induction false} LeanAfter(look: BitString -> Code, hold0: nat, bits0: nat, hold: nat, bits: nat)
    requires JustEnough(look, hold0, bits0, hold, bits) && look(Held(hold, bits)).bits <= bits
    requires bits0 < 8 || look(Held(hold0, bits0)).bits > bits0
    requires forall s: BitString, u: BitString :: SteadyAt(look, s, u)
    ensures bits - look(Held(hold, bits)).bits < 8
  {
    if bits >= 8 && look(Held(hold, bits)[..bits - 8]).bits > bits - 8 {
      var s, u := Held(hold, bits)[..bits - 8], Held(hold, bits)[bits - 8..];
      assert Held(hold, bits) == s + u;
      assert SteadyAt(look, s, u);
    }
  }

  /** LEN and DIST: read a code and act on it. */
  method CodeState(tabs: Tables, p: Point, input: seq<nat>, next0: nat, hold0: nat, bits0: nat,
                   ghost r: Reader, ghost out: seq<nat>, ghost u: BitString)
    returns (ok: bool, p': Point, next: nat, hold: nat, bits: nat)
    requires Tabled(tabs, r) && AreBytes(input) && next0 <= |input| && hold0 < Pow2(bits0)
    requires (p.mode == LEN || p.mode == DIST) && PointOk(p) && Lean(r, p, hold0, bits0)
    ensures Lean(r, p', hold, bits)
    ensures next0 <= next <= |input| && hold < Pow2(bits) && PointOk(p')
    ensures Run(r, p', out, Ahead(hold, bits, input, next, u)) == Run(r, p, out, Ahead(hold0, bits0, input, next0, u))
    ensures !ok ==> p' == p && next == |input| && Stuck(r, p, Held(hold, bits)) && Left(bits, input, next) == Left(bits0, input, next0)
    ensures ok ==> Forward(p, Left(bits0, input, next0), p', Left(bits, input, next))
  {
    p' := p;
    var here;
    if p.mode == LEN {
      ok, next, hold, bits, here := ReadCode(tabs.lens, tabs.lenBits, input, next0, hold0, bits0, r.len, u);
    } else {
      ok, next, hold, bits, here := ReadCode(tabs.dists, tabs.distBits, input, next0, hold0, bits0, r.dist, u);
    }
    SameLeft(hold, bits, hold0, bits0, input, next, next0, u);
    if !ok { return; }
    ghost var hold1, bits1 := hold, bits;
    assert SteadyAt(r.len, Held(hold, bits), []) && SteadyAt(r.dist, Held(hold, bits), []);
    assert SteadyAt(r.len, Held(hold0, bits0), []) && SteadyAt(r.dist, Held(hold0, bits0), []);
    LeanAfter(if p.mode == LEN then r.len else r.dist, hold0, bits0, hold, bits);
    hold, bits := DropBits(here.bits, hold, bits);
    if p.mode == LEN {
      p' := p'.(length := here.val);
      if here.op == 0 {
        p' := p'.(mode := LIT);
      } else if HasBit(here.op, 32) {
        p' := p'.(mode := TYPE);
      } else if HasBit(here.op, 64) {
        p' := p'.(mode := BAD);
      } else {
        p' := p'.(extra := here.op % 16, mode := LENEXT);
      }
    } else if HasBit(here.op, 64) {
      p' := p'.(mode := BAD);
    } else {
      p' := p'.(offset := here.val, extra := here.op % 16, mode := DISTEXT);
    }
    StepOk(r, p, out, Held(hold1, bits1));
    StepKeepsRun(r, p, out, hold1, bits1, hold, bits, p', input, next, u);
  }

  lemma {:induction false} SameLeft(hold: nat, bits: nat, hold0: nat, bits0: nat, input: seq<nat>, next: nat, next0: nat, u: BitString)
    requires next <= |input| && next0 <= |input|
    requires Ahead(hold, bits, input, next, u) == Ahead(hold0, bits0, input, next0, u)
    ensures Left(bits, input, next) == Left(bits0, input, next0)
  {
    assert |Ahead(hold, bits, input, next, u)| == Left(bits, input, next) + |u|;
    assert |Ahead(hold0, bits0, input, next0, u)| == Left(bits0, input, next0) + |u|;
  }

  /** LENEXT and DISTEXT: add the extra bits. */
  method ExtraState(p: Point, input: seq<nat>, next0: nat, hold0: nat, bits0: nat,
                    ghost r: Reader, ghost out: seq<nat>, ghost u: BitString)
    returns (ok: bool, p': Point, next: nat, hold: nat, bits: nat)
    requires Steady(r) && Bounded(r) && AreBytes(input) && next0 <= |input| && hold0 < Pow2(bits0)
    requires (p.mode == LENEXT || p.mode == DISTEXT) && PointOk(p) && Lean(r, p, hold0, bits0)
    ensures Lean(r, p', hold, bits)
    ensures next0 <= next <= |input| && hold < Pow2(bits) && PointOk(p')
    ensures Run(r, p', out, Ahead(hold, bits, input, next, u)) == Run(r, p, out, Ahead(hold0, bits0, input, next0, u))
    ensures !ok ==> p' == p && next == |input| && Stuck(r, p, Held(hold, bits)) && Left(bits, input, next) == Left(bits0, input, next0)
    ensures ok ==> Forward(p, Left(bits0, input, next0), p', Left(bits, input, next))
  {
    p' := p;
    ok, next, hold, bits := NeedBits(p.extra, input, next0, hold0, bits0, u);
    SameLeft(hold, bits, hold0, bits0, input, next, next0, u);
    if !ok { return; }
    ghost var hold1, bits1 := hold, bits;
    var value := Low(hold, p.extra);
    hold, bits := DropBits(p.extra, hold, bits);
    if p.mode == LENEXT {
      p' := p.(length := p.length + value, mode := DIST);
    } else {
      p' := p.(offset := p.offset + value, mode := MATCH);
    }
    StepOk(r, p, out, Held(hold1, bits1));
    StepKeepsRun(r, p, out, hold1, bits1, hold, bits, p', input, next, u);
  }
}
