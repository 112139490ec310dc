/**
 The states TYPEDO to CODELENS of inflate.c: the header of a block and stored blocks.
 Each reads from the input as it needs bits, and can stop for lack of input and be resumed
 in the middle of a header.
 */
module StreamStates {
  import opened Bits
  import opened Huffman
  import opened InflateTable
  import opened RunCoding
  import opened FixedCodes
  import opened Decoding
  import opened StreamDecoding
  import opened Inflating

  const LENS_SIZE := 320

  /** Fields of inflate_state: the state with length, offset and extra, whether this is the
      last block, the counts of a header, and the decoding tables. */
  datatype Regs = Regs(at: Point, last: bool, nlen: nat, ndist: nat, ncode: nat, have: nat, tabs: Tables)

  /** The table of the code-length code: inflate does not expect links in it. */
  ghost predicate Plain(tabs: Tables, cl: seq<nat>)
  {
    OneLevel(tabs.lens) && GoodTable(tabs.lens, tabs.lenBits, CODES, cl)
  }

  /** The lengths read so far stand in lens in the order they were sent. */
  ghost predicate InSendingOrder(lens: seq<nat>, got: seq<nat>)
  {
    |lens| == LENS_SIZE && |got| <= BL_CODES && forall i: nat :: i < |got| ==> lens[BlOrder(i)] == got[i]
  }

  /** The fields and the lengths in lens say where decoding stands. */
  ghost predicate Shows(g: Regs, lens: seq<nat>, q: Spot)
  {
    var says :=
      match q
      case TypeDo(last) => g.at.mode == TYPE && g.last == last
      case Stored(last) => g.at.mode == STORED && g.last == last
      case Copying(last, n) => g.at.mode == COPY && g.last == last && g.at.length == n
      case Table(last) => g.at.mode == TABLE && g.last == last
      case LenLens(last, nlen, ndist, ncode, got) =>
        && g.at.mode == LENLENS && g.last == last && g.nlen == nlen && g.ndist == ndist && g.ncode == ncode
        && g.have == |got| && InSendingOrder(lens, got)
      case CodeLens(last, nlen, ndist, cl, got) =>
        && g.at.mode == CODELENS && g.last == last && g.nlen == nlen && g.ndist == ndist
        && g.have == |got| && got <= lens && Plain(g.tabs, cl)
      case Block(last, llens, dlens, p) => g.at == p && g.last == last && GoodTables(g.tabs, llens, dlens)
      case Done => g.at.mode == DONE
      case Failed => g.at.mode == BAD;
    says
  }

  /** Fewer than 8 bits are held, or none are, or they are not enough to go on. */
  ghost predicate SpotLean(q: Spot, hold: nat, bits: nat)
  {
    var says :=
      match q
      case Stored(_) => bits < 8 || (Whole(bits) && bits <= 32)
      case Copying(_, _) => bits == 0
      case Done => bits == 0
      case Block(_, llens, dlens, p) => Lean(Canonical(llens, dlens), p, hold, bits)
      case _ => bits < 8 || Waits(q, Held(hold, bits));
    says
  }

  /** Locals of a call: the flow from here on is o. */
  ghost predicate Flowing(q: Spot, out: seq<nat>, hold: nat, bits: nat, input: seq<nat>, next: nat, u: BitString, o: Result)
  {
    var sane := next <= |input| && hold < Pow2(bits) && SpotOk(q) && SpotLean(q, hold, bits);
    sane && Flow(q, out, Ahead(hold, bits, input, next, u)) == o
  }

  /** One state uses bits, or leads to a later state. */
  ghost predicate MovesOn(q: Spot, n: nat, q': Spot, n': nat)
  {
    n' < n || (n' == n && Tier(q') < Tier(q))
  }

  /** There is no more input, and the bits held are not enough. */
  ghost predicate Dry(q: Spot, hold: nat, bits: nat, input: seq<nat>, next: nat)
  {
    next == |input| && Waits(q, Held(hold, bits))
  }

  lemma {:induction false} WholeBytes(input: seq<nat>, next: nat, u: BitString)
    requires next <= |input| && Whole(|u|)
    ensures Whole(|ByteBits(input[next..]) + u|)
  {
    WholeBits(|input| - next);
    OverMore(8 * (|input| - next), |u|);
  }

  /** One step was taken on the bits at hand: the flow is the same. */
  lemma {:induction false} Stepped(q: Spot, out: seq<nat>, hold0: nat, bits0: nat, q': Spot, out': seq<nat>, hold: nat, bits: nat,
                                   input: seq<nat>, next: nat, u: BitString, o: Result)
    requires next <= |input| && Whole(|u|) && SpotOk(q) && !q.Block? && !Waits(q, Held(hold0, bits0))
    requires Flow(q, out, Ahead(hold0, bits0, input, next, u)) == o
    requires Next(q, out, Held(hold0, bits0)) == Result(out', q', Held(hold, bits))
    requires hold < Pow2(bits) && SpotLean(q', hold, bits)
    ensures Flowing(q', out', hold, bits, input, next, u, o)
  {
    WholeBytes(input, next, u);
    NextOk(q, out, Held(hold0, bits0));
    FlowStep(q, out, Held(hold0, bits0), ByteBits(input[next..]) + u);
  }

  /** BYTEBITS. */
  method ByteAlign(hold: nat, bits: nat) returns (hold': nat, bits': nat)
    requires hold < Pow2(bits)
    ensures bits' == bits - Over(bits) && hold' < Pow2(bits') && Held(hold', bits') == Aligned(Held(hold, bits))
  {
    OverIsMod(bits);
    hold', bits' := DropBits(bits % 8, hold, bits);
  }

  // ----- TYPEDO -----

  lemma {:induction false} TypeFields(s: BitString)
    requires |s| >= 3
    ensures Val(s[..1]) == Bit(s[0]) && s[1..][..2] == s[1..3] && s[1..][2..] == s[3..] && Val(s[1..3]) <= 3
  {
    assert s[..1][1..] == [];
    ValBound(s[1..3]);
    assert Pow2(2) == 4;
  }

  /** The three bits of a block header. */
  method TakeType(hold0: nat, bits0: nat) returns (last: bool, kind: nat, hold: nat, bits: nat)
    requires hold0 < Pow2(bits0) && bits0 >= 3
    ensures hold < Pow2(bits) && bits == bits0 - 3
    ensures var s := Held(hold0, bits0); last == s[0] && kind == Val(s[1..3]) && Held(hold, bits) == s[3..]
  {
    TypeFields(Held(hold0, bits0));
    last := Low(hold0, 1) == 1;
    hold, bits := DropBits(1, hold0, bits0);
    kind := Low(hold, 2);
    hold, bits := DropBits(2, hold, bits);
  }

  lemma {:induction false} Ended(q: Spot, out: seq<nat>, hold0: nat, bits0: nat, hold: nat, bits: nat, input: seq<nat>, next: nat, u: BitString, o: Result)
    requires Whole(|u|) && q == TypeDo(true) && Flowing(q, out, hold0, bits0, input, next, u, o)
    requires bits == bits0 - Over(bits0) && hold < Pow2(bits) && Held(hold, bits) == Aligned(Held(hold0, bits0))
    ensures Flowing(Done, out, hold, bits, input, next, u, o)
  {
    assert SpotLean(Done, hold, bits);
    Stepped(q, out, hold0, bits0, Done, out, hold, bits, input, next, u, o);
  }

  method TypeState(g: Regs, fixed: Tables, input: seq<nat>, next0: nat, hold0: nat, bits0: nat, ghost lens: seq<nat>,
                   ghost q: Spot, ghost out: seq<nat>, ghost u: BitString, ghost o: Result)
    returns (stop: bool, g': Regs, next: nat, hold: nat, bits: nat, ghost q': Spot)
    requires AreBytes(input) && Whole(|u|) && GoodTables(fixed, StaticL(), StaticD())
    requires q.TypeDo? && Shows(g, lens, q) && Flowing(q, out, hold0, bits0, input, next0, u, o)
    ensures next0 <= next && Flowing(q', out, hold, bits, input, next, u, o) && Shows(g', lens, q')
    ensures stop ==> Dry(q', hold, bits, input, next)
    ensures !stop ==> MovesOn(q, Left(bits0, input, next0), q', Left(bits, input, next))
  {
    if g.last {
      stop, next := false, next0;
      hold, bits := ByteAlign(hold0, bits0);
      g', q' := g.(at := g.at.(mode := DONE)), Done;
      Ended(q, out, hold0, bits0, hold, bits, input, next, u, o);
    } else {
      stop, g', next, hold, bits, q' := NextBlock(g, fixed, input, next0, hold0, bits0, lens, q, out, u, o);
    }
  }

  /** Not after the last block. */
  method NextBlock(g: Regs, fixed: Tables, input: seq<nat>, next0: nat, hold0: nat, bits0: nat, ghost lens: seq<nat>,
                   ghost q: Spot, ghost out: seq<nat>, ghost u: BitString, ghost o: Result)
    returns (stop: bool, g': Regs, next: nat, hold: nat, bits: nat, ghost q': Spot)
    requires AreBytes(input) && Whole(|u|) && GoodTables(fixed, StaticL(), StaticD())
    requires q == TypeDo(false) && Shows(g, lens, q) && Flowing(q, out, hold0, bits0, input, next0, u, o)
    ensures next0 <= next && Flowing(q', out, hold, bits, input, next, u, o) && Shows(g', lens, q')
    ensures stop ==> Dry(q', hold, bits, input, next)
    ensures !stop ==> Left(bits, input, next) < Left(bits0, input, next0)
  {
    g', q' := g, q;
    var ok;
    ok, next, hold, bits := NeedBits(3, input, next0, hold0, bits0, u);
    SameLeft(hold, bits, hold0, bits0, input, next, next0, u);
    stop := !ok;
    if ok {
      ghost var hold1, bits1 := hold, bits;
      var last, kind;
      last, kind, hold, bits := TakeType(hold, bits);
      g', q' := TypeRegs(g, fixed, last, kind, lens, Held(hold1, bits1));
      Stepped(q, out, hold1, bits1, q', out, hold, bits, input, next, u, o);
    }
  }

  method TypeRegs(g: Regs, fixed: Tables, last: bool, kind: nat, ghost lens: seq<nat>, ghost s: BitString) returns (g': Regs, ghost q': Spot)
    requires |s| >= 3 && last == s[0] && kind == Val(s[1..3]) && GoodTables(fixed, StaticL(), StaticD())
    ensures q' == AfterType(g.last, s) && Shows(g', lens, q')
    ensures forall hold, bits: nat | bits < 8 :: SpotLean(q', hold, bits)
  {
    q' := AfterType(g.last, s);
    if kind == 0 {
      g' := g.(last := last, at := g.at.(mode := STORED));
    } else if kind == 1 {
      g' := g.(last := last, at := START, tabs := fixed);
    } else if kind == 2 {
      g' := g.(last := last, at := g.at.(mode := TABLE));
    } else {
      g' := g.(last := last, at := g.at.(mode := BAD));
    }
  }

  // ----- STORED and COPY -----

  /** The two halves of 32 bits; n is 16. */
  lemma {:induction false} Halves(hold: nat, n: nat)
    requires hold < Pow2(n + n)
    ensures Low(hold, n) == Val(Held(hold, n + n)[..n]) && Shifted(hold, Pow2(n)) == Val(Held(hold, n + n)[n..n + n])
  {
    TakeBits(hold, n + n, n);
    ValLowBits(Shifted(hold, Pow2(n)), n);
    assert Held(hold, n + n)[n..] == Held(hold, n + n)[n..n + n];
  }

  lemma {:induction false} AlignedFlow(last: bool, out: seq<nat>, hold0: nat, bits0: nat, hold: nat, bits: nat,
                                       input: seq<nat>, next: nat, u: BitString)
    requires next <= |input| && Whole(|u|) && Held(hold, bits) == Aligned(Held(hold0, bits0))
    ensures Flow(Stored(last), out, Ahead(hold, bits, input, next, u)) == Flow(Stored(last), out, Ahead(hold0, bits0, input, next, u))
  {
    WholeBytes(input, next, u);
    AlignedMore(Held(hold0, bits0), ByteBits(input[next..]) + u);
    FlowAligned(last, out, Ahead(hold0, bits0, input, next, u));
  }

  /** The lengths of a stored block: its length and the complement. n is 16. */
  method StoredLength(hold: nat, n: nat) returns (ok: bool, length: nat)
    requires n == 16 && hold < Pow2(n + n)
    ensures length == Val(Held(hold, n + n)[..n]) && (ok <==> length + Val(Held(hold, n + n)[n..n + n]) == 0xffff)
  {
    Halves(hold, n);
    length := Low(hold, n);
    ok := length == 0xffff - Shifted(hold, Pow2(n));
  }

  lemma {:induction false} AlignedSize(bits0: nat, bits: nat)
    requires bits == bits0 - Over(bits0) && (bits0 < 8 || bits0 <= 32)
    ensures Whole(bits) && bits <= 32
  {
    OverRest(bits0);
  }

  lemma {:induction false} SameWhole(bits: nat, bits0: nat, k: nat, k0: nat)
    requires Whole(bits0) && bits + 8 * k == bits0 + 8 * k0
    ensures Whole(bits) && (32 <= bits < 40 ==> bits == 32)
  {
    WholeBits(k);
    WholeBits(k0);
    OverMore(bits, 8 * k);
    OverMore(bits0, 8 * k0);
    if 32 <= bits < 40 {
      WholeBits(4);
      OverMore(bits - 32, 32);
    }
  }

  /** BYTEBITS; NEEDBITS(32). */
  method FourBytes(last: bool, input: seq<nat>, next0: nat, hold0: nat, bits0: nat, ghost out: seq<nat>, ghost u: BitString, ghost o: Result)
    returns (ok: bool, next: nat, hold: nat, bits: nat)
    requires AreBytes(input) && Whole(|u|) && Flowing(Stored(last), out, hold0, bits0, input, next0, u, o)
    ensures next0 <= next && Flowing(Stored(last), out, hold, bits, input, next, u, o)
    ensures ok ==> bits == 32 && Left(bits, input, next) <= Left(bits0, input, next0)
    ensures !ok ==> Dry(Stored(last), hold, bits, input, next)
  {
    hold, bits := ByteAlign(hold0, bits0);
    AlignedFlow(last, out, hold0, bits0, hold, bits, input, next0, u);
    AlignedSize(bits0, bits);
    ghost var hold1, bits1 := hold, bits;
    ok, next, hold, bits := NeedBits(32, input, next0, hold, bits, u);
    SameLeft(hold, bits, hold1, bits1, input, next, next0, u);
    SameWhole(bits, bits1, |input| - next, |input| - next0);
  }

  /** The block is as long as its four bytes say, or refused. */
  method StoredRegs(g: Regs, hold: nat, ghost lens: seq<nat>, ghost out: seq<nat>) returns (g': Regs, hold': nat, bits': nat, ghost q': Spot)
    requires hold < Pow2(32)
    ensures Shows(g', lens, q') && hold' < Pow2(bits') && SpotLean(q', hold', bits') && bits' <= 32
    ensures AfterStored(g.last, out, Held(hold, 32)) == Result(out, q', Held(hold', bits'))
    ensures bits' == 32 ==> q' == Failed
  {
    var ok, length := StoredLength(hold, 16);
    if ok {
      g', q' := g.(at := g.at.(mode := COPY, length := length)), Copying(g.last, length);
      hold', bits' := 0, 0;
    } else {
      g', q' := g.(at := g.at.(mode := BAD)), Failed;
      hold', bits' := hold, 32;
    }
  }

  method StoredState(g: Regs, input: seq<nat>, next0: nat, hold0: nat, bits0: nat, ghost lens: seq<nat>,
                     ghost q: Spot, ghost out: seq<nat>, ghost u: BitString, ghost o: Result)
    returns (stop: bool, g': Regs, next: nat, hold: nat, bits: nat, ghost q': Spot)
    requires AreBytes(input) && Whole(|u|)
    requires q.Stored? && Shows(g, lens, q) && Flowing(q, out, hold0, bits0, input, next0, u, o)
    ensures next0 <= next && Flowing(q', out, hold, bits, input, next, u, o) && Shows(g', lens, q')
    ensures stop ==> Dry(q', hold, bits, input, next)
    ensures !stop ==> MovesOn(q, Left(bits0, input, next0), q', Left(bits, input, next))
  {
    g', q' := g, q;
    var ok;
    ok, next, hold, bits := FourBytes(g.last, input, next0, hold0, bits0, out, u, o);
    stop := !ok;
    if ok {
      ghost var hold1 := hold;
      WholeBits(4);
      assert Aligned(Held(hold, 32)) == Held(hold, 32);
      g', hold, bits, q' := StoredRegs(g, hold, lens, out);
      Stepped(q, out, hold1, 32, q', out, hold, bits, input, next, u, o);
    }
  }

  /** Bytes of a stored block, however many at a time. */
  lemma {:induction false} FlowCopies(last: bool, n: nat, out: seq<nat>, b: seq<nat>, t: BitString)
    requires |b| <= n && AreBytes(b)
    ensures Flow(Copying(last, n), out, ByteBits(b) + t) == Flow(Copying(last, n - |b|), out + b, t)
  {
    CopiesTo(last, n, n - |b|, out, out + b, b, t);
  }

  lemma {:induction false} CopiesTo(last: bool, n: nat, left: nat, out: seq<nat>, out': seq<nat>, b: seq<nat>, t: BitString)
    requires n == left + |b| && out' == out + b && AreBytes(b)
    ensures Flow(Copying(last, n), out, ByteBits(b) + t) == Flow(Copying(last, left), out', t)
    decreases |b|
  {
    if b == [] {
      assert [] + t == t && out + b == out;
    } else {
      FlowFirst(last, n, out, b, t);
      CopiesTo(last, n - 1, left, out + [b[0]], out', b[1..], t);
    }
  }

  lemma {:induction false} FlowFirst(last: bool, n: nat, out: seq<nat>, b: seq<nat>, t: BitString)
    requires 1 <= |b| <= n && AreBytes(b)
    ensures Flow(Copying(last, n), out, ByteBits(b) + t) == Flow(Copying(last, n - 1), out + [b[0]], ByteBits(b[1..]) + t)
  {
    Assoc(LowBits(b[0], 8), ByteBits(b[1..]), t);
    FlowOne(last, n, out, b[0], ByteBits(b[1..]) + t, 8);
  }

  lemma {:induction false} FlowOne(last: bool, n: nat, out: seq<nat>, x: nat, t: BitString, w: nat)
    requires n > 0 && x < 256 && w == 8
    ensures Flow(Copying(last, n), out, LowBits(x, w) + t) == Flow(Copying(last, n - 1), out + [x], t)
  {
    var s := LowBits(x, w) + t;
    assert s[..w] == LowBits(x, w) && s[w..] == t;
    assert Pow2(w) == 256 by { Pow2Values(); }
    ValLowBits(x, w);
  }

  lemma {:induction false} CopiedFlow(q: Spot, out: seq<nat>, input: seq<nat>, next0: nat, n: nat, hold: nat, u: BitString, o: Result)
    requires q.Copying? && n <= q.length && AreBytes(input) && Flowing(q, out, hold, 0, input, next0, u, o) && next0 + n <= |input|
    ensures Flowing(q.(length := q.length - n), out + input[next0..next0 + n], hold, 0, input, next0 + n, u, o)
  {
    var b, t := input[next0..next0 + n], ByteBits(input[next0 + n..]) + u;
    assert input[next0..] == b + input[next0 + n..];
    ByteBitsAppend(b, input[next0 + n..]);
    Assoc(ByteBits(b), ByteBits(input[next0 + n..]), u);
    assert Held(hold, 0) == [];
    assert Ahead(hold, 0, input, next0, u) == ByteBits(b) + t;
    assert Ahead(hold, 0, input, next0 + n, u) == t;
    FlowCopies(q.last, q.length, out, b, t);
  }

  method CopyIn(put: array<nat>, pos: nat, input: seq<nat>, next: nat, n: nat)
    requires pos + n <= put.Length && next + n <= |input|
    modifies put
    ensures put[..pos + n] == old(put[..pos]) + input[next..next + n]
  {
    var k := 0;
    while k < n
      invariant 0 <= k <= n
      invariant put[..pos + k] == old(put[..pos]) + input[next..next + k]
    {
      put[pos + k] := input[next + k];
      assert put[..pos + k + 1] == put[..pos + k] + [input[next + k]];
      k := k + 1;
    }
  }

  /** COPY: as many bytes as the input and the room allow. */
  method CopyState(g: Regs, input: seq<nat>, next0: nat, hold: nat, put: array<nat>, pos0: nat, ghost h: seq<nat>, ghost lens: seq<nat>,
                   ghost q: Spot, ghost u: BitString, ghost o: Result)
    returns (stop: bool, g': Regs, next: nat, pos: nat, ghost q': Spot)
    requires AreBytes(input) && Whole(|u|) && pos0 <= put.Length
    requires q.Copying? && Shows(g, lens, q) && Flowing(q, h + put[..pos0], hold, 0, input, next0, u, o)
    modifies put
    ensures next0 <= next && pos0 <= pos <= put.Length && put[..pos0] == old(put[..pos0])
    ensures Flowing(q', h + put[..pos], hold, 0, input, next, u, o) && Shows(g', lens, q')
    ensures next - next0 == pos - pos0 == Lesser(q.length, Lesser(|input| - next0, put.Length - pos0))
    ensures put[pos0..pos] == input[next0..next]
    ensures q' == if q.length == 0 then TypeDo(q.last) else q.(length := q.length - (pos - pos0))
    ensures stop ==> q'.Copying? && q'.length > 0 && (next == |input| || pos == put.Length)
    ensures !stop ==> next0 < next || Tier(q') < Tier(q)
  {
    stop, g', next, pos, q' := false, g, next0, pos0, q;
    ghost var out := h + put[..pos0];
    var copy := g.at.length;
    if copy == 0 {
      g', q' := g.(at := g.at.(mode := TYPE)), TypeDo(g.last);
      Stepped(q, out, hold, 0, q', out, hold, 0, input, next, u, o);
      return;
    }
    if copy > |input| - next { copy := |input| - next; }
    if copy > put.Length - pos { copy := put.Length - pos; }
    if copy == 0 {
      stop := true;
      return;
    }
    CopySome(input, next0, hold, put, pos0, copy, h, q, u, o);
    next, pos := next + copy, pos + copy;
    g', q' := g.(at := g.at.(length := g.at.length - copy)), q.(length := q.length - copy);
  }

  method CopySome(input: seq<nat>, next0: nat, ghost hold: nat, put: array<nat>, pos0: nat, copy: nat, ghost h: seq<nat>,
                  ghost q: Spot, ghost u: BitString, ghost o: Result)
    requires AreBytes(input) && q.Copying? && copy <= q.length && next0 + copy <= |input| && pos0 + copy <= put.Length
    requires Flowing(q, h + put[..pos0], hold, 0, input, next0, u, o)
    modifies put
    ensures put[..pos0] == old(put[..pos0]) && put[pos0..pos0 + copy] == input[next0..next0 + copy]
    ensures Flowing(q.(length := q.length - copy), h + put[..pos0 + copy], hold, 0, input, next0 + copy, u, o)
  {
    CopiedFlow(q, h + put[..pos0], input, next0, copy, hold, u, o);
    CopyIn(put, pos0, input, next0, copy);
    Appended(h, old(put[..pos0]), put[..pos0 + copy], input[next0..next0 + copy]);
    assert put[pos0..pos0 + copy] == input[next0..next0 + copy];
    assert put[..pos0 + copy][..pos0] == put[..pos0];
  }

  lemma {:induction false} Appended(h: seq<nat>, p0: seq<nat>, p: seq<nat>, b: seq<nat>)
    requires p == p0 + b
    ensures h + p == (h + p0) + b && p[..|p0|] == p0
  {
  }

  // ----- TABLE -----

  /** The three counts. */
  method TableCounts(hold0: nat, bits0: nat) returns (nlen: nat, ndist: nat, ncode: nat, hold: nat, bits: nat)
    requires hold0 < Pow2(bits0) && bits0 >= 14
    ensures hold < Pow2(bits) && bits == bits0 - 14
    ensures var s := Held(hold0, bits0);
            nlen == Val(s[..5]) + 257 && ndist == Val(s[5..10]) + 1 && ncode == Val(s[10..14]) + 4 && Held(hold, bits) == s[14..]
  {
    ghost var s := Held(hold0, bits0);
    nlen := Low(hold0, 5) + 257;
    hold, bits := DropBits(5, hold0, bits0);
    ndist := Low(hold, 5) + 1;
    hold, bits := DropBits(5, hold, bits);
    ncode := Low(hold, 4) + 4;
    hold, bits := DropBits(4, hold, bits);
    assert s[5..][..5] == s[5..10] && s[5..][5..] == s[10..] && s[10..][..4] == s[10..14] && s[10..][4..] == s[14..];
  }

  method TableState(g: Regs, input: seq<nat>, next0: nat, hold0: nat, bits0: nat, ghost lens: seq<nat>,
                    ghost q: Spot, ghost out: seq<nat>, ghost u: BitString, ghost o: Result)
    returns (stop: bool, g': Regs, next: nat, hold: nat, bits: nat, ghost q': Spot)
    requires AreBytes(input) && Whole(|u|) && |lens| == LENS_SIZE
    requires q.Table? && Shows(g, lens, q) && Flowing(q, out, hold0, bits0, input, next0, u, o)
    ensures next0 <= next && Flowing(q', out, hold, bits, input, next, u, o) && Shows(g', lens, q')
    ensures stop ==> Dry(q', hold, bits, input, next)
    ensures !stop ==> Left(bits, input, next) < Left(bits0, input, next0)
  {
    g', q' := g, q;
    var ok;
    ok, next, hold, bits := NeedBits(14, input, next0, hold0, bits0, u);
    SameLeft(hold, bits, hold0, bits0, input, next, next0, u);
    stop := !ok;
    if ok {
      ghost var hold1, bits1 := hold, bits;
      var nlen, ndist, ncode;
      nlen, ndist, ncode, hold, bits := TableCounts(hold, bits);
      q' := AfterTable(g.last, Held(hold1, bits1));
      if nlen > 286 || ndist > 30 {
        g' := g.(nlen := nlen, ndist := ndist, ncode := ncode, at := g.at.(mode := BAD));
      } else {
        g' := g.(nlen := nlen, ndist := ndist, ncode := ncode, have := 0, at := g.at.(mode := LENLENS));
      }
      assert Shows(g', lens, q');
      Stepped(q, out, hold1, bits1, q', out, hold, bits, input, next, u, o);
    }
  }
}
