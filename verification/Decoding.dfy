/**
 What the LEN to LIT states of inflate.c decode, as a function of the bits still to come
 and of the canonical codes: the reference for the resumable state machine and for its
 fast form.
 */
module Decoding {
  import opened Bits
  import opened Huffman
  import opened InflateTable

  // ----- looking a code up with few bits at hand -----

  function Lesser(a: nat, b: nat): nat { if a <= b then a else b }

  /** The bits at hand, with zeros above them, as the accumulator holds them. */
  function Pad(s: BitString): (p: BitString)
    ensures |p| == MAX_BITS
  {
    if |s| >= MAX_BITS then s[..MAX_BITS] else s + Zeros(MAX_BITS - |s|)
  }

  /** A set of lengths that inflate_table accepts. */
  ghost predicate Accepted(kind: Kind, lens: seq<nat>)
  {
    ValidLens(lens) && |lens| <= MaxSymbols(kind) && !Refused(kind, lens)
  }

  /** What the next bits say by the canonical code for the lengths, whatever table it is
      looked up in: the entry of the symbol whose codeword they begin with. */
  ghost function CanonCode(kind: Kind, lens: seq<nat>, s: BitString): (e: Code)
    ensures e.bits >= 1
  {
    if StartsCode(lens, Pad(s)) then
      var sym: nat :| Used(lens, sym) && Codeword(lens, sym) <= Pad(s);
      if sym < MaxSymbols(kind) then Entry(kind, sym, lens[sym]) else INVALID
    else INVALID
  }

  lemma {:induction false} SymbolCanon(kind: Kind, lens: seq<nat>, sym: nat, s: BitString)
    requires Accepted(kind, lens) && Used(lens, sym) && Codeword(lens, sym) <= Pad(s)
    ensures CanonCode(kind, lens, s) == Entry(kind, sym, lens[sym])
  {
    assert StartsCode(lens, Pad(s));
    var other: nat :| Used(lens, other) && Codeword(lens, other) <= Pad(s) && CanonCode(kind, lens, s) == Entry(kind, other, lens[other]);
    PrefixFree(lens, sym, other, Pad(s));
  }

  /** A string that begins with a codeword is read as that symbol. */
  lemma {:induction false} ReadSymbol(kind: Kind, lens: seq<nat>, sym: nat, s: BitString)
    requires Accepted(kind, lens) && Used(lens, sym) && Codeword(lens, sym) <= s
    ensures CanonCode(kind, lens, s) == Entry(kind, sym, lens[sym]) && 1 <= lens[sym] <= |s|
  {
    assert Codeword(lens, sym) <= Pad(s);
    SymbolCanon(kind, lens, sym, s);
  }

  // ----- the tables say the same -----

  function Peek(t: seq<Code>, root: nat, s: BitString): Code { Lookup(t, root, Pad(s)) }

  /** A table that inflate_table built for an accepted set of lengths. */
  ghost predicate GoodTable(t: seq<Code>, root: nat, kind: Kind, lens: seq<nat>)
  {
    1 <= root <= MAX_BITS && Accepted(kind, lens) && DecodesAll(t, root, kind, lens) && RejectsRest(t, root, lens)
  }

  lemma {:induction false} PeekIsCanon(t: seq<Code>, root: nat, kind: Kind, lens: seq<nat>, s: BitString)
    requires GoodTable(t, root, kind, lens)
    ensures Peek(t, root, s) == CanonCode(kind, lens, s) && Inside(t, root, Pad(s)) && 1 <= Peek(t, root, s).bits <= MAX_BITS
  {
    if StartsCode(lens, Pad(s)) {
      var sym: nat :| Used(lens, sym) && Codeword(lens, sym) <= Pad(s);
      assert Answers(t, root, kind, lens, sym);
      assert Found(t, root, Pad(s), Entry(kind, sym, lens[sym]));
      SymbolCanon(kind, lens, sym, s);
    } else {
      assert Found(t, root, Pad(s), INVALID);
    }
  }

  // ----- what is read from enough bits stays -----

  lemma {:induction false} ShortAgree(s: BitString, u: BitString, n: nat)
    requires n <= |s| && n <= MAX_BITS
    ensures Pad(s)[..n] == s[..n] == Pad(s + u)[..n]
  {
  }

  /** Accepted but incomplete codes have at most the code 0. */
  lemma {:induction false} IncompleteIsOneBit(kind: Kind, lens: seq<nat>, sym: nat)
    requires ValidLens(lens) && !Refused(kind, lens) && !Complete(lens) && Used(lens, sym)
    ensures Codeword(lens, sym) == [false]
  {
    var max := 1;
    assert OneBitAtMost(lens);
    CountPositive(lens, sym);
    forall l: nat | 1 < l <= MAX_BITS ensures Count(lens, l) == 0 {
      CountZero(lens, l);
    }
    assert Longest(lens, 1);
    RankBelowCount(lens, sym);
    var last := SymbolOfRank(lens, 1, Count(lens, 1) - 1);
    LoneCode(lens, last);
    SameRank(lens, sym, last, 1, 0);
  }

  lemma {:induction false} SymbolStable(kind: Kind, lens: seq<nat>, sym: nat, s: BitString, u: BitString)
    requires Accepted(kind, lens) && Used(lens, sym) && Codeword(lens, sym) <= Pad(s)
    requires lens[sym] <= |s|
    ensures CanonCode(kind, lens, s + u) == Entry(kind, sym, lens[sym])
  {
    ShortAgree(s, u, lens[sym]);
    assert Codeword(lens, sym) == Pad(s)[..lens[sym]];
    SymbolCanon(kind, lens, sym, s + u);
  }

  /** What is read from enough bits does not depend on what follows them. */
  lemma {:induction false} CanonStable(kind: Kind, lens: seq<nat>, s: BitString, u: BitString)
    requires Accepted(kind, lens) && CanonCode(kind, lens, s).bits <= |s|
    ensures CanonCode(kind, lens, s + u) == CanonCode(kind, lens, s)
  {
    if StartsCode(lens, Pad(s)) {
      var sym: nat :| Used(lens, sym) && Codeword(lens, sym) <= Pad(s);
      SymbolCanon(kind, lens, sym, s);
      SymbolStable(kind, lens, sym, s, u);
    } else {
      SameFirstBit(s, u);
      RejectStable(kind, lens, Pad(s), Pad(s + u));
    }
  }

  /** Whether a string is rejected depends on its first bit only. */
  lemma {:induction false} RejectStable(kind: Kind, lens: seq<nat>, p: BitString, q: BitString)
    requires ValidLens(lens) && !Refused(kind, lens) && |p| == |q| == MAX_BITS && p[0] == q[0] && !StartsCode(lens, p)
    ensures !StartsCode(lens, q)
  {
    if StartsCode(lens, q) {
      var sym: nat :| Used(lens, sym) && Codeword(lens, sym) <= q;
      if Complete(lens) {
        var other := CompleteCovers(lens, p);
      } else {
        IncompleteIsOneBit(kind, lens, sym);
      }
    }
  }

  lemma {:induction false} SameFirstBit(s: BitString, u: BitString)
    requires |s| >= 1
    ensures Pad(s + u)[0] == Pad(s)[0]
  {
    ShortAgree(s, u, 1);
    assert Pad(s + u)[..1][0] == Pad(s)[..1][0];
  }

  /** A code that lies within the first bits is read from them. */
  lemma {:induction false} CanonBack(kind: Kind, lens: seq<nat>, s: BitString, u: BitString)
    requires Accepted(kind, lens) && CanonCode(kind, lens, s + u).bits <= |s|
    ensures CanonCode(kind, lens, s) == CanonCode(kind, lens, s + u)
  {
    if StartsCode(lens, Pad(s + u)) {
      var sym: nat :| Used(lens, sym) && Codeword(lens, sym) <= Pad(s + u);
      SymbolCanon(kind, lens, sym, s + u);
      ShortAgree(s, u, lens[sym]);
      assert Codeword(lens, sym) == Pad(s + u)[..lens[sym]];
      SymbolCanon(kind, lens, sym, s);
    } else {
      SameFirstBit(s, u);
      RejectStable(kind, lens, Pad(s + u), Pad(s));
    }
  }

  // ----- the states of a block -----

  /** The two decoding tables and their root index widths. */
  datatype Tables = Tables(lens: seq<Code>, lenBits: nat, dists: seq<Code>, distBits: nat)

  /** What the two codes of a block say about any bits. */
  datatype Reader = Reader(len: BitString -> Code, dist: BitString -> Code)

  /** The canonical codes for the lengths (section 3.2.2 of RFC 1951). */
  ghost function Canonical(llens: seq<nat>, dlens: seq<nat>): Reader
  {
    Reader(s => CanonCode(LENS, llens, s), s => CanonCode(DISTS, dlens, s))
  }

  /** The states of inflate for a raw stream.  TYPE and TYPEDO are one here, as are COPY_ and
      COPY, LEN_ and LEN, and CHECK and DONE. */
  datatype Mode = TYPE | STORED | COPY | TABLE | LENLENS | CODELENS | LEN | LENEXT | DIST | DISTEXT | MATCH | LIT | DONE | BAD

  /** The states from LEN to LIT. */
  predicate InBlock(m: Mode) { m.LEN? || m.LENEXT? || m.DIST? || m.DISTEXT? || m.MATCH? || m.LIT? }

  /** Where decoding stands between two steps. */
  datatype Point = Point(mode: Mode, length: nat, offset: nat, extra: nat)

  /** All output so far, where decoding stands, and the bits not used. */
  datatype Outcome = Outcome(out: seq<nat>, at: Point, rest: BitString)

  ghost predicate GoodTables(tabs: Tables, llens: seq<nat>, dlens: seq<nat>)
  {
    GoodTable(tabs.lens, tabs.lenBits, LENS, llens) && GoodTable(tabs.dists, tabs.distBits, DISTS, dlens)
  }

  predicate HasBit(op: nat, b: nat) requires b > 0 { (op / b) % 2 == 1 }

  /** Nothing more can be done with these bits. */
  predicate Stuck(r: Reader, p: Point, s: BitString)
  {
    match p.mode
    case LEN => var e := r.len(s); e.bits == 0 || e.bits > |s|
    case LENEXT => p.extra > |s|
    case DIST => var e := r.dist(s); e.bits == 0 || e.bits > |s|
    case DISTEXT => p.extra > |s|
    case MATCH => false
    case LIT => false
    case _ => true
  }

  /** What a length code leads to. */
  function AfterLen(p: Point, e: Code): Point
  {
    if e.op == 0 then p.(mode := LIT, length := e.val)
    else if HasBit(e.op, 32) then p.(mode := TYPE, length := e.val)
    else if HasBit(e.op, 64) then p.(mode := BAD, length := e.val)
    else p.(mode := LENEXT, length := e.val, extra := e.op % 16)
  }

  function AfterDist(p: Point, e: Code): Point
  {
    if HasBit(e.op, 64) then p.(mode := BAD)
    else p.(mode := DISTEXT, offset := e.val, extra := e.op % 16)
  }

  /** One byte of a match, or the end of it. */
  function CopyOne(p: Point, out: seq<nat>): (r: (Point, seq<nat>))
  {
    if p.length == 0 then (p.(mode := LEN), out)
    else if p.offset == 0 || p.offset > |out| then (p.(mode := BAD), out)
    else (p.(length := p.length - 1, mode := if p.length == 1 then LEN else MATCH), out + [out[|out| - p.offset]])
  }

  function Step(r: Reader, p: Point, out: seq<nat>, s: BitString): Outcome
    requires !Stuck(r, p, s)
  {
    match p.mode
    case LEN => var e := r.len(s); Outcome(out, AfterLen(p, e), s[e.bits..])
    case LENEXT => Outcome(out, p.(mode := DIST, length := p.length + Val(s[..p.extra])), s[p.extra..])
    case DIST => var e := r.dist(s); Outcome(out, AfterDist(p, e), s[e.bits..])
    case DISTEXT => Outcome(out, p.(mode := MATCH, offset := p.offset + Val(s[..p.extra])), s[p.extra..])
    case MATCH => var c := CopyOne(p, out); Outcome(c.1, c.0, s)
    case LIT => Outcome(out + [p.length], p.(mode := LEN), s)
  }

  function Height(m: Mode): nat
  {
    match m case LENEXT => 5 case DIST => 4 case DISTEXT => 3 case MATCH => 2 case LIT => 1 case _ => 0
  }

  /** Decode as far as the bits go. */
  function Run(r: Reader, p: Point, out: seq<nat>, s: BitString): Outcome
    decreases |s|, Height(p.mode), p.length
  {
    if Stuck(r, p, s) then Outcome(out, p, s)
    else
      var o := Step(r, p, out, s);
      Run(r, o.at, o.out, o.rest)
  }

  /** What is read from enough bits stays when more follow. */
  ghost predicate SteadyAt(look: BitString -> Code, s: BitString, u: BitString)
  {
    1 <= look(s).bits <= MAX_BITS && (look(s).bits <= |s| || look(s + u).bits <= |s| ==> look(s + u) == look(s))
  }

  ghost predicate Steady(r: Reader)
  {
    && (forall s: BitString, u: BitString :: SteadyAt(r.len, s, u))
    && (forall s: BitString, u: BitString :: SteadyAt(r.dist, s, u))
  }

  lemma {:induction false} CanonSteady(kind: Kind, lens: seq<nat>, look: BitString -> Code)
    requires Accepted(kind, lens) && forall s :: look(s) == CanonCode(kind, lens, s)
    ensures forall s: BitString, u: BitString :: SteadyAt(look, s, u)
  {
    forall s: BitString, u: BitString ensures SteadyAt(look, s, u) {
      assert look(s) == CanonCode(kind, lens, s) && look(s + u) == CanonCode(kind, lens, s + u);
      CanonBits(kind, lens, s);
      if look(s).bits <= |s| {
        CanonStable(kind, lens, s, u);
      } else if look(s + u).bits <= |s| {
        CanonBack(kind, lens, s, u);
      }
    }
  }

  lemma {:induction false} CanonBits(kind: Kind, lens: seq<nat>, s: BitString)
    requires Accepted(kind, lens)
    ensures 1 <= CanonCode(kind, lens, s).bits <= MAX_BITS
  {
    if StartsCode(lens, Pad(s)) {
      var sym: nat :| Used(lens, sym) && Codeword(lens, sym) <= Pad(s);
      SymbolCanon(kind, lens, sym, s);
    }
  }

  lemma {:induction false} CanonicalSteady(llens: seq<nat>, dlens: seq<nat>)
    requires Accepted(LENS, llens) && Accepted(DISTS, dlens)
    ensures Steady(Canonical(llens, dlens))
  {
    var r := Canonical(llens, dlens);
    CanonSteady(LENS, llens, r.len);
    CanonSteady(DISTS, dlens, r.dist);
  }

  /** More bits after enough bits change nothing but what is left over. */
  lemma {:induction false} StepStable(r: Reader, p: Point, out: seq<nat>, s: BitString, u: BitString)
    requires Steady(r) && !Stuck(r, p, s)
    ensures !Stuck(r, p, s + u)
    ensures var o := Step(r, p, out, s); Step(r, p, out, s + u) == o.(rest := o.rest + u)
  {
    match p.mode
    case LEN =>
      assert SteadyAt(r.len, s, u);
    case DIST =>
      assert SteadyAt(r.dist, s, u);
    case LENEXT =>
      assert (s + u)[..p.extra] == s[..p.extra];
    case DISTEXT =>
      assert (s + u)[..p.extra] == s[..p.extra];
    case _ =>
  }

  /** A step taken on the bits at hand is a step of the whole run. */
  lemma {:induction false} RunStep(r: Reader, p: Point, out: seq<nat>, s: BitString, u: BitString)
    requires Steady(r) && !Stuck(r, p, s)
    ensures var o := Step(r, p, out, s); Run(r, p, out, s + u) == Run(r, o.at, o.out, o.rest + u)
  {
    StepStable(r, p, out, s, u);
  }

  /** Output only grows. */
  lemma {:induction false} RunGrows(r: Reader, p: Point, out: seq<nat>, s: BitString)
    ensures out <= Run(r, p, out, s).out
    decreases |s|, Height(p.mode), p.length
  {
    if !Stuck(r, p, s) {
      var o := Step(r, p, out, s);
      assert out <= o.out;
      RunGrows(r, o.at, o.out, o.rest);
    }
  }

  /** Running on fewer bits stops on the way of the longer run. */
  lemma {:induction false} RunPrefix(r: Reader, p: Point, out: seq<nat>, s: BitString, u: BitString)
    requires Steady(r)
    ensures var o := Run(r, p, out, s); Run(r, p, out, s + u) == Run(r, o.at, o.out, o.rest + u)
    decreases |s|, Height(p.mode), p.length
  {
    if !Stuck(r, p, s) {
      RunStep(r, p, out, s, u);
      var o := Step(r, p, out, s);
      RunPrefix(r, o.at, o.out, o.rest, u);
    }
  }

  // ----- what codes can say -----

  const WSIZE := 32768

  /** A state of a block or its end, with lengths and distances the codes can say. */
  ghost predicate PointOk(p: Point)
  {
    match p.mode
    case LIT => p.length < 256
    case LENEXT => 3 <= p.length && p.extra <= 5 && p.length + Pow2(p.extra) <= 259
    case DIST => 3 <= p.length <= 258
    case DISTEXT => 3 <= p.length <= 258 && 1 <= p.offset && p.extra <= 13 && p.offset + Pow2(p.extra) <= WSIZE + 1
    case MATCH => 1 <= p.length <= 258 && 1 <= p.offset <= WSIZE
    case _ => p.mode == LEN || p.mode == TYPE || p.mode == BAD
  }

  ghost predicate LenSays(e: Code)
  {
    && (e.op == 0 || e.op >= 16)
    && (HasBit(e.op, 16) <==> e.op != 0 && !HasBit(e.op, 32) && !HasBit(e.op, 64))
    && (e.op == 0 ==> e.val < 256)
    && (e.op != 0 && !HasBit(e.op, 32) && !HasBit(e.op, 64) ==> 3 <= e.val && e.op % 16 <= 5 && e.val + Pow2(e.op % 16) <= 259)
  }

  ghost predicate DistSays(e: Code)
  {
    && e.op >= 16 && (HasBit(e.op, 16) <==> !HasBit(e.op, 64))
    && (!HasBit(e.op, 64) ==> 1 <= e.val && e.op % 16 <= 13 && e.val + Pow2(e.op % 16) <= WSIZE + 1)
  }

  ghost predicate Bounded(r: Reader)
  {
    (forall s: BitString :: LenSays(r.len(s))) && (forall s: BitString :: DistSays(r.dist(s)))
  }

  lemma {:induction false} StepOk(r: Reader, p: Point, out: seq<nat>, s: BitString)
    requires Bounded(r) && PointOk(p) && !Stuck(r, p, s) && (p.mode == MATCH ==> p.length >= 1)
    ensures PointOk(Step(r, p, out, s).at)
  {
    match p.mode
    case LEN => assert LenSays(r.len(s));
    case DIST => assert DistSays(r.dist(s));
    case LENEXT => ValBound(s[..p.extra]);
    case DISTEXT => ValBound(s[..p.extra]);
    case _ =>
  }

  lemma {:induction false} ShortLenOk(sym: nat, bits: nat)
    requires sym < 273
    ensures LenSays(Entry(LENS, sym, bits))
  {
    PowersTo13();
  }

  lemma {:induction false} LongLenOk(sym: nat, bits: nat)
    requires 273 <= sym < 288
    ensures LenSays(Entry(LENS, sym, bits))
  {
    PowersTo13();
  }

  lemma {:induction false} ShortDistOk(sym: nat, bits: nat)
    requires sym < 16
    ensures DistSays(Entry(DISTS, sym, bits))
  {
    PowersTo13();
  }

  lemma {:induction false} LongDistOk(sym: nat, bits: nat)
    requires 16 <= sym < 32
    ensures DistSays(Entry(DISTS, sym, bits))
  {
    PowersTo13();
  }

  lemma {:induction false} CanonLenOk(lens: seq<nat>, s: BitString)
    requires Accepted(LENS, lens)
    ensures LenSays(CanonCode(LENS, lens, s))
  {
    if StartsCode(lens, Pad(s)) {
      var sym: nat :| Used(lens, sym) && Codeword(lens, sym) <= Pad(s);
      SymbolCanon(LENS, lens, sym, s);
      if sym < 273 { ShortLenOk(sym, lens[sym]); } else { LongLenOk(sym, lens[sym]); }
    }
  }

  lemma {:induction false} CanonDistOk(lens: seq<nat>, s: BitString)
    requires Accepted(DISTS, lens)
    ensures DistSays(CanonCode(DISTS, lens, s))
  {
    if StartsCode(lens, Pad(s)) {
      var sym: nat :| Used(lens, sym) && Codeword(lens, sym) <= Pad(s);
      SymbolCanon(DISTS, lens, sym, s);
      if sym < 16 { ShortDistOk(sym, lens[sym]); } else { LongDistOk(sym, lens[sym]); }
    }
  }

  lemma {:induction false} CanonicalBounded(llens: seq<nat>, dlens: seq<nat>)
    requires Accepted(LENS, llens) && Accepted(DISTS, dlens)
    ensures Bounded(Canonical(llens, dlens))
  {
    var r := Canonical(llens, dlens);
    forall s: BitString ensures LenSays(r.len(s)) {
      CanonLenOk(llens, s);
    }
    forall s: BitString ensures DistSays(r.dist(s)) {
      CanonDistOk(dlens, s);
    }
  }
}
