/**
 What `compress_block` sends for any buffered literals and matches, inflate's states read
 back as the same bytes.
 */
module BlockRoundTrip {
  import opened Bits
  import opened Huffman
  import opened InflateTable
  import opened Decoding
  import opened InflateCopy
  import opened SymbolTables
  import opened CompressBlock

  /** What the symbols stand for, after `out`. */
  ghost function Expand(out: seq<nat>, syms: seq<Sym>): seq<nat>
    requires InReach(|out|, syms)
    decreases |syms|
  {
    if syms == [] then out
    else Expand(Grown(out, syms[0]), syms[1..])
  }

  ghost function Grown(out: seq<nat>, s: Sym): (r: seq<nat>)
    requires s.dist <= |out|
    ensures |r| == |out| + SymLen(s)
  {
    if s.dist == 0 then out + [s.lc] else Extend(out, s.dist, s.lc + 3)
  }

  function SymLen(s: Sym): nat { if s.dist == 0 then 1 else s.lc + 3 }

  /** No match reaches back before the start of the n bytes and what has been added since. */
  ghost predicate InReach(n: nat, syms: seq<Sym>)
    decreases |syms|
  {
    syms != [] ==> syms[0].dist <= n && InReach(n + SymLen(syms[0]), syms[1..])
  }

  // ----- reading a code -----

  /** Anything that starts with the symbol's code reads as the symbol. */
  ghost predicate Says(look: BitString -> Code, lens: seq<nat>, sym: nat, e: Code, rest: BitString)
  {
    Used(lens, sym) && e.bits == lens[sym] && look(Codeword(lens, sym) + rest) == e
  }

  ghost predicate AlwaysSays(look: BitString -> Code, lens: seq<nat>, sym: nat, e: Code)
  {
    forall rest: BitString :: Says(look, lens, sym, e, rest)
  }

  lemma {:induction false} CanonSaysAt(kind: Kind, lens: seq<nat>, look: BitString -> Code, sym: nat, rest: BitString)
    requires Accepted(kind, lens) && Used(lens, sym) && forall s :: look(s) == CanonCode(kind, lens, s)
    ensures Says(look, lens, sym, Entry(kind, sym, lens[sym]), rest)
  {
    ReadSymbol(kind, lens, sym, Codeword(lens, sym) + rest);
  }

  lemma {:induction false} StepLen(r: Reader, p: Point, out: seq<nat>, llens: seq<nat>, sym: nat, e: Code, rest: BitString)
    requires Says(r.len, llens, sym, e, rest) && p.mode == LEN
    ensures Run(r, p, out, Codeword(llens, sym) + rest) == Run(r, AfterLen(p, e), out, rest)
  {
    var s := Codeword(llens, sym) + rest;
    assert s[llens[sym]..] == rest;
  }

  lemma {:induction false} StepDist(r: Reader, p: Point, out: seq<nat>, dlens: seq<nat>, sym: nat, e: Code, rest: BitString)
    requires Says(r.dist, dlens, sym, e, rest) && p.mode == DIST
    ensures Run(r, p, out, Codeword(dlens, sym) + rest) == Run(r, AfterDist(p, e), out, rest)
  {
    var s := Codeword(dlens, sym) + rest;
    assert s[dlens[sym]..] == rest;
  }

  /** The extra bits of a code, or none. */
  ghost function ExtraBits(value: nat, x: nat): BitString { if x == 0 then [] else LowBits(value, x) }

  lemma {:induction false} ExtraValue(value: nat, x: nat, rest: BitString)
    requires (x == 0 ==> value == 0) && (x != 0 ==> value < Pow2(x))
    ensures |ExtraBits(value, x)| == x
    ensures Val((ExtraBits(value, x) + rest)[..x]) == value && (ExtraBits(value, x) + rest)[x..] == rest
  {
    var s := ExtraBits(value, x) + rest;
    assert s[..x] == ExtraBits(value, x);
    if x != 0 {
      ValLowBits(value, x);
    }
  }

  lemma {:induction false} StepLenExt(r: Reader, p: Point, out: seq<nat>, value: nat, rest: BitString)
    requires p.mode == LENEXT && (p.extra == 0 ==> value == 0) && (p.extra != 0 ==> value < Pow2(p.extra))
    ensures Run(r, p, out, ExtraBits(value, p.extra) + rest) == Run(r, p.(mode := DIST, length := p.length + value), out, rest)
  {
    ExtraValue(value, p.extra, rest);
  }

  lemma {:induction false} StepDistExt(r: Reader, p: Point, out: seq<nat>, value: nat, rest: BitString)
    requires p.mode == DISTEXT && (p.extra == 0 ==> value == 0) && (p.extra != 0 ==> value < Pow2(p.extra))
    ensures Run(r, p, out, ExtraBits(value, p.extra) + rest) == Run(r, p.(mode := MATCH, offset := p.offset + value), out, rest)
  {
    ExtraValue(value, p.extra, rest);
  }

  // ----- a literal -----

  lemma {:induction false} RunLiteral(r: Reader, p: Point, out: seq<nat>, llens: seq<nat>, lc: nat, e: Code, rest: BitString) returns (p': Point)
    requires e.op == 0 && e.val == lc && Says(r.len, llens, lc, e, rest) && p.mode == LEN
    ensures p'.mode == LEN && Run(r, p, out, Codeword(llens, lc) + rest) == Run(r, p', out + [lc], rest)
  {
    StepLen(r, p, out, llens, lc, e, rest);
    var q := AfterLen(p, e);
    assert q == p.(mode := LIT, length := lc);
    p' := q.(mode := LEN);
  }

  lemma {:induction false} RunEnd(r: Reader, p: Point, out: seq<nat>, llens: seq<nat>, e: Code, rest: BitString)
    requires e.op == 96 && Says(r.len, llens, END_BLOCK, e, rest) && p.mode == LEN
    ensures var o := Run(r, p, out, Codeword(llens, END_BLOCK) + rest); o.out == out && o.at.mode == TYPE && o.rest == rest
  {
    StepLen(r, p, out, llens, END_BLOCK, e, rest);
    assert AfterLen(p, e).mode == TYPE;
  }

  // ----- a match -----

  lemma {:induction false} LengthAfter(p: Point, e: Code, x: nat)
    requires e.op == 16 + x && x <= 5
    ensures AfterLen(p, e) == p.(mode := LENEXT, length := e.val, extra := x)
  {
  }

  lemma {:induction false} DistAfter(p: Point, e: Code, x: nat)
    requires e.op == 16 + x && x <= 13
    ensures AfterDist(p, e) == p.(mode := DISTEXT, offset := e.val, extra := x)
  {
  }

  /** The value in the extra bits of a length or distance. */
  ghost function LengthValue(t: CodeTables, lc: nat): nat
    requires LengthReady(t, lc)
  {
    var c := t.lengthCode[lc];
    if t.extraL[c] == 0 then 0 else lc - t.baseLength[c]
  }

  ghost function DistValue(t: CodeTables, d: nat): nat
    requires DistReady(t, d)
  {
    var c := DCode(t.distCode, d);
    if t.extraD[c] == 0 then 0 else d - t.baseDist[c]
  }

  /** The decoder's entry for a length gives it back. */
  ghost predicate LengthEntryOk(t: CodeTables, lc: nat, e: Code)
    requires LengthReady(t, lc)
  {
    e.op == 16 + t.extraL[t.lengthCode[lc]] && e.val + LengthValue(t, lc) == lc + 3
  }

  ghost predicate DistEntryOk(t: CodeTables, d: nat, e: Code)
    requires DistReady(t, d)
  {
    e.op == 16 + t.extraD[DCode(t.distCode, d)] && e.val + DistValue(t, d) == d + 1
  }

  lemma {:induction false} LengthEntryIs(t: CodeTables, lc: nat, bits: nat)
    requires LengthTables(t) && DistTables(t) && LengthReady(t, lc)
    ensures LengthEntryOk(t, lc, Entry(LENS, 257 + t.lengthCode[lc], bits))
  {
    LengthDecodes(t, lc);
  }

  lemma {:induction false} DistEntryIs(t: CodeTables, d: nat, bits: nat)
    requires LengthTables(t) && DistTables(t) && DistReady(t, d)
    ensures DistEntryOk(t, d, Entry(DISTS, DCode(t.distCode, d), bits))
  {
    DistDecodes(t, d);
  }

  /** The length part: base and extra bits give the length. */
  lemma {:induction false} RunLength(r: Reader, p: Point, out: seq<nat>, t: CodeTables, llens: seq<nat>, lc: nat, e: Code, rest: BitString)
    requires HasLength(t, llens, lc) && p.mode == LEN && LengthEntryOk(t, lc, e)
    requires AlwaysSays(r.len, llens, 257 + t.lengthCode[lc], e)
    ensures Run(r, p, out, LengthBits(t, llens, lc) + rest) ==
            Run(r, p.(mode := DIST, length := lc + 3, extra := t.extraL[t.lengthCode[lc]]), out, rest)
  {
    var c := 257 + t.lengthCode[lc];
    var x, value := t.extraL[t.lengthCode[lc]], LengthValue(t, lc);
    assert Says(r.len, llens, c, e, ExtraBits(value, x) + rest);
    LengthStage(r, p, out, llens, c, x, value, e, rest);
  }

  lemma {:induction false} LengthStage(r: Reader, p: Point, out: seq<nat>, llens: seq<nat>, c: nat, x: nat, value: nat, e: Code, rest: BitString)
    requires x <= 5 && (x == 0 ==> value == 0) && (x != 0 ==> value < Pow2(x)) && p.mode == LEN
    requires Says(r.len, llens, c, e, ExtraBits(value, x) + rest) && e.op == 16 + x
    ensures Run(r, p, out, CodeAndExtra(llens, c, x, value) + rest) ==
            Run(r, p.(mode := DIST, length := e.val + value, extra := x), out, rest)
  {
    LenCode(r, p, out, llens, c, x, value, e, rest);
    var q := p.(mode := LENEXT, length := e.val, extra := x);
    StepLenExt(r, q, out, value, rest);
    assert q.(mode := DIST, length := q.length + value) == p.(mode := DIST, length := e.val + value, extra := x);
  }

  lemma {:induction false} LenCode(r: Reader, p: Point, out: seq<nat>, llens: seq<nat>, c: nat, x: nat, value: nat, e: Code, rest: BitString)
    requires x <= 5 && p.mode == LEN && Says(r.len, llens, c, e, ExtraBits(value, x) + rest) && e.op == 16 + x
    ensures Run(r, p, out, CodeAndExtra(llens, c, x, value) + rest) ==
            Run(r, p.(mode := LENEXT, length := e.val, extra := x), out, ExtraBits(value, x) + rest)
  {
    Assoc(Codeword(llens, c), ExtraBits(value, x), rest);
    StepLen(r, p, out, llens, c, e, ExtraBits(value, x) + rest);
    LengthAfter(p, e, x);
  }

  lemma {:induction false} RunDist(r: Reader, p: Point, out: seq<nat>, t: CodeTables, dlens: seq<nat>, d: nat, e: Code, rest: BitString)
    requires HasDist(t, dlens, d) && p.mode == DIST && DistEntryOk(t, d, e)
    requires AlwaysSays(r.dist, dlens, DCode(t.distCode, d), e)
    ensures Run(r, p, out, DistBits(t, dlens, d) + rest) ==
            Run(r, p.(mode := MATCH, offset := d + 1, extra := t.extraD[DCode(t.distCode, d)]), out, rest)
  {
    var c := DCode(t.distCode, d);
    var x, value := t.extraD[c], DistValue(t, d);
    assert Says(r.dist, dlens, c, e, ExtraBits(value, x) + rest);
    DistStage(r, p, out, dlens, c, x, value, e, rest);
  }

  lemma {:induction false} DistStage(r: Reader, p: Point, out: seq<nat>, dlens: seq<nat>, c: nat, x: nat, value: nat, e: Code, rest: BitString)
    requires x <= 13 && (x == 0 ==> value == 0) && (x != 0 ==> value < Pow2(x)) && p.mode == DIST
    requires Says(r.dist, dlens, c, e, ExtraBits(value, x) + rest) && e.op == 16 + x
    ensures Run(r, p, out, CodeAndExtra(dlens, c, x, value) + rest) ==
            Run(r, p.(mode := MATCH, offset := e.val + value, extra := x), out, rest)
  {
    DistCode(r, p, out, dlens, c, x, value, e, rest);
    var q := p.(mode := DISTEXT, offset := e.val, extra := x);
    StepDistExt(r, q, out, value, rest);
    assert q.(mode := MATCH, offset := q.offset + value) == p.(mode := MATCH, offset := e.val + value, extra := x);
  }

  lemma {:induction false} DistCode(r: Reader, p: Point, out: seq<nat>, dlens: seq<nat>, c: nat, x: nat, value: nat, e: Code, rest: BitString)
    requires x <= 13 && p.mode == DIST && Says(r.dist, dlens, c, e, ExtraBits(value, x) + rest) && e.op == 16 + x
    ensures Run(r, p, out, CodeAndExtra(dlens, c, x, value) + rest) ==
            Run(r, p.(mode := DISTEXT, offset := e.val, extra := x), out, ExtraBits(value, x) + rest)
  {
    Assoc(Codeword(dlens, c), ExtraBits(value, x), rest);
    StepDist(r, p, out, dlens, c, e, ExtraBits(value, x) + rest);
    DistAfter(p, e, x);
  }

  // ----- whole blocks -----

  /** Where decoding stands after the length of a match, and after its distance. */
  ghost function AfterLength(t: CodeTables, p: Point, lc: nat): Point
    requires LengthReady(t, lc)
  {
    p.(mode := DIST, length := lc + 3, extra := t.extraL[t.lengthCode[lc]])
  }

  ghost function AfterDistance(t: CodeTables, p: Point, d: nat): Point
    requires DistReady(t, d)
  {
    p.(mode := MATCH, offset := d + 1, extra := t.extraD[DCode(t.distCode, d)])
  }

  ghost predicate LengthRunsAt(r: Reader, t: CodeTables, llens: seq<nat>, lc: nat, p: Point, out: seq<nat>, rest: BitString)
    requires HasLength(t, llens, lc)
  {
    Run(r, p, out, LengthBits(t, llens, lc) + rest) == Run(r, AfterLength(t, p, lc), out, rest)
  }

  ghost predicate DistRunsAt(r: Reader, t: CodeTables, dlens: seq<nat>, d: nat, p: Point, out: seq<nat>, rest: BitString)
    requires HasDist(t, dlens, d)
  {
    Run(r, p, out, DistBits(t, dlens, d) + rest) == Run(r, AfterDistance(t, p, d), out, rest)
  }

  ghost predicate LengthKnown(r: Reader, t: CodeTables, llens: seq<nat>, lc: nat)
    requires HasLength(t, llens, lc)
  {
    forall p: Point, out: seq<nat>, rest: BitString :: p.mode == LEN ==> LengthRunsAt(r, t, llens, lc, p, out, rest)
  }

  ghost predicate DistKnown(r: Reader, t: CodeTables, dlens: seq<nat>, d: nat)
    requires HasDist(t, dlens, d)
  {
    forall p: Point, out: seq<nat>, rest: BitString :: p.mode == DIST ==> DistRunsAt(r, t, dlens, d, p, out, rest)
  }

  /** The reader reads the symbol wherever it stands. */
  ghost predicate Knows(r: Reader, t: CodeTables, llens: seq<nat>, dlens: seq<nat>, s: Sym)
  {
    && HasCodes(t, llens, dlens, s)
    && if s.dist == 0 then AlwaysSays(r.len, llens, s.lc, Code(0, llens[s.lc], s.lc))
       else LengthKnown(r, t, llens, s.lc) && DistKnown(r, t, dlens, s.dist - 1)
  }

  lemma {:induction false} RunMatch(r: Reader, p: Point, out: seq<nat>, t: CodeTables, llens: seq<nat>, dlens: seq<nat>, s: Sym, rest: BitString)
    returns (p': Point)
    requires Knows(r, t, llens, dlens, s) && p.mode == LEN && 1 <= s.dist <= |out|
    ensures p'.mode == LEN && Run(r, p, out, SymBits(t, llens, dlens, s) + rest) == Run(r, p', Grown(out, s), rest)
  {
    var d := s.dist - 1;
    var lb, db := LengthBits(t, llens, s.lc), DistBits(t, dlens, d);
    Assoc(lb, db, rest);
    assert LengthRunsAt(r, t, llens, s.lc, p, out, db + rest);
    var q := AfterLength(t, p, s.lc);
    assert DistRunsAt(r, t, dlens, d, q, out, rest);
    var m := AfterDistance(t, q, d);
    RunCopies(r, m, out, rest, s.lc + 3);
    p' := m.(length := 0, mode := LEN);
  }

  lemma {:induction false} RunSym(r: Reader, p: Point, out: seq<nat>, t: CodeTables, llens: seq<nat>, dlens: seq<nat>, s: Sym, rest: BitString)
    returns (p': Point)
    requires Knows(r, t, llens, dlens, s) && p.mode == LEN && s.dist <= |out|
    ensures p'.mode == LEN && Run(r, p, out, SymBits(t, llens, dlens, s) + rest) == Run(r, p', Grown(out, s), rest)
  {
    if s.dist == 0 {
      var e := Code(0, llens[s.lc], s.lc);
      assert Says(r.len, llens, s.lc, e, rest);
      p' := RunLiteral(r, p, out, llens, s.lc, e, rest);
    } else {
      p' := RunMatch(r, p, out, t, llens, dlens, s, rest);
    }
  }

  ghost predicate AllKnown(r: Reader, t: CodeTables, llens: seq<nat>, dlens: seq<nat>, syms: seq<Sym>)
  {
    forall i :: 0 <= i < |syms| ==> Knows(r, t, llens, dlens, syms[i])
  }

  /** Every code the block needs is known to the reader. */
  ghost predicate Readable(r: Reader, t: CodeTables, llens: seq<nat>, dlens: seq<nat>, syms: seq<Sym>)
  {
    var syms' := AllHaveCodes(t, llens, dlens, syms) && AllKnown(r, t, llens, dlens, syms);
    var end := Used(llens, END_BLOCK) && AlwaysSays(r.len, llens, END_BLOCK, Code(96, llens[END_BLOCK], 0));
    syms' && end
  }

  /** The bits of a block's symbols and its end, and what follows. */
  ghost function BlockBits(t: CodeTables, llens: seq<nat>, dlens: seq<nat>, syms: seq<Sym>, rest: BitString): BitString
    requires AllHaveCodes(t, llens, dlens, syms) && END_BLOCK < |llens|
  {
    AllBits(t, llens, dlens, syms) + (Codeword(llens, END_BLOCK) + rest)
  }

  /** The reader knows all codes, and no match reaches too far back. */
  ghost predicate Ready(r: Reader, n: nat, t: CodeTables, llens: seq<nat>, dlens: seq<nat>, syms: seq<Sym>)
  {
    var known := Readable(r, t, llens, dlens, syms);
    var near := InReach(n, syms);
    known && near
  }

  /** The block is read up to its end, and what follows is left. */
  ghost predicate EndsWith(o: Outcome, out: seq<nat>, rest: BitString)
  {
    var stopped := o.out == out && o.at.mode == TYPE;
    stopped && o.rest == rest
  }

  lemma {:induction false} FirstBits(t: CodeTables, llens: seq<nat>, dlens: seq<nat>, syms: seq<Sym>, rest: BitString)
    requires syms != [] && AllHaveCodes(t, llens, dlens, syms) && END_BLOCK < |llens|
    ensures BlockBits(t, llens, dlens, syms, rest) == SymBits(t, llens, dlens, syms[0]) + BlockBits(t, llens, dlens, syms[1..], rest)
  {
    Assoc(SymBits(t, llens, dlens, syms[0]), AllBits(t, llens, dlens, syms[1..]), Codeword(llens, END_BLOCK) + rest);
  }

  lemma {:induction false} FirstReady(r: Reader, n: nat, t: CodeTables, llens: seq<nat>, dlens: seq<nat>, syms: seq<Sym>)
    requires syms != [] && Ready(r, n, t, llens, dlens, syms)
    ensures syms[0].dist <= n && Knows(r, t, llens, dlens, syms[0]) && Ready(r, n + SymLen(syms[0]), t, llens, dlens, syms[1..])
  {
    LaterKnown(r, t, llens, dlens, syms);
  }

  lemma {:induction false} RunFirst(r: Reader, p: Point, out: seq<nat>, t: CodeTables, llens: seq<nat>, dlens: seq<nat>, syms: seq<Sym>, rest: BitString)
    returns (p': Point)
    requires p.mode == LEN && syms != [] && Ready(r, |out|, t, llens, dlens, syms)
    ensures p'.mode == LEN && syms[0].dist <= |out| && Readable(r, t, llens, dlens, syms[1..])
    ensures Run(r, p, out, BlockBits(t, llens, dlens, syms, rest)) == Run(r, p', Grown(out, syms[0]), BlockBits(t, llens, dlens, syms[1..], rest))
  {
    FirstReady(r, |out|, t, llens, dlens, syms);
    FirstBits(t, llens, dlens, syms, rest);
    p' := RunSym(r, p, out, t, llens, dlens, syms[0], BlockBits(t, llens, dlens, syms[1..], rest));
  }

  lemma {:induction false} ExpandFirst(out: seq<nat>, syms: seq<Sym>)
    requires syms != [] && InReach(|out|, syms)
    ensures syms[0].dist <= |out| && InReach(|Grown(out, syms[0])|, syms[1..])
    ensures Expand(out, syms) == Expand(Grown(out, syms[0]), syms[1..])
  {
  }

  lemma {:induction false} LaterKnown(r: Reader, t: CodeTables, llens: seq<nat>, dlens: seq<nat>, syms: seq<Sym>)
    requires syms != [] && Readable(r, t, llens, dlens, syms)
    ensures Readable(r, t, llens, dlens, syms[1..])
  {
    forall i | 0 <= i < |syms[1..]| ensures HasCodes(t, llens, dlens, syms[1..][i]) && Knows(r, t, llens, dlens, syms[1..][i]) {
      assert HasCodes(t, llens, dlens, syms[i + 1]) && Knows(r, t, llens, dlens, syms[i + 1]);
    }
  }

  /** All symbols and the end of the block. */
  lemma {:induction false} RunAll(r: Reader, p: Point, out: seq<nat>, t: CodeTables, llens: seq<nat>, dlens: seq<nat>, syms: seq<Sym>, rest: BitString)
    requires p.mode == LEN && Ready(r, |out|, t, llens, dlens, syms)
    ensures EndsWith(Run(r, p, out, BlockBits(t, llens, dlens, syms, rest)), Expand(out, syms), rest)
    decreases |syms|
  {
    if syms == [] {
      RunNone(r, p, out, t, llens, dlens, rest);
    } else {
      var p' := RunFirst(r, p, out, t, llens, dlens, syms, rest);
      ExpandFirst(out, syms);
      RunAll(r, p', Grown(out, syms[0]), t, llens, dlens, syms[1..], rest);
    }
  }

  lemma {:induction false} RunNone(r: Reader, p: Point, out: seq<nat>, t: CodeTables, llens: seq<nat>, dlens: seq<nat>, rest: BitString)
    requires p.mode == LEN && Ready(r, |out|, t, llens, dlens, [])
    ensures EndsWith(Run(r, p, out, BlockBits(t, llens, dlens, [], rest)), out, rest)
  {
    var tail := Codeword(llens, END_BLOCK) + rest;
    assert [] + tail == tail;
    var e := Code(96, llens[END_BLOCK], 0);
    assert Says(r.len, llens, END_BLOCK, e, rest);
    RunEnd(r, p, out, llens, e, rest);
  }

  lemma {:induction false} CanonLength(t: CodeTables, llens: seq<nat>, dlens: seq<nat>, lc: nat)
    requires Accepted(LENS, llens) && Accepted(DISTS, dlens) && LengthTables(t) && DistTables(t) && HasLength(t, llens, lc)
    ensures LengthKnown(Canonical(llens, dlens), t, llens, lc)
  {
    var r := Canonical(llens, dlens);
    var c := 257 + t.lengthCode[lc];
    CanonSays(LENS, llens, r.len, c);
    LengthEntryIs(t, lc, llens[c]);
    LengthAlways(r, t, llens, lc, Entry(LENS, c, llens[c]));
  }

  lemma {:induction false} LengthAlways(r: Reader, t: CodeTables, llens: seq<nat>, lc: nat, e: Code)
    requires HasLength(t, llens, lc) && LengthEntryOk(t, lc, e) && AlwaysSays(r.len, llens, 257 + t.lengthCode[lc], e)
    ensures LengthKnown(r, t, llens, lc)
  {
    forall p: Point, out: seq<nat>, rest: BitString | p.mode == LEN ensures LengthRunsAt(r, t, llens, lc, p, out, rest) {
      RunLength(r, p, out, t, llens, lc, e, rest);
    }
  }

  lemma {:induction false} CanonDist(t: CodeTables, llens: seq<nat>, dlens: seq<nat>, d: nat)
    requires Accepted(LENS, llens) && Accepted(DISTS, dlens) && LengthTables(t) && DistTables(t) && HasDist(t, dlens, d)
    ensures DistKnown(Canonical(llens, dlens), t, dlens, d)
  {
    var r := Canonical(llens, dlens);
    var c := DCode(t.distCode, d);
    CanonSays(DISTS, dlens, r.dist, c);
    DistEntryIs(t, d, dlens[c]);
    DistAlways(r, t, dlens, d, Entry(DISTS, c, dlens[c]));
  }

  lemma {:induction false} DistAlways(r: Reader, t: CodeTables, dlens: seq<nat>, d: nat, e: Code)
    requires HasDist(t, dlens, d) && DistEntryOk(t, d, e) && AlwaysSays(r.dist, dlens, DCode(t.distCode, d), e)
    ensures DistKnown(r, t, dlens, d)
  {
    forall p: Point, out: seq<nat>, rest: BitString | p.mode == DIST ensures DistRunsAt(r, t, dlens, d, p, out, rest) {
      RunDist(r, p, out, t, dlens, d, e, rest);
    }
  }

  lemma {:induction false} CanonKnows(t: CodeTables, llens: seq<nat>, dlens: seq<nat>, s: Sym)
    requires Accepted(LENS, llens) && Accepted(DISTS, dlens) && LengthTables(t) && DistTables(t) && HasCodes(t, llens, dlens, s)
    ensures Knows(Canonical(llens, dlens), t, llens, dlens, s)
  {
    if s.dist == 0 {
      CanonSays(LENS, llens, Canonical(llens, dlens).len, s.lc);
    } else {
      CanonLength(t, llens, dlens, s.lc);
      CanonDist(t, llens, dlens, s.dist - 1);
    }
  }

  lemma {:induction false} CanonSays(kind: Kind, lens: seq<nat>, look: BitString -> Code, sym: nat)
    requires Accepted(kind, lens) && Used(lens, sym) && forall s :: look(s) == CanonCode(kind, lens, s)
    ensures AlwaysSays(look, lens, sym, Entry(kind, sym, lens[sym]))
  {
    var e := Entry(kind, sym, lens[sym]);
    forall rest: BitString ensures Says(look, lens, sym, e, rest) {
      CanonSaysAt(kind, lens, look, sym, rest);
    }
  }

  lemma {:induction false} AllCanonKnown(t: CodeTables, llens: seq<nat>, dlens: seq<nat>, syms: seq<Sym>)
    requires Accepted(LENS, llens) && Accepted(DISTS, dlens) && LengthTables(t) && DistTables(t) && AllHaveCodes(t, llens, dlens, syms)
    ensures AllKnown(Canonical(llens, dlens), t, llens, dlens, syms)
  {
    forall i | 0 <= i < |syms| ensures Knows(Canonical(llens, dlens), t, llens, dlens, syms[i]) {
      CanonKnows(t, llens, dlens, syms[i]);
    }
  }

  /**
   With the canonical codes for the same lengths, inflate's states turn the bits of any
   buffered symbols back into the bytes they stand for, stop at the end of the block and
   leave what follows.
   */
  lemma {:induction false} RoundTrip(p: Point, out: seq<nat>, t: CodeTables, llens: seq<nat>, dlens: seq<nat>, syms: seq<Sym>, rest: BitString)
    requires Accepted(LENS, llens) && Accepted(DISTS, dlens) && LengthTables(t) && DistTables(t) && p.mode == LEN && InReach(|out|, syms)
    requires AllHaveCodes(t, llens, dlens, syms) && Used(llens, END_BLOCK)
    ensures var o := Run(Canonical(llens, dlens), p, out, AllBits(t, llens, dlens, syms) + (Codeword(llens, END_BLOCK) + rest));
            o.out == Expand(out, syms) && o.at.mode == TYPE && o.rest == rest
  {
    AllCanonKnown(t, llens, dlens, syms);
    CanonSays(LENS, llens, Canonical(llens, dlens).len, END_BLOCK);
    RunAll(Canonical(llens, dlens), p, out, t, llens, dlens, syms, rest);
  }
}
