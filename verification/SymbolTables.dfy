/**
 The tables that map match lengths and distances to codes (`tr_static_init` of trees.c),
 and that they fit the tables of inftrees.c on the decoding side.
 */
module SymbolTables {
  import opened Bits
  import opened InflateTable

  const LENGTH_CODES := 29
  const D_CODES := 30
  const END_BLOCK := 256

  const EXTRA_LBITS: seq<nat> := [0, 0, 0, 0, 0, 0, 0, 0, 1, 1, 1, 1, 2, 2, 2, 2, 3, 3, 3, 3, 4, 4, 4, 4, 5, 5, 5, 5, 0]
  const EXTRA_DBITS: seq<nat> := [
    0, 0, 0, 0, 1, 1, 2, 2, 3, 3, 4, 4, 5, 5, 6, 6, 7, 7, 8, 8, 9, 9, 10, 10, 11, 11, 12, 12, 13, 13]

  /** A length (minus 3) is sent as its code and the difference to the code's base in the
      code's extra bits, and the decoder's base gives it back. */
  ghost predicate LengthCodeOk(code: nat, base: nat, lc: nat)
  {
    && code < LENGTH_CODES
    && (EXTRA_LBITS[code] == 0 ==> LBASE[code] == lc + 3)
    && (EXTRA_LBITS[code] != 0 ==> base <= lc < base + Pow2(EXTRA_LBITS[code]) && LBASE[code] == base + 3)
  }

  ghost predicate DistCodeOk(code: nat, base: nat, d: nat)
  {
    && code < D_CODES
    && (EXTRA_DBITS[code] == 0 ==> DBASE[code] == d + 1)
    && (EXTRA_DBITS[code] != 0 ==> base <= d < base + Pow2(EXTRA_DBITS[code]) && DBASE[code] == base + 1)
  }

  datatype CodeTables = CodeTables(lengthCode: seq<nat>, baseLength: seq<nat>, extraL: seq<nat>,
                                   distCode: seq<nat>, baseDist: seq<nat>, extraD: seq<nat>)

  /** d_code(dist) */
  function DCode(distCode: seq<nat>, d: nat): nat
    requires |distCode| == 512 && d < 32768
  {
    if d < 256 then distCode[d] else distCode[256 + d / 128]
  }

  ghost predicate LengthTables(t: CodeTables)
  {
    && |t.lengthCode| == 256 && |t.baseLength| == LENGTH_CODES && t.extraL == EXTRA_LBITS
    && forall lc: nat :: lc < 256 ==>
         t.lengthCode[lc] < LENGTH_CODES && LengthCodeOk(t.lengthCode[lc], t.baseLength[t.lengthCode[lc]], lc)
  }

  ghost predicate DistTables(t: CodeTables)
  {
    && |t.distCode| == 512 && |t.baseDist| == D_CODES && t.extraD == EXTRA_DBITS
    && forall d: nat :: d < 32768 ==>
         DCode(t.distCode, d) < D_CODES && DistCodeOk(DCode(t.distCode, d), t.baseDist[DCode(t.distCode, d)], d)
  }

  // ----- the decoder's tables are consistent with the extra bits -----

  /** Each code starts where the one before ends. */
  lemma {:induction false} LengthBases(code: nat)
    requires code < 28
    ensures LBASE[0] == 3 && EXTRA_LBITS[code] <= 5
    ensures code < 27 ==> LBASE[code + 1] == LBASE[code] + Pow2(EXTRA_LBITS[code])
    ensures code == 27 ==> LBASE[code] + Pow2(EXTRA_LBITS[code]) == 259
  {
    PowersTo13();
  }

  lemma {:induction false} DistBases(code: nat)
    requires code < 30
    ensures DBASE[0] == 1 && EXTRA_DBITS[code] <= 13
    ensures code < 29 ==> DBASE[code + 1] == DBASE[code] + Pow2(EXTRA_DBITS[code])
    ensures code == 29 ==> DBASE[code] + Pow2(EXTRA_DBITS[code]) == 32769
    ensures code == 16 ==> DBASE[code] == 257
    ensures code >= 16 ==> EXTRA_DBITS[code] >= 7
  {
    PowersTo13();
  }

  /** The decoder's extra-bit counts are the encoder's. */
  lemma {:induction false} SameLengthExtra(code: nat)
    requires code < LENGTH_CODES
    ensures LEXT[code] == 16 + EXTRA_LBITS[code]
  {
  }

  lemma {:induction false} SameDistExtra(code: nat)
    requires code < D_CODES
    ensures DEXT[code] == 16 + EXTRA_DBITS[code]
  {
  }

  // ----- tr_static_init -----

  function ExtraL(code: nat): nat requires code < LENGTH_CODES { EXTRA_LBITS[code] }

  function ExtraD(code: nat): nat requires code < D_CODES { EXTRA_DBITS[code] }

  lemma {:induction false} LengthEntry(code: nat, base: nat, lc: nat)
    requires code < 28 && base + 3 == LBASE[code] && base <= lc < base + Pow2(ExtraL(code))
    ensures LengthCodeOk(code, base, lc)
  {
    PowersTo13();
  }

  ghost predicate LengthsDone(lengthCode: seq<nat>, baseLength: seq<nat>, length: nat, code: nat)
  {
    && |lengthCode| == 256 && |baseLength| == LENGTH_CODES && length <= 256
    && forall lc: nat :: lc < length ==>
         lengthCode[lc] < code <= LENGTH_CODES && LengthCodeOk(lengthCode[lc], baseLength[lengthCode[lc]], lc)
  }

  lemma {:induction false} LengthStored(lengthCode: seq<nat>, baseLength: seq<nat>, length: nat, code: nat)
    requires LengthsDone(lengthCode, baseLength, length, code + 1) && length < 256 && code < LENGTH_CODES
    requires LengthCodeOk(code, baseLength[code], length)
    ensures LengthsDone(lengthCode[length := code], baseLength, length + 1, code + 1)
  {
  }

  lemma {:induction false} BaseStored(lengthCode: seq<nat>, baseLength: seq<nat>, length: nat, code: nat, b: nat)
    requires LengthsDone(lengthCode, baseLength, length, code) && code < LENGTH_CODES
    ensures LengthsDone(lengthCode, baseLength[code := b], length, code + 1)
  {
  }

  method InitLengths() returns (lengthCode: seq<nat>, baseLength: seq<nat>)
    ensures LengthsDone(lengthCode, baseLength, 256, LENGTH_CODES)
  {
    lengthCode, baseLength := seq(256, _ => 0), seq(LENGTH_CODES, _ => 0);
    var length: nat, code: nat := 0, 0;
    LengthBases(0);
    while code < LENGTH_CODES - 1
      invariant code <= LENGTH_CODES - 1 && LengthsDone(lengthCode, baseLength, length, code)
      invariant if code < LENGTH_CODES - 1 then length + 3 == LBASE[code] else length == 256
    {
      LengthBases(code);
      BaseStored(lengthCode, baseLength, length, code, length);
      baseLength := baseLength[code := length];
      lengthCode, length := FillLengths(lengthCode, baseLength, length, code);
      code := code + 1;
    }
    LastLength(lengthCode, baseLength);
    lengthCode := lengthCode[length - 1 := code];
  }

  lemma {:induction false} LastLength(lengthCode: seq<nat>, baseLength: seq<nat>)
    requires LengthsDone(lengthCode, baseLength, 256, 28)
    ensures LengthsDone(lengthCode[255 := 28], baseLength, 256, LENGTH_CODES)
  {
    assert LBASE[28] == 258 && EXTRA_LBITS[28] == 0;
  }

  method FillLengths(lengthCode0: seq<nat>, baseLength: seq<nat>, length0: nat, code: nat)
    returns (lengthCode: seq<nat>, length: nat)
    requires code < 28 && LengthsDone(lengthCode0, baseLength, length0, code + 1) && baseLength[code] == length0
    requires length0 + 3 == LBASE[code] && length0 + Pow2(ExtraL(code)) <= 256
    ensures length == length0 + Pow2(ExtraL(code)) && LengthsDone(lengthCode, baseLength, length, code + 1)
  {
    lengthCode, length := lengthCode0, length0;
    var n: nat := 0;
    while n < Pow2(ExtraL(code))
      invariant n <= Pow2(ExtraL(code)) && length == length0 + n && LengthsDone(lengthCode, baseLength, length, code + 1)
    {
      LengthEntry(code, length0, length);
      LengthStored(lengthCode, baseLength, length, code);
      lengthCode := lengthCode[length := code];
      length, n := length + 1, n + 1;
    }
  }

  lemma {:induction false} DistEntry(code: nat, base: nat, d: nat)
    requires code < D_CODES && base + 1 == DBASE[code] && base <= d < base + Pow2(ExtraD(code))
    ensures DistCodeOk(code, base, d)
  {
    PowersTo13();
  }

  ghost predicate DistAt(distCode: seq<nat>, baseDist: seq<nat>, code: nat, d: nat)
    requires |distCode| == 512 && |baseDist| == D_CODES && d < 32768
  {
    DCode(distCode, d) < code <= D_CODES && DistCodeOk(DCode(distCode, d), baseDist[DCode(distCode, d)], d)
  }

  /** The first `done` distances are mapped. */
  ghost predicate DistsDone(distCode: seq<nat>, baseDist: seq<nat>, done: nat, code: nat)
  {
    && |distCode| == 512 && |baseDist| == D_CODES && done <= 32768
    && forall d: nat :: d < done ==> DistAt(distCode, baseDist, code, d)
  }

  lemma {:induction false} DistBaseStored(distCode: seq<nat>, baseDist: seq<nat>, done: nat, code: nat, b: nat)
    requires DistsDone(distCode, baseDist, done, code) && code < D_CODES
    ensures DistsDone(distCode, baseDist[code := b], done, code + 1)
  {
    var baseDist', code' := baseDist[code := b], code + 1;
    forall d: nat | d < done ensures DistAt(distCode, baseDist', code', d) {
      assert DistAt(distCode, baseDist, code, d);
    }
  }

  lemma {:induction false} NearStored(distCode: seq<nat>, baseDist: seq<nat>, dist: nat, code: nat)
    requires DistsDone(distCode, baseDist, dist, code + 1) && dist < 256 && code < D_CODES
    requires DistCodeOk(code, baseDist[code], dist)
    ensures DistsDone(distCode[dist := code], baseDist, dist + 1, code + 1)
  {
    var distCode', code' := distCode[dist := code], code + 1;
    forall d: nat | d < dist + 1 ensures DistAt(distCode', baseDist, code', d) {
      if d < dist { assert DistAt(distCode, baseDist, code', d); }
    }
  }

  /** One entry of the second half covers 128 distances. */
  lemma {:induction false} FarStored(distCode: seq<nat>, baseDist: seq<nat>, dist: nat, code: nat)
    requires DistsDone(distCode, baseDist, 128 * dist, code + 1) && 2 <= dist < 256 && code < D_CODES
    requires forall d: nat :: 128 * dist <= d < 128 * dist + 128 ==> DistCodeOk(code, baseDist[code], d)
    ensures DistsDone(distCode[256 + dist := code], baseDist, 128 * (dist + 1), code + 1)
  {
    var distCode', code' := distCode[256 + dist := code], code + 1;
    forall d: nat | d < 128 * (dist + 1) ensures DistAt(distCode', baseDist, code', d) {
      if d < 128 * dist {
        assert DistAt(distCode, baseDist, code', d);
      } else {
        assert d / 128 == dist;
      }
    }
  }

  method InitNear() returns (distCode: seq<nat>, baseDist: seq<nat>)
    ensures DistsDone(distCode, baseDist, 256, 16)
  {
    distCode, baseDist := seq(512, _ => 0), seq(D_CODES, _ => 0);
    var dist: nat, code: nat := 0, 0;
    DistBases(0);
    while code < 16
      invariant code <= 16 && DistsDone(distCode, baseDist, dist, code) && dist + 1 == DBASE[code]
    {
      DistBases(code);
      NearFits(code);
      DistBaseStored(distCode, baseDist, dist, code, dist);
      baseDist := baseDist[code := dist];
      distCode, dist := FillNear(distCode, baseDist, dist, code);
      code := code + 1;
    }
    DistBases(16);
  }

  lemma {:induction false} NearFits(code: nat)
    requires code < 16
    ensures DBASE[code] + Pow2(ExtraD(code)) <= 257
  {
    PowersTo13();
  }

  method FillNear(distCode0: seq<nat>, baseDist: seq<nat>, dist0: nat, code: nat)
    returns (distCode: seq<nat>, dist: nat)
    requires code < 16 && DistsDone(distCode0, baseDist, dist0, code + 1) && baseDist[code] == dist0
    requires dist0 + 1 == DBASE[code] && dist0 + Pow2(ExtraD(code)) <= 256
    ensures dist == dist0 + Pow2(ExtraD(code)) && DistsDone(distCode, baseDist, dist, code + 1)
  {
    distCode, dist := distCode0, dist0;
    var n: nat := 0;
    while n < Pow2(ExtraD(code))
      invariant n <= Pow2(ExtraD(code)) && dist == dist0 + n && DistsDone(distCode, baseDist, dist, code + 1)
    {
      DistEntry(code, dist0, dist);
      NearStored(distCode, baseDist, dist, code);
      distCode := distCode[dist := code];
      dist, n := dist + 1, n + 1;
    }
  }

  lemma {:induction false} Blocks(x: nat)
    requires x >= 7
    ensures Pow2(x) == 128 * Pow2(x - 7)
  {
    PowersTo13();
    Pow2Add(7, x - 7);
  }

  method FillFar(distCode0: seq<nat>, baseDist: seq<nat>, dist0: nat, code: nat)
    returns (distCode: seq<nat>, dist: nat)
    requires 16 <= code < D_CODES && 2 <= dist0 && DistsDone(distCode0, baseDist, 128 * dist0, code + 1)
    requires baseDist[code] == 128 * dist0 && 128 * dist0 + 1 == DBASE[code] && ExtraD(code) >= 7
    requires 128 * dist0 + Pow2(ExtraD(code)) <= 32768
    ensures 128 * dist == 128 * dist0 + Pow2(ExtraD(code)) && DistsDone(distCode, baseDist, 128 * dist, code + 1)
  {
    distCode, dist := distCode0, dist0;
    Blocks(ExtraD(code));
    var n: nat := 0;
    while n < Pow2(ExtraD(code) - 7)
      invariant n <= Pow2(ExtraD(code) - 7) && dist == dist0 + n && DistsDone(distCode, baseDist, 128 * dist, code + 1)
    {
      forall d: nat | 128 * dist <= d < 128 * dist + 128 ensures DistCodeOk(code, baseDist[code], d) {
        DistEntry(code, 128 * dist0, d);
      }
      FarStored(distCode, baseDist, dist, code);
      distCode := distCode[256 + dist := code];
      dist, n := dist + 1, n + 1;
    }
  }

  lemma {:induction false} FarFits(code: nat)
    requires 16 <= code < D_CODES
    ensures DBASE[code] + Pow2(ExtraD(code)) <= 32769
  {
    PowersTo13();
  }

  method InitFar(distCode0: seq<nat>, baseDist0: seq<nat>) returns (distCode: seq<nat>, baseDist: seq<nat>)
    requires DistsDone(distCode0, baseDist0, 256, 16)
    ensures DistsDone(distCode, baseDist, 32768, D_CODES)
  {
    distCode, baseDist := distCode0, baseDist0;
    var dist: nat, code: nat := 256 / 128, 16;
    DistBases(16);
    while code < D_CODES
      invariant 16 <= code <= D_CODES && 2 <= dist && DistsDone(distCode, baseDist, 128 * dist, code)
      invariant if code < D_CODES then 128 * dist + 1 == DBASE[code] else 128 * dist == 32768
    {
      DistBases(code);
      FarFits(code);
      DistBaseStored(distCode, baseDist, 128 * dist, code, 128 * dist);
      baseDist := baseDist[code := 128 * dist];
      distCode, dist := FillFar(distCode, baseDist, dist, code);
      code := code + 1;
    }
  }

  /** tr_static_init, as far as lengths and distances go. */
  method StaticInit() returns (t: CodeTables)
    ensures LengthTables(t) && DistTables(t)
  {
    var lengthCode, baseLength := InitLengths();
    var distCode, baseDist := InitNear();
    distCode, baseDist := InitFar(distCode, baseDist);
    t := CodeTables(lengthCode, baseLength, EXTRA_LBITS, distCode, baseDist, EXTRA_DBITS);
    forall d: nat | d < 32768 ensures DCode(distCode, d) < D_CODES && DistCodeOk(DCode(distCode, d), baseDist[DCode(distCode, d)], d) {
      assert DistAt(distCode, baseDist, D_CODES, d);
    }
  }

  // ----- what a user of the tables needs to know -----

  /** The code of a length and its extra bits. */
  ghost predicate LengthReady(t: CodeTables, lc: nat)
  {
    && |t.lengthCode| == 256 && lc < 256
    && var c := t.lengthCode[lc];
       && c < |t.extraL| == |t.baseLength| == LENGTH_CODES && t.extraL[c] <= 5
       && (t.extraL[c] != 0 ==> t.baseLength[c] <= lc < t.baseLength[c] + Pow2(t.extraL[c]))
  }

  ghost predicate DistReady(t: CodeTables, d: nat)
  {
    && |t.distCode| == 512 && d < 32768
    && var c := DCode(t.distCode, d);
       && c < |t.extraD| == |t.baseDist| == D_CODES && t.extraD[c] <= 13
       && (t.extraD[c] != 0 ==> t.baseDist[c] <= d < t.baseDist[c] + Pow2(t.extraD[c]))
  }

  lemma {:induction false} TablesReady(t: CodeTables)
    requires LengthTables(t) && DistTables(t)
    ensures forall lc: nat :: lc < 256 ==> LengthReady(t, lc)
    ensures forall d: nat :: d < 32768 ==> DistReady(t, d)
  {
    forall lc: nat | lc < 256 ensures LengthReady(t, lc) {
      var c := t.lengthCode[lc];
      assert LengthCodeOk(c, t.baseLength[c], lc);
      if c < 28 { LengthBases(c); }
    }
    forall d: nat | d < 32768 ensures DistReady(t, d) {
      var c := DCode(t.distCode, d);
      assert DistCodeOk(c, t.baseDist[c], d);
      DistBases(c);
    }
  }

  /** What the decoder makes of the code and the extra bits of a length. */
  lemma {:induction false} LengthDecodes(t: CodeTables, lc: nat)
    requires LengthTables(t) && DistTables(t) && lc < 256
    ensures LengthReady(t, lc)
    ensures var c := t.lengthCode[lc]; var x := t.extraL[c];
            && LEXT[c] == 16 + x && c < 29
            && LBASE[c] + (if x == 0 then 0 else lc - t.baseLength[c]) == lc + 3
  {
    TablesReady(t);
    var c := t.lengthCode[lc];
    assert LengthCodeOk(c, t.baseLength[c], lc);
    SameLengthExtra(c);
  }

  lemma {:induction false} DistDecodes(t: CodeTables, d: nat)
    requires DistTables(t) && LengthTables(t) && d < 32768
    ensures DistReady(t, d)
    ensures var c := DCode(t.distCode, d); var x := t.extraD[c];
            && DEXT[c] == 16 + x && c < 30
            && DBASE[c] + (if x == 0 then 0 else d - t.baseDist[c]) == d + 1
  {
    TablesReady(t);
    var c := DCode(t.distCode, d);
    assert DistCodeOk(c, t.baseDist[c], d);
    SameDistExtra(c);
  }
}
