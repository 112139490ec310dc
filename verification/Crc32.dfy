/**
 `crc32_z`, `crc_word` and `crc32_combine` of crc32.c.
 */
module Crc32 {
  import opened Bits
  import opened Inflating
  import opened Gf2
  import opened CrcPeriod
  import opened CrcRegister
  import opened CrcTables
  import opened CrcBraid

  // ----- a byte at a time -----

  lemma {:induction false} LowBitsVal(s: BitString)
    ensures LowBits(Val(s), |s|) == s
  {
    ValBound(s);
    ValLowBits(Val(s), |s|);
    ValInjective(LowBits(Val(s), |s|), s);
  }

  /** Eight places on: the low byte by the table, the rest by shifting. */
  lemma {:induction false} SplitByte(w: Poly)
    ensures Raised(POLY(), 8, w) == Xor(w[8..] + Zeros(8), Raised(POLY(), 8, w[..8] + Zeros(24)))
  {
    var high, low := Zeros(8) + w[8..], w[..8] + Zeros(24);
    assert w == Xor(high, low);
    RaisedSum(POLY(), 8, high, low);
    ShiftZeros(POLY(), 8, w[8..]);
  }

  lemma {:induction false} TableLookup(t: seq<Poly>, low: BitString)
    requires IsByteTable(t) && |low| == 8
    ensures Val(low) < 256 && t[Val(low)] == Raised(POLY(), 8, low + Zeros(24))
  {
    Pow2Values();
    ValBound(low);
    LowBitsVal(low);
  }

  /** (crc >> 8) ^ table[(crc ^ byte) & 0xff], for the bits of a byte. */
  lemma {:induction false} TableStep(t: seq<Poly>, c: Poly, b: BitString)
    requires IsByteTable(t) && |b| == 8
    ensures var low := Xor(c[..8], b);
            Val(low) < 256 && Xor(c[8..] + Zeros(8), t[Val(low)]) == Register(POLY(), c, b)
  {
    var w := Xor(c, b + Zeros(24));
    var low := Xor(c[..8], b);
    assert w[..8] == low && w[8..] == c[8..];
    TableLookup(t, low);
    SplitByte(w);
    FewBits(POLY(), c, b);
  }

  method CrcByte(t: seq<Poly>, c: Poly, b: nat) returns (r: Poly)
    requires IsByteTable(t)
    ensures r == Register(POLY(), c, LowBits(b, 8))
  {
    TableStep(t, c, LowBits(b, 8));
    r := Xor(c[8..] + Zeros(8), t[Val(Xor(c[..8], LowBits(b, 8)))]);
  }

  lemma {:induction false} OneMoreByte(c: Poly, buf: seq<nat>, i: nat, j: nat)
    requires i <= j < |buf|
    ensures Register(POLY(), c, ByteBits(buf[i..j + 1])) == Register(POLY(), Register(POLY(), c, ByteBits(buf[i..j])), LowBits(buf[j], 8))
  {
    ByteBitsAppend(buf[i..j], [buf[j]]);
    assert buf[i..j] + [buf[j]] == buf[i..j + 1];
    assert ByteBits([buf[j]]) == LowBits(buf[j], 8) + ByteBits([]);
    assert ByteBits([buf[j]]) == LowBits(buf[j], 8);
    RegisterJoin(POLY(), c, ByteBits(buf[i..j]), LowBits(buf[j], 8));
  }

  /** Bytes from one index to another. */
  method CrcBytes(t: seq<Poly>, c: Poly, buf: seq<nat>, from: nat, to: nat) returns (r: Poly)
    requires IsByteTable(t) && from <= to <= |buf|
    ensures r == Register(POLY(), c, ByteBits(buf[from..to]))
  {
    r := c;
    var i := from;
    while i < to
      invariant from <= i <= to && r == Register(POLY(), c, ByteBits(buf[from..i]))
    {
      OneMoreByte(c, buf, from, i);
      r := CrcByte(t, r, buf[i]);
      i := i + 1;
    }
  }

  // ----- words -----

  /** The word at a boundary: its bytes, the first in the low bits. */
  method LoadWord(buf: seq<nat>, at: nat, w: nat) returns (word: BitString)
    requires at + w <= |buf|
    ensures word == ByteBits(buf[at..at + w])
  {
    word := [];
    var k: nat := 0;
    while k < w
      invariant k <= w && word == ByteBits(buf[at..at + k])
    {
      ByteBitsAppend(buf[at..at + k], [buf[at + k]]);
      assert buf[at..at + k] + [buf[at + k]] == buf[at..at + k + 1];
      assert ByteBits([buf[at + k]]) == LowBits(buf[at + k], 8) + ByteBits([]);
      word := word + LowBits(buf[at + k], 8);
      k := k + 1;
    }
  }

  /** crc_word in the middle: what is left of the data, and the CRC so far added to it. */
  ghost predicate WordState(data0: BitString, data: BitString, k: nat)
  {
    && 8 * k <= |data0| && |data0| >= 32
    && data == Xor(data0[8 * k..] + Zeros(8 * k), Register(POLY(), ZERO, data0[..8 * k]) + Zeros(|data0| - 32))
  }

  lemma {:induction false} WordStep(t: seq<Poly>, data0: BitString, data: BitString, k: nat)
    requires IsByteTable(t) && WordState(data0, data, k) && 8 * k + 8 <= |data0|
    ensures Val(data[..8]) < 256 && WordState(data0, Xor(data[8..] + Zeros(8), t[Val(data[..8])] + Zeros(|data0| - 32)), k + 1)
  {
    var n := |data0| - 32;
    var c := Register(POLY(), ZERO, data0[..8 * k]);
    var b := data0[8 * k..8 * k + 8];
    TableStep(t, c, b);
    assert data[..8] == Xor(c[..8], b) by { XorCommutes(c[..8], b); }
    var v := t[Val(data[..8])];
    var c' := Xor(c[8..] + Zeros(8), v);
    assert data0[..8 * k + 8] == data0[..8 * k] + b;
    RegisterJoin(POLY(), ZERO, data0[..8 * k], b);
    WordShift(data0, data, c, v, k);
  }

  lemma {:induction false} WordShift(data0: BitString, data: BitString, c: Poly, v: Poly, k: nat)
    requires 8 * k + 8 <= |data0| && |data0| >= 32 && data == Xor(data0[8 * k..] + Zeros(8 * k), c + Zeros(|data0| - 32))
    ensures Xor(data[8..] + Zeros(8), v + Zeros(|data0| - 32)) ==
            Xor(data0[8 * k + 8..] + Zeros(8 * k + 8), Xor(c[8..] + Zeros(8), v) + Zeros(|data0| - 32))
  {
    var d := data0[8 * k + 8..] + Zeros(8 * k + 8);
    var e := (c[8..] + Zeros(8)) + Zeros(|data0| - 32);
    assert data[8..] + Zeros(8) == Xor(d, e);
    XorAssoc(d, e, v + Zeros(|data0| - 32));
  }

  /** crc_word: the CRC of the bytes of a word. */
  method CrcWord(t: seq<Poly>, data0: BitString, w: nat) returns (r: Poly)
    requires IsByteTable(t) && |data0| == 8 * w && w >= 4
    ensures r == Register(POLY(), ZERO, data0)
  {
    var data := data0;
    var k: nat := 0;
    WordStart(data0);
    while k < w
      invariant k <= w && WordState(data0, data, k)
    {
      WordStep(t, data0, data, k);
      data := Xor(data[8..] + Zeros(8), t[Val(data[..8])] + Zeros(|data0| - 32));
      k := k + 1;
    }
    WordEnd(data0, data, w);
    r := data[..32];
  }

  lemma {:induction false} WordStart(data0: BitString)
    requires |data0| >= 32
    ensures WordState(data0, data0, 0)
  {
    assert data0[0..] + Zeros(0) == data0 && data0[..0] == [];
    assert ZERO + Zeros(|data0| - 32) == Zeros(|data0|);
    XorZero(data0);
  }

  lemma {:induction false} WordEnd(data0: BitString, data: BitString, w: nat)
    requires |data0| == 8 * w && WordState(data0, data, w)
    ensures data[..32] == Register(POLY(), ZERO, data0)
  {
    assert data0[8 * w..] + Zeros(8 * w) == Zeros(|data0|) && data0[..8 * w] == data0;
  }

  // ----- braids -----

  /** The bytes of a word up to the k-th, each moved on to the same place. */
  lemma {:induction false} BraidStep(row: seq<Poly>, word: BitString, k: nat, b: BitString, c: Poly, acc: Poly, e: nat, e': nat)
    requires IsBraidRow(row, e) && e == e' + 8 && 8 * k + 8 <= |word| && b == word[8 * k..8 * k + 8]
    requires c == Register(POLY(), ZERO, word[..8 * k]) && acc == Raised(POLY(), e, c)
    ensures Val(b) < 256 && Xor(acc, row[Val(b)]) == Raised(POLY(), e', Register(POLY(), ZERO, word[..8 * k + 8]))
  {
    RowLookup(row, b, e);
    NextEight(word, k);
    MovedOn(c, b, e');
  }

  lemma {:induction false} NextEight(word: BitString, k: nat)
    requires 8 * k + 8 <= |word|
    ensures Register(POLY(), ZERO, word[..8 * k + 8]) == Register(POLY(), Register(POLY(), ZERO, word[..8 * k]), word[8 * k..8 * k + 8])
  {
    assert word[..8 * k + 8] == word[..8 * k] + word[8 * k..8 * k + 8];
    RegisterJoin(POLY(), ZERO, word[..8 * k], word[8 * k..8 * k + 8]);
  }

  lemma {:induction false} RowLookup(row: seq<Poly>, b: BitString, e: nat)
    requires IsBraidRow(row, e) && |b| == 8
    ensures Val(b) < 256 && row[Val(b)] == Raised(POLY(), e, b + Zeros(24))
  {
    Pow2Values();
    ValBound(b);
    LowBitsVal(b);
  }

  /** A byte taken in and moved on: the value before it and the byte go the same way. */
  lemma {:induction false} MovedOn(c: Poly, b: BitString, e: nat)
    requires |b| == 8
    ensures Raised(POLY(), e, Register(POLY(), c, b)) == Xor(Raised(POLY(), e + 8, c), Raised(POLY(), e + 8, b + Zeros(24)))
  {
    var x := Xor(c, b + Zeros(24));
    FewBits(POLY(), c, b);
    RaisedTwice(POLY(), e, |b|, x);
    RaisedSum(POLY(), e + 8, c, b + Zeros(24));
  }

  lemma {:induction false} RestOfBlock(n: nat, w: nat)
    requires n >= 1
    ensures 8 * BytesLeft(n, w, w) == (n - 1) * (8 * w)
  {
  }

  /** k bytes of the word have been taken in, with `left` bytes to move on over. */
  ghost predicate BraidState(word: BitString, crc: Poly, k: nat, left: int)
  {
    8 * k <= |word| && left >= 0 && crc == Raised(POLY(), 8 * left, Register(POLY(), ZERO, word[..8 * k]))
  }

  method BraidByte(row: seq<Poly>, word: BitString, crc: Poly, k: nat, ghost left: int) returns (crc': Poly)
    requires BraidState(word, crc, k, left) && left >= 1 && 8 * k + 8 <= |word| && IsBraidRow(row, 8 * left)
    ensures BraidState(word, crc', k + 1, left - 1)
  {
    BraidStep(row, word, k, word[8 * k..8 * k + 8], Register(POLY(), ZERO, word[..8 * k]), crc, 8 * left, 8 * (left - 1));
    crc' := Xor(crc, row[Val(word[8 * k..8 * k + 8])]);
  }

  lemma {:induction false} BraidStart(word: BitString, left: nat)
    ensures BraidState(word, ZERO, 0, left)
  {
    assert word[..0] == [];
    RaisedZero(POLY(), 8 * left);
  }

  lemma {:induction false} BraidEnd(word: BitString, crc: Poly, n: nat, w: nat)
    requires |word| == 8 * w && n >= 1 && BraidState(word, crc, w, BytesLeft(n, w, w))
    ensures crc == Later(word, (n - 1) * (8 * w))
  {
    assert word[..8 * w] == word;
    RestOfBlock(n, w);
  }

  /** What a braid makes of a word. */
  method BraidWord(ltl: seq<seq<Poly>>, word: BitString, n: nat, w: nat) returns (crc: Poly)
    requires IsBraid(ltl, n, w) && |word| == 8 * w && w >= 4 && n >= 1
    ensures crc == Later(word, (n - 1) * (8 * w))
  {
    LeftOver(n, w, 0);
    BraidStart(word, BytesLeft(n, w, 0));
    crc := ZERO;
    var k: nat := 0;
    while k < w
      invariant k <= w && BraidState(word, crc, k, BytesLeft(n, w, k))
    {
      LeftOver(n, w, k);
      crc := BraidByte(ltl[k], word, crc, k, BytesLeft(n, w, k));
      k := k + 1;
    }
    BraidEnd(word, crc, n, w);
  }

  /** One block: each braid takes its word. */
  method BraidBlock(ltl: seq<seq<Poly>>, crcs: seq<Poly>, ws: seq<BitString>, n: nat, w: nat) returns (crcs': seq<Poly>)
    requires IsBraid(ltl, n, w) && w >= 4 && n >= 1 && |crcs| == n <= |ws| && Words(ws, 8 * w)
    ensures NextCrcs(crcs, ws, crcs', (n - 1) * (8 * w))
  {
    crcs' := [];
    var i: nat := 0;
    while i < n
      invariant i <= n && |crcs'| == i
      invariant forall j :: 0 <= j < i ==> crcs'[j] == Later(Added(ws[j], crcs[j]), (n - 1) * (8 * w))
    {
      var crc := BraidWord(ltl, Added(ws[i], crcs[i]), n, w);
      crcs' := crcs' + [crc];
      i := i + 1;
    }
  }

  lemma {:induction false} OneMoreWord(us: seq<BitString>, i: nat)
    requires i < |us| && |us[i]| >= 32
    ensures WordRun(us[..i + 1]) == Register(POLY(), ZERO, Added(us[i], WordRun(us[..i])))
  {
    var acc := WordRun(us[..i]);
    assert us[..i + 1] == us[..i] + [us[i]];
    FlatJoin(us[..i], [us[i]]);
    FlatOne(us[i]);
    RegisterJoin(POLY(), ZERO, Flat(us[..i]), us[i]);
    XorZero(acc);
    IntoData(POLY(), acc, ZERO, us[i]);
  }

  /** The last block: its words in turn. */
  method LastBlock(t: seq<Poly>, crcs: seq<Poly>, ws: seq<BitString>, n: nat, w: nat) returns (crc: Poly)
    requires IsByteTable(t) && w >= 4 && |crcs| == n == |ws| && Words(ws, 8 * w)
    ensures crc == WordRun(Injected(crcs, ws))
  {
    ghost var us := Injected(crcs, ws);
    crc := ZERO;
    assert us[..0] == [];
    var i: nat := 0;
    while i < n
      invariant i <= n && crc == WordRun(us[..i])
    {
      OneMoreWord(us, i);
      crc := CrcWord(t, Added(Added(ws[i], crcs[i]), crc), w);
      i := i + 1;
    }
    assert us[..n] == us;
  }

  /** The first value goes into the first braid; the others start empty. */
  lemma {:induction false} FirstCrcs(c: Poly, crcs: seq<Poly>, ws: seq<BitString>, size: nat)
    requires 1 <= |crcs| <= |ws| && crcs[0] == c && (forall i :: 1 <= i < |crcs| ==> crcs[i] == ZERO) && Words(ws, size) && size >= 32
    ensures WordRun(Injected(crcs, ws)) == Register(POLY(), c, Flat(ws))
  {
    var us := Injected(crcs, ws);
    forall i | 1 <= i < |ws| ensures us[i] == ws[i] {
      if i < |crcs| {
        NothingAdded(ws[i]);
      }
    }
    assert us[1..] == ws[1..];
    RegisterJoin(POLY(), ZERO, us[0], Flat(us[1..]));
    RegisterJoin(POLY(), c, ws[0], Flat(ws[1..]));
    XorZero(c);
    IntoData(POLY(), c, ZERO, ws[0]);
  }

  lemma {:induction false} NothingAdded(w: BitString)
    requires |w| >= 32
    ensures Added(w, ZERO) == w
  {
    assert ZERO + Zeros(|w| - 32) == Zeros(|w|);
    XorZero(w);
  }

  /** All blocks. */
  method Braided(t: seq<Poly>, ltl: seq<seq<Poly>>, c: Poly, words: seq<BitString>, blks: nat, n: nat, w: nat) returns (crc: Poly)
    requires IsByteTable(t) && IsBraid(ltl, n, w) && w >= 4 && n >= 1 && blks >= 1 && |words| == Copies(blks, n) && Words(words, 8 * w)
    ensures crc == Register(POLY(), c, Flat(words))
  {
    var crcs: seq<Poly> := [c] + seq(n - 1, _ => ZERO);
    var left, ws := blks, words;
    FirstCrcs(c, crcs, ws, 8 * w);
    while left > 1
      invariant 1 <= left <= blks && Braiding(crcs, ws, left, n, w)
      invariant WordRun(Injected(crcs, ws)) == Register(POLY(), c, Flat(words))
    {
      crcs, ws := TakeBlock(ltl, crcs, ws, left, n, w);
      left := left - 1;
    }
    assert Copies(left, n) == n by { assert Copies(0, n) == 0 && left == 1; }
    crc := LastBlock(t, crcs, ws, n, w);
  }

  /** n braids and the words of the blocks left. */
  ghost predicate Braiding(crcs: seq<Poly>, ws: seq<BitString>, left: nat, n: nat, w: nat)
  {
    |crcs| == n && |ws| == Copies(left, n) && Words(ws, 8 * w)
  }

  /** One block: the words move on to the next. */
  method TakeBlock(ltl: seq<seq<Poly>>, crcs: seq<Poly>, ws: seq<BitString>, left: nat, n: nat, w: nat) returns (crcs': seq<Poly>, ws': seq<BitString>)
    requires IsBraid(ltl, n, w) && w >= 4 && n >= 1 && left > 1 && Braiding(crcs, ws, left, n, w)
    ensures Braiding(crcs', ws', left - 1, n, w) && WordRun(Injected(crcs', ws')) == WordRun(Injected(crcs, ws))
  {
    crcs' := BraidBlock(ltl, crcs, ws, n, w);
    BlockMove(crcs, ws, crcs', 8 * w);
    ws' := ws[n..];
  }

  /** n, that many times. */
  function Copies(blks: nat, n: nat): (r: nat)
    ensures blks >= 1 ==> r >= n
    ensures blks >= 2 ==> r >= 2 * n
  {
    if blks == 0 then 0 else n + Copies(blks - 1, n)
  }

  // ----- crc32_z -----

  function AllOnes(n: nat): (s: BitString)
    ensures |s| == n
  {
    seq(n, _ => true)
  }

  const ONES: Poly := AllOnes(32)

  /** ~crc */
  function Not(c: Poly): Poly { Xor(c, ONES) }

  lemma {:induction false} NotTwice(c: Poly)
    ensures Not(Not(c)) == c
  {
    XorAssoc(c, ONES, ONES);
    XorZero(ONES);
    XorZero(c);
  }

  /** The CRC of the bytes, continuing from crc: the register with both ends inverted. */
  ghost function Crc(crc: Poly, data: seq<nat>): Poly { Not(Register(POLY(), Not(crc), ByteBits(data))) }

  /** buf: a null pointer, or bytes at an address. */
  datatype Buffer = Null | Bytes(data: seq<nat>, address: nat)

  lemma {:induction false} NextAddress(a: nat, i: nat, w: nat)
    requires w > 0 && a % w + i <= w
    ensures (a + i) % w == if a % w + i == w then 0 else a % w + i
  {
    var q, r := a / w, a % w;
    assert a == w * q + r;
    if r + i == w {
      assert a + i == w * (q + 1) + 0;
      DivModUnique(a + i, w, q + 1, 0);
    } else {
      DivModUnique(a + i, w, q, r + i);
    }
  }

  /** Whether the byte i of the buffer is at a word boundary; off is how far the buffer is past one. */
  method AtBoundary(address: nat, i: nat, w: nat, ghost off: nat) returns (yes: bool)
    requires w > 0 && off == address % w && off + i <= w
    ensures yes <==> off + i == 0 || off + i == w
  {
    NextAddress(address, i, w);
    yes := (address + i) % w == 0;
  }

  /** Bytes up to a word boundary. */
  method CrcAlign(t: seq<Poly>, c: Poly, data: seq<nat>, address: nat, w: nat, ghost off: nat) returns (crc: Poly, i: nat)
    requires IsByteTable(t) && w > 0 && |data| >= w && off == address % w
    ensures i < w && (off + i == 0 || off + i == w) && crc == Register(POLY(), c, ByteBits(data[..i]))
  {
    crc, i := c, 0;
    assert data[..0] == [];
    var yes := AtBoundary(address, 0, w, off);
    while !yes
      invariant i < w && off < w && off + i <= w && (off == 0 ==> yes) && (yes <==> off + i == 0 || off + i == w)
      invariant crc == Register(POLY(), c, ByteBits(data[..i]))
      decreases w - i
    {
      assert data[0..i] == data[..i] && data[0..i + 1] == data[..i + 1];
      OneMoreByte(c, data, 0, i);
      crc := CrcByte(t, crc, data[i]);
      i := i + 1;
      yes := AtBoundary(address, i, w, off);
    }
  }

  lemma {:induction false} CopiesMono(k: nat, count: nat, w: nat)
    requires k <= count
    ensures Copies(k, w) <= Copies(count, w)
  {
    if k < count {
      CopiesMono(k, count - 1, w);
    }
  }

  /** k words have been loaded. */
  ghost predicate Loaded(data: seq<nat>, at: nat, end: nat, words: seq<BitString>, k: nat, w: nat)
  {
    && end == at + Copies(k, w) <= |data| && |words| == k && Words(words, 8 * w) && Flat(words) == ByteBits(data[at..end])
  }

  /** The words of `count` times w bytes. */
  method LoadWords(data: seq<nat>, at: nat, count: nat, w: nat) returns (words: seq<BitString>, end: nat)
    requires at + Copies(count, w) <= |data|
    ensures Loaded(data, at, end, words, count, w)
  {
    words, end := [], at;
    assert data[at..at] == [];
    var k: nat := 0;
    while k < count
      invariant k <= count && Loaded(data, at, end, words, k, w)
    {
      CopiesMono(k + 1, count, w);
      var word := LoadWord(data, end, w);
      WordAppended(data, at, end, k, w, words, word);
      words := words + [word];
      end := end + w;
      k := k + 1;
    }
  }

  lemma {:induction false} WordAppended(data: seq<nat>, at: nat, end: nat, k: nat, w: nat, words: seq<BitString>, word: BitString)
    requires Loaded(data, at, end, words, k, w) && end + w <= |data| && word == ByteBits(data[end..end + w])
    ensures Loaded(data, at, end + w, words + [word], k + 1, w)
  {
    FlatJoin(words, [word]);
    FlatOne(word);
    ByteBitsAppend(data[at..end], data[end..end + w]);
    assert data[at..end] + data[end..end + w] == data[at..end + w];
  }

  lemma {:induction false} CopiesIs(blks: nat, n: nat)
    ensures Copies(blks, n) == blks * n
  {
    if blks > 0 {
      CopiesIs(blks - 1, n);
    }
  }

  lemma {:induction false} BlocksFit(len: nat, n: nat, w: nat, blks: nat)
    requires n >= 1 && w >= 1 && n * w > 0 && len >= n * w && blks == len / (n * w)
    ensures blks >= 1 && Copies(Copies(blks, n), w) <= len
  {
    CopiesIs(blks, n);
    CopiesIs(blks * n, w);
    Regroup(blks, n, w);
    DivBound(len, n * w);
  }

  lemma {:induction false} Regroup(a: nat, b: nat, c: nat)
    ensures (a * b) * c == (b * c) * a
  {
  }

  lemma {:induction false} DivBound(len: nat, q: nat)
    requires 0 < q <= len
    ensures len / q >= 1 && q * (len / q) <= len
  {
  }

  /** As many blocks as there are. */
  method CrcBlocks(t: seq<Poly>, ltl: seq<seq<Poly>>, c: Poly, data: seq<nat>, at: nat, n: nat, w: nat) returns (crc: Poly, end: nat)
    requires IsByteTable(t) && IsBraid(ltl, n, w) && w >= 4 && n >= 1 && at <= |data| && |data| - at >= n * w
    ensures at <= end <= |data| && crc == Register(POLY(), c, ByteBits(data[at..end]))
  {
    MulMono(w, 1, n);
    var blks := (|data| - at) / (n * w);
    BlocksFit(|data| - at, n, w, blks);
    var words;
    words, end := LoadWords(data, at, Copies(blks, n), w);
    crc := Braided(t, ltl, c, words, blks, n, w);
  }

  /**
   crc32_z, with n braids of words of w bytes: however the buffer is aligned and however
   long it is, the result is the CRC of its bytes.
   */
  method Crc32Z(t: seq<Poly>, ltl: seq<seq<Poly>>, n: nat, w: nat, crc: Poly, buf: Buffer) returns (r: Poly)
    requires IsByteTable(t) && IsBraid(ltl, n, w) && w >= 4 && n >= 1
    ensures r == match buf case Null => ZERO case Bytes(data, _) => Crc(crc, data)
  {
    match buf
    case Null => return ZERO;
    case Bytes(data, address) =>
      var c, i := CrcFast(t, ltl, n, w, Not(crc), data, address);
      ghost var c1 := c;
      c := CrcBytes(t, c, data, i, |data|);
      UpTo(Not(crc), data, i, |data|);
      assert data[..|data|] == data;
      r := Not(c);
  }

  lemma {:induction false} UpTo(c: Poly, data: seq<nat>, i: nat, j: nat)
    requires i <= j <= |data|
    ensures Register(POLY(), c, ByteBits(data[..j])) == Register(POLY(), Register(POLY(), c, ByteBits(data[..i])), ByteBits(data[i..j]))
  {
    ByteBitsAppend(data[..i], data[i..j]);
    assert data[..i] + data[i..j] == data[..j];
    RegisterJoin(POLY(), c, ByteBits(data[..i]), ByteBits(data[i..j]));
  }

  /** The braided part, if there is enough for it. */
  method CrcFast(t: seq<Poly>, ltl: seq<seq<Poly>>, n: nat, w: nat, c0: Poly, data: seq<nat>, address: nat) returns (c: Poly, i: nat)
    requires IsByteTable(t) && IsBraid(ltl, n, w) && w >= 4 && n >= 1
    ensures i <= |data| && c == Register(POLY(), c0, ByteBits(data[..i]))
  {
    c, i := c0, 0;
    assert data[..0] == [];
    if |data| >= n * w + w - 1 {
      MulMono(w, 1, n);
      c, i := CrcAlign(t, c0, data, address, w, address % w);
      ghost var a := i;
      c, i := CrcBlocks(t, ltl, c, data, i, n, w);
      UpTo(c0, data, a, i);
    }
  }

  // ----- crc32_combine -----

  /** crc32_combine_gen64: x^(8 len2), or 0 for a negative length. */
  method CombineGen(x2n: seq<Poly>, len2: int) returns (op: Poly)
    requires IsPowers(x2n)
    ensures op == if len2 < 0 then ZERO else Raised(POLY(), 8 * len2, ONE)
  {
    if len2 < 0 {
      return ZERO;
    }
    op := X2nModP(x2n, len2, 3);
    assert len2 * Pow2(3) == 8 * len2;
  }

  /** crc32_combine_op */
  method CombineOp(crc1: Poly, crc2: Poly, op: Poly) returns (r: Poly)
    ensures r == if op == ZERO then ZERO else Xor(Mul(POLY(), op, crc1), crc2)
  {
    if op == ZERO {
      return ZERO;
    }
    r := MultModP(op, crc1);
    r := Xor(r, crc2);
  }

  /** Concatenation: the CRC of the first part moves on over the second. */
  lemma {:induction false} CombinedCrc(crc: Poly, a: seq<nat>, b: seq<nat>)
    ensures Crc(crc, a + b) == Xor(Raised(POLY(), 8 * |b|, Crc(crc, a)), Crc(ZERO, b))
  {
    var p, n, s := POLY(), 8 * |b|, ByteBits(b);
    var ra := Register(p, Not(crc), ByteBits(a));
    ByteBitsAppend(a, b);
    RegisterJoin(p, Not(crc), ByteBits(a), s);
    NotTwice(ra);
    assert Xor(Crc(crc, a), ONES) == ra;
    var r := Register(p, ZERO, s);
    RegisterApart(p, ra, s);
    RaisedSum(p, n, Crc(crc, a), ONES);
    XorZero(ONES);
    RegisterApart(p, ONES, s);
    var x, y := Raised(p, n, Crc(crc, a)), Raised(p, n, ONES);
    XorAssoc(x, y, r);
    XorAssoc(x, Xor(y, r), ONES);
  }

  /**
   crc32_combine64: from the CRCs of two byte strings and the length of the second, the CRC
   of their concatenation.
   */
  method Combine(x2n: seq<Poly>, crc1: Poly, crc2: Poly, len2: int, ghost crc: Poly, ghost a: seq<nat>, ghost b: seq<nat>) returns (r: Poly)
    requires IsPowers(x2n)
    ensures len2 < 0 ==> r == ZERO
    ensures len2 == |b| && crc1 == Crc(crc, a) && crc2 == Crc(ZERO, b) ==> r == Crc(crc, a + b)
  {
    var op := CombineGen(x2n, len2);
    r := CombineOp(crc1, crc2, op);
    if len2 >= 0 {
      OneNonzero();
      RaisedNonzero(8 * len2, ONE);
      MulPower(POLY(), 8 * len2, crc1);
      CombinedCrc(crc, a, b);
    }
  }
}
