/**
 The operations of deflate.c on the window and its dictionary: INSERT_STRING, and the
 parts of `fill_window`: sliding, reading and inserting what could not be inserted before.
 */
module Dictionary {
  import opened Bits
  import opened HashChains
  import opened LongestMatch

  /** ins_h holds the hash of the two bytes at position a, ready for the third. */
  ghost predicate TwoBytes(hb: nat, input: seq<nat>, a: nat, h: BitString)
  {
    a + 1 < |input| && Primed(hb, h, input[a], input[a + 1])
  }

  ghost predicate Primed(hb: nat, h: BitString, a: nat, b: nat)
  {
    |h| == hb && forall c: nat :: ThirdGives(hb, h, a, b, c)
  }

  ghost predicate ThirdGives(hb: nat, h: BitString, a: nat, b: nat, c: nat)
    requires |h| == hb
  {
    UpdateHash(hb, h, c) == Hash3(hb, a, b, c)
  }

  lemma {:induction false} RollOn(hb: nat, input: seq<nat>, a: nat, h: BitString)
    requires TwoBytes(hb, input, a, h) && a + 2 < |input|
    ensures TwoBytes(hb, input, a + 1, UpdateHash(hb, h, input[a + 2]))
  {
    var h' := UpdateHash(hb, h, input[a + 2]);
    assert ThirdGives(hb, h, input[a], input[a + 1], input[a + 2]);
    var x, y, z := input[a], input[a + 1], input[a + 2];
    forall c: nat ensures ThirdGives(hb, h', y, z, c) {
      Rolls(hb, x, y, z, c);
    }
  }

  /** A byte as a hash value: the shift and the mask leave it alone. */
  function FirstHash(hb: nat, c: nat): (h: BitString)
    requires hb >= 8
    ensures |h| == hb
  {
    LowBits(c, 8) + Zeros(hb - 8)
  }

  lemma {:induction false} StartHash(hb: nat, input: seq<nat>, a: nat)
    requires hb >= 8 && a + 1 < |input|
    ensures TwoBytes(hb, input, a, UpdateHash(hb, FirstHash(hb, input[a]), input[a + 1]))
  {
    var z := UpdateHash(hb, Zeros(hb), input[a]);
    assert FirstHash(hb, input[a]) == z by {
      assert forall i :: 0 <= i < hb ==> FirstHash(hb, input[a])[i] == z[i];
    }
  }

  /** The dictionary: all strings in it start before position n, the last at top. */
  ghost predicate Dict(hb: nat, input: seq<nat>, ins: set<nat>, base: nat, head: seq<nat>, prev: seq<nat>, top: nat, n: int)
  {
    var linked := Chains(hb, input, ins, base, head, prev, top) && 0 !in ins;
    var last := top == 0 || (top < n && top + 2 < |input|);
    linked && last
  }

  /** What INSERT_STRING finds: the string last inserted with the same hash, if any. */
  ghost predicate Found(hb: nat, input: seq<nat>, ins: set<nat>, base: nat, str: nat, v: nat)
  {
    v == 0 || (v < str && base + str + 2 < |input| && Link(hb, input, ins, base, v, HashAt(hb, input, base + str)))
  }

  lemma {:induction false} InsertDict(hb: nat, input: seq<nat>, ins: set<nat>, base: nat, head: seq<nat>, prev: seq<nat>, top: nat, str: nat, h: nat)
    returns (ins': set<nat>, top': nat)
    requires Dict(hb, input, ins, base, head, prev, top, base + str) && base + str + 2 < |input| && (str > 0 || base == 0)
    requires h == HashAt(hb, input, base + str) < |head| && Aligned(base, |prev|)
    ensures Dict(hb, input, ins', base, head[h := str], prev[Slot(str, |prev|) := head[h]], top', base + str + 1)
    ensures Found(hb, input, ins', base, str, head[h]) && (str > 0 ==> top' == base + str)
  {
    var a := base + str;
    SlotOfIndex(base, str, |prev|);
    assert Link(hb, input, ins, base, head[h], h);
    if str > 0 {
      InsertKeeps(hb, input, ins, base, head, prev, top, a, h);
      ins', top' := ins + {a}, a;
    } else {
      InsertFirst(hb, input, ins, base, head, prev, top, h);
      ins', top' := ins, top;
    }
  }

  lemma {:induction false} HashInRange(hb: nat, input: seq<nat>, a: nat)
    requires a + 2 < |input|
    ensures HashAt(hb, input, a) < Pow2(hb)
  {
    ValBound(Hash3(hb, input[a], input[a + 1], input[a + 2]));
  }

  /** INSERT_STRING */
  method InsertString(hb: nat, window: array<nat>, head: array<nat>, prev: array<nat>, ins_h: BitString, str: nat,
                      ghost input: seq<nat>, ghost ins: set<nat>, ghost base: nat, ghost top: nat)
    returns (ins_h': BitString, match_head: nat, ghost ins': set<nat>, ghost top': nat)
    requires head != prev && prev != window && head != window && str + 2 < window.Length && base + str + 2 < |input|
    requires window[str + 2] == input[base + str + 2] && TwoBytes(hb, input, base + str, ins_h)
    requires Dict(hb, input, ins, base, head[..], prev[..], top, base + str) && (str > 0 || base == 0) && Aligned(base, prev.Length)
    modifies head, prev
    ensures Dict(hb, input, ins', base, head[..], prev[..], top', base + str + 1) && TwoBytes(hb, input, base + str + 1, ins_h')
    ensures Found(hb, input, ins', base, str, match_head) && (str > 0 ==> top' == base + str)
  {
    RollOn(hb, input, base + str, ins_h);
    assert ThirdGives(hb, ins_h, input[base + str], input[base + str + 1], input[base + str + 2]);
    HashInRange(hb, input, base + str);
    ins_h' := UpdateHash(hb, ins_h, window[str + 2]);
    var h := Val(ins_h');
    ins', top' := InsertDict(hb, input, ins, base, head[..], prev[..], top, str, h);
    ghost var head0: seq<nat>, prev0: seq<nat> := head[..], prev[..];
    match_head := head[h];
    SlotIsMod(str, prev.Length);
    prev[str % prev.Length] := match_head;
    head[h] := str;
    assert head[..] == head0[h := str] && prev[..] == prev0[Slot(str, |prev0|) := match_head];
  }

  /** ... in a window that holds the input. */
  method InsertIn(hb: nat, window: array<nat>, head: array<nat>, prev: array<nat>, ins_h: BitString, str: nat,
                  ghost input: seq<nat>, ghost ins: set<nat>, ghost base: nat, ghost top: nat, ghost strstart: nat, ghost lookahead: nat)
    returns (ins_h': BitString, match_head: nat, ghost ins': set<nat>, ghost top': nat)
    requires head != prev && prev != window && head != window && Window(window[..], input, base, strstart, lookahead)
    requires str + 2 < strstart + lookahead && TwoBytes(hb, input, base + str, ins_h)
    requires Dict(hb, input, ins, base, head[..], prev[..], top, base + str) && (str > 0 || base == 0) && Aligned(base, prev.Length)
    modifies head, prev
    ensures Dict(hb, input, ins', base, head[..], prev[..], top', base + str + 1) && TwoBytes(hb, input, base + str + 1, ins_h')
    ensures Found(hb, input, ins', base, str, match_head) && (str > 0 ==> top' == base + str)
  {
    assert window[..][str + 2] == input[base + (str + 2)];
    ins_h', match_head, ins', top' := InsertString(hb, window, head, prev, ins_h, str, input, ins, base, top);
  }

  method StartAt(hb: nat, window: array<nat>, str: nat, ghost input: seq<nat>, ghost base: nat, ghost strstart: nat, ghost lookahead: nat)
    returns (ins_h: BitString)
    requires hb >= 8 && Window(window[..], input, base, strstart, lookahead) && str + 1 < strstart + lookahead
    ensures TwoBytes(hb, input, base + str, ins_h)
  {
    ins_h := UpdateHash(hb, FirstHash(hb, window[str]), window[str + 1]);
    StartHash(hb, input, base + str);
    assert window[..][str] == input[base + str] && window[..][str + 1] == input[base + (str + 1)];
  }

  // ----- fill_window -----

  /** The state of the hash: up to two strings at the end wait for more input, and the hash
      is at hand when the string at strstart can be inserted. */
  ghost predicate Rolling(hb: nat, input: seq<nat>, base: nat, strstart: nat, lookahead: nat, insert: nat, ins_h: BitString)
  {
    var waiting := insert <= 2 && insert <= strstart && (insert > 0 ==> lookahead + insert < MIN_MATCH);
    var ready := |ins_h| == hb && (lookahead >= MIN_MATCH ==> TwoBytes(hb, input, base + strstart, ins_h));
    waiting && ready
  }

  /** Once there is input for them, the strings that waited are inserted. */
  method CatchUp(hb: nat, window: array<nat>, head: array<nat>, prev: array<nat>, strstart: nat, lookahead: nat, insert0: nat,
                 ghost input: seq<nat>, ghost ins0: set<nat>, ghost base: nat, ghost top0: nat)
    returns (ins_h: BitString, insert: nat, ghost ins: set<nat>, ghost top: nat)
    requires head != prev && prev != window && head != window && hb >= 8
    requires Window(window[..], input, base, strstart, lookahead) && Aligned(base, prev.Length) && (base > 0 ==> strstart > 2)
    requires Dict(hb, input, ins0, base, head[..], prev[..], top0, base + (strstart - insert0))
    requires insert0 <= 2 && insert0 <= strstart && lookahead + insert0 >= MIN_MATCH
    modifies head, prev
    ensures Dict(hb, input, ins, base, head[..], prev[..], top, base + (strstart - insert))
    ensures Rolling(hb, input, base, strstart, lookahead, insert, ins_h)
  {
    insert := insert0;
    ins, top := ins0, top0;
    var str: nat := strstart - insert;
    ins_h := StartAt(hb, window, str, input, base, strstart, lookahead);
    while insert > 0
      invariant insert <= 2 && str + insert == strstart && lookahead + insert >= MIN_MATCH
      invariant TwoBytes(hb, input, base + str, ins_h)
      invariant Dict(hb, input, ins, base, head[..], prev[..], top, base + str)
    {
      var was;
      ins_h, was, ins, top := InsertIn(hb, window, head, prev, ins_h, str, input, ins, base, top, strstart, lookahead);
      str := str + 1;
      insert := insert - 1;
      if lookahead + insert < MIN_MATCH {
        break;
      }
    }
  }

  /** The upper half of the window is moved down. */
  method MoveDown(window: array<nat>, wsize: nat, n: nat, ghost input: seq<nat>, ghost base: nat, strstart: nat, lookahead: nat)
    requires window.Length == 2 * wsize && Window(window[..], input, base, strstart, lookahead)
    requires strstart >= wsize && n == strstart + lookahead - wsize
    modifies window
    ensures Window(window[..], input, base + wsize, strstart - wsize, lookahead)
  {
    ghost var was := window[..];
    forall i | 0 <= i < n {
      window[i] := window[wsize + i];
    }
    forall i: nat | i < n ensures window[..][i] == input[base + wsize + i] {
      assert was[wsize + i] == input[base + (wsize + i)];
    }
  }

  /** read_buf: n more bytes of the caller's after the lookahead. */
  method ReadBuf(window: array<nat>, next_in: seq<nat>, n: nat, ghost input: seq<nat>, ghost base: nat, strstart: nat, lookahead: nat)
    requires Window(window[..], input, base, strstart, lookahead) && n <= |next_in| && strstart + lookahead + n <= window.Length
    requires forall i :: 0 <= i < |next_in| ==> next_in[i] < 256
    modifies window
    ensures Window(window[..], input + next_in[..n], base, strstart, lookahead + n)
  {
    ghost var was := window[..];
    var end := strstart + lookahead;
    forall i | 0 <= i < n {
      window[end + i] := next_in[i];
    }
    ghost var input' := input + next_in[..n];
    forall i: nat | i < end + n ensures window[..][i] == input'[base + i] {
      if i < end {
        assert was[i] == input[base + i];
      } else {
        assert window[end + (i - end)] == next_in[i - end];
      }
    }
  }

  /** A 32-bit index goes down with the window, and may wrap around. */
  function Down(m: Word, wsize: nat): Word
    requires wsize < 0x1_0000_0000
  {
    if m >= wsize then m - wsize else m - wsize + 0x1_0000_0000
  }

  /** Sliding keeps the distance of a match, even if its index wraps around. */
  lemma {:induction false} BackSlides(at: nat, m: Word, wsize: nat)
    requires wsize <= at < 0x1_0000_0000
    ensures Back(at - wsize, Down(m, wsize)) == Back(at, m)
  {
  }

  lemma {:induction false} DictMore(hb: nat, input: seq<nat>, input': seq<nat>, ins: set<nat>, base: nat, head: seq<nat>, prev: seq<nat>, top: nat, n: int, n': int)
    requires Dict(hb, input, ins, base, head, prev, top, n) && input <= input' && n <= n'
    ensures Dict(hb, input', ins, base, head, prev, top, n')
  {
    ReadKeeps(hb, input, input', ins, base, head, prev, top);
  }

  method SlideDictionary(hb: nat, head: array<nat>, prev: array<nat>, ghost input: seq<nat>, ghost ins: set<nat>, ghost base: nat, ghost top: nat, ghost n: int)
    requires head != prev && Dict(hb, input, ins, base, head[..], prev[..], top, n)
    modifies head, prev
    ensures Dict(hb, input, ins, base + prev.Length, head[..], prev[..], top, n)
  {
    ghost var head0: seq<nat>, prev0: seq<nat> := head[..], prev[..];
    SlideHash(head, prev);
    SlideKeeps(hb, input, ins, base, head0, prev0, top, head[..], prev[..]);
  }

  /** The window and the dictionary go down by wsize. */
  method SlideTables(hb: nat, window: array<nat>, head: array<nat>, prev: array<nat>, strstart: nat, lookahead: nat,
                     ghost input: seq<nat>, ghost ins: set<nat>, ghost base: nat, ghost top: nat, ghost n: int)
    requires head != prev && prev != window && head != window && window.Length == 2 * prev.Length && strstart >= prev.Length
    requires Window(window[..], input, base, strstart, lookahead) && Dict(hb, input, ins, base, head[..], prev[..], top, n)
    modifies window, head, prev
    ensures Window(window[..], input, base + prev.Length, strstart - prev.Length, lookahead)
    ensures Dict(hb, input, ins, base + prev.Length, head[..], prev[..], top, n)
  {
    SlideDictionary(hb, head, prev, input, ins, base, top, n);
    MoveDown(window, prev.Length, strstart + lookahead - prev.Length, input, base, strstart, lookahead);
  }

  /** n bytes are read, and the strings that waited for them are inserted. */
  method Refill(hb: nat, window: array<nat>, head: array<nat>, prev: array<nat>, next_in: seq<nat>, n: nat,
                strstart: nat, lookahead: nat, insert0: nat, ins_h0: BitString,
                ghost input: seq<nat>, ghost ins0: set<nat>, ghost base: nat, ghost top0: nat)
    returns (ins_h: BitString, insert: nat, ghost ins: set<nat>, ghost top: nat)
    requires head != prev && prev != window && head != window && hb >= 8 && strstart + lookahead + n <= window.Length && n <= |next_in|
    requires Window(window[..], input, base, strstart, lookahead) && Aligned(base, prev.Length) && (base > 0 ==> strstart > 2)
    requires Dict(hb, input, ins0, base, head[..], prev[..], top0, base + (strstart - insert0))
    requires Rolling(hb, input, base, strstart, lookahead, insert0, ins_h0) && forall i :: 0 <= i < |next_in| ==> next_in[i] < 256
    modifies window, head, prev
    ensures Window(window[..], input + next_in[..n], base, strstart, lookahead + n)
    ensures Dict(hb, input + next_in[..n], ins, base, head[..], prev[..], top, base + (strstart - insert))
    ensures Rolling(hb, input + next_in[..n], base, strstart, lookahead + n, insert, ins_h)
  {
    ins_h, insert, ins, top := ins_h0, insert0, ins0, top0;
    ReadBuf(window, next_in, n, input, base, strstart, lookahead);
    ghost var input' := input + next_in[..n];
    DictMore(hb, input, input', ins, base, head[..], prev[..], top, base + (strstart - insert0), base + (strstart - insert0));
    if lookahead + n + insert >= MIN_MATCH {
      ins_h, insert, ins, top := CatchUp(hb, window, head, prev, strstart, lookahead + n, insert, input', ins, base, top);
    }
  }
}
