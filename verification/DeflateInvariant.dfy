/**
 The invariant of `deflate_slow`: what the window, the dictionary, the undecided match and
 the symbols tallied so far have to do with the input.
 */
module DeflateInvariant {
  import opened Bits
  import opened CompressBlock
  import opened BlockCost
  import opened BlockRoundTrip
  import opened HashChains
  import opened LongestMatch
  import opened Dictionary
  import opened DeflateTokens

  /** The symbols of all blocks flushed. */
  function Flat(blocks: seq<seq<Sym>>): seq<Sym>
  {
    if blocks == [] then [] else Flat(blocks[..|blocks| - 1]) + blocks[|blocks| - 1]
  }

  /** The decision left over from the byte before: a match that may be taken, or none. */
  ghost predicate Pending(input: seq<nat>, base: nat, strstart: nat, wsize: nat, match_available: bool, match_start: Word, match_length: nat)
  {
    && 2 <= match_length <= MAX_MATCH && (!match_available ==> match_length == 2) && (match_available ==> strstart > 0)
    && (match_length >= MIN_MATCH ==> GoodMatch(input, base, strstart - 1, match_start, match_length, wsize))
  }

  /** What has been said: the blocks flushed reach to block_start, all symbols to n. */
  ghost predicate Written(blocks: seq<seq<Sym>>, syms: seq<Sym>, input: seq<nat>, flushed: int, n: int, wsize: nat)
  {
    && flushed >= 0 && n >= 0 && Told(Flat(blocks), input, flushed, wsize) && Told(Flat(blocks) + syms, input, n, wsize)
  }

  lemma {:induction false} MatchMore(input: seq<nat>, input': seq<nat>, base: nat, at: nat, m: Word, len: nat, wsize: nat)
    requires GoodMatch(input, base, at, m, len, wsize) && input <= input'
    ensures GoodMatch(input', base, at, m, len, wsize)
  {
    var a, b := base + at - Back(at, m), base + at;
    forall i: nat | i < len ensures SameAt(input', a, b, i) {
      assert SameAt(input, a, b, i);
    }
  }

  lemma {:induction false} MatchInside(input: seq<nat>, base: nat, at: nat, m: Word, len: nat, wsize: nat)
    requires GoodMatch(input, base, at, m, len, wsize) && len >= 1
    ensures base + at + len <= |input|
  {
    assert SameAt(input, base + at - Back(at, m), base + at, len - 1);
  }

  lemma {:induction false} MatchSlides(input: seq<nat>, base: nat, at: nat, m: Word, len: nat, wsize: nat)
    requires GoodMatch(input, base, at, m, len, wsize) && wsize <= at < 0x1_0000_0000
    ensures GoodMatch(input, base + wsize, at - wsize, Down(m, wsize), len, wsize)
  {
    BackSlides(at, m, wsize);
  }

  lemma {:induction false} WrittenMore(blocks: seq<seq<Sym>>, syms: seq<Sym>, input: seq<nat>, input': seq<nat>, flushed: int, n: int, wsize: nat)
    requires Written(blocks, syms, input, flushed, n, wsize) && input <= input'
    ensures Written(blocks, syms, input', flushed, n, wsize)
  {
    ToldMore(Flat(blocks), input, input', flushed, wsize);
    ToldMore(Flat(blocks) + syms, input, input', n, wsize);
  }

  /** The fields of deflate_state that matching uses, beside its tables. */
  datatype Fields = Fields(next_in: seq<nat>, strstart: nat, lookahead: nat, insert: nat, ins_h: BitString,
                           match_start: Word, match_length: nat, match_available: bool, block_start: int, buf: SymBuf)

  /** All input read, the position of the window in it, the strings inserted, the last of
      them, and the blocks flushed. */
  datatype Past = Past(input: seq<nat>, base: nat, ins: set<nat>, top: nat, blocks: seq<seq<Sym>>)

  ghost predicate Placed(f: Fields, g: Past, wsize: nat)
  {
    && Aligned(g.base, wsize) && (g.base > 0 ==> f.strstart >= wsize - MIN_LOOKAHEAD)
    && forall i :: 0 <= i < |f.next_in| ==> f.next_in[i] < 256
  }

  ghost predicate Undecided(f: Fields, g: Past, wsize: nat)
  {
    Pending(g.input, g.base, f.strstart, wsize, f.match_available, f.match_start, f.match_length)
  }

  /** Everything up to index n of the window has been tallied. */
  ghost predicate ToldTo(f: Fields, g: Past, wsize: nat, n: int)
  {
    Written(g.blocks, f.buf.syms, g.input, g.base + f.block_start, g.base + n, wsize)
  }

  /** The first index that has not been tallied. */
  ghost function Next(f: Fields): int { f.strstart - if f.match_available then 1 else 0 }

  /** The window holds the input around strstart. */
  ghost predicate Held(wsize: nat, window: seq<nat>, f: Fields, g: Past)
  {
    var placed := Placed(f, g, wsize);
    var same := Window(window, g.input, g.base, f.strstart, f.lookahead);
    placed && same
  }

  /** It is the turn of the string at index s, with `left` bytes from there on: the strings
      before it are in the dictionary, but for those that wait for more input. */
  ghost predicate Turn(hb: nat, head: seq<nat>, prev: seq<nat>, s: nat, left: nat, insert: nat, ins_h: BitString, g: Past)
  {
    var rolling := Rolling(hb, g.input, g.base, s, left, insert, ins_h);
    var linked := Dict(hb, g.input, g.ins, g.base, head, prev, g.top, g.base + (s - insert));
    rolling && linked
  }

  ghost predicate Inv(hb: nat, wsize: nat, window: seq<nat>, head: seq<nat>, prev: seq<nat>, f: Fields, g: Past)
  {
    var held := Held(wsize, window, f, g);
    var known := Turn(hb, head, prev, f.strstart, f.lookahead, f.insert, f.ins_h, g);
    var said := Undecided(f, g, wsize) && ToldTo(f, g, wsize, Next(f));
    held && known && said
  }

  ghost function Slidden(f: Fields, wsize: nat): Fields
    requires f.strstart >= wsize && wsize < 0x1_0000_0000
  {
    f.(match_start := Down(f.match_start, wsize), strstart := f.strstart - wsize, block_start := f.block_start - wsize)
  }

  /** The fields that go down with the window; no string waits before its start. */
  function Moved(f: Fields, wsize: nat): Fields
    requires f.strstart >= wsize && wsize < 0x1_0000_0000
  {
    f.(match_start := Down(f.match_start, wsize), strstart := f.strstart - wsize, block_start := f.block_start - wsize,
       insert := if f.insert > f.strstart - wsize then f.strstart - wsize else f.insert)
  }

  lemma {:induction false} SlideFields(f: Fields, g: Past, wsize: nat)
    requires f.strstart >= wsize + MaxDist(wsize) && 512 <= wsize <= 32768 && f.strstart < 0x1_0000_0000
    requires Placed(f, g, wsize) && Undecided(f, g, wsize) && ToldTo(f, g, wsize, Next(f))
    ensures var f', g' := Slidden(f, wsize), g.(base := g.base + wsize);
            Placed(f', g', wsize) && Undecided(f', g', wsize) && ToldTo(f', g', wsize, Next(f'))
  {
    if f.match_length >= MIN_MATCH {
      MatchSlides(g.input, g.base, f.strstart - 1, f.match_start, f.match_length, wsize);
    }
    assert Aligned(g.base + wsize, wsize);
  }

  lemma {:induction false} UndecidedMore(f: Fields, g: Past, wsize: nat, input': seq<nat>)
    requires Undecided(f, g, wsize) && g.input <= input'
    ensures Undecided(f, g.(input := input'), wsize)
  {
    if f.match_length >= MIN_MATCH {
      MatchMore(g.input, input', g.base, f.strstart - 1, f.match_start, f.match_length, wsize);
    }
  }

  lemma {:induction false} AllInput(input: seq<nat>, next_in: seq<nat>, n: nat)
    requires n <= |next_in|
    ensures input <= input + next_in[..n] && (input + next_in[..n]) + next_in[n..] == input + next_in
  {
    assert next_in == next_in[..n] + next_in[n..];
  }

  lemma {:induction false} MoreInput(f: Fields, g: Past, wsize: nat, n: nat)
    requires n <= |f.next_in| && Undecided(f, g, wsize) && ToldTo(f, g, wsize, Next(f))
    ensures var f', g' := f.(next_in := f.next_in[n..]), g.(input := g.input + f.next_in[..n]);
            && Undecided(f', g', wsize) && ToldTo(f', g', wsize, Next(f'))
            && g'.input + f'.next_in == g.input + f.next_in && g.input <= g'.input
  {
    var input' := g.input + f.next_in[..n];
    AllInput(g.input, f.next_in, n);
    UndecidedMore(f, g, wsize, input');
    WrittenMore(g.blocks, f.buf.syms, g.input, input', g.base + f.block_start, g.base + Next(f), wsize);
  }

  lemma {:induction false} InvParts(hb: nat, wsize: nat, window: seq<nat>, head: seq<nat>, prev: seq<nat>, f: Fields, g: Past)
    requires Inv(hb, wsize, window, head, prev, f, g)
    ensures Window(window, g.input, g.base, f.strstart, f.lookahead) && f.strstart + f.lookahead <= |window|
    ensures Dict(hb, g.input, g.ins, g.base, head, prev, g.top, g.base + (f.strstart - f.insert))
    ensures Rolling(hb, g.input, g.base, f.strstart, f.lookahead, f.insert, f.ins_h)
    ensures Placed(f, g, wsize) && Undecided(f, g, wsize) && ToldTo(f, g, wsize, Next(f))
  {
  }

  /** Sliding keeps the invariant. */
  lemma {:induction false} SlideInv(hb: nat, wsize: nat, f: Fields, g: Past, window': seq<nat>, head': seq<nat>, prev': seq<nat>)
    requires f.strstart >= wsize + MaxDist(wsize) && 512 <= wsize <= 32768 && f.strstart < 0x1_0000_0000
    requires Placed(f, g, wsize) && Undecided(f, g, wsize) && ToldTo(f, g, wsize, Next(f))
    requires Rolling(hb, g.input, g.base, f.strstart, f.lookahead, f.insert, f.ins_h)
    requires Window(window', g.input, g.base + wsize, f.strstart - wsize, f.lookahead)
    requires Dict(hb, g.input, g.ins, g.base + wsize, head', prev', g.top, g.base + (f.strstart - f.insert))
    ensures Moved(f, wsize) == Slidden(f, wsize) && Inv(hb, wsize, window', head', prev', Slidden(f, wsize), g.(base := g.base + wsize))
  {
    var f', g' := Slidden(f, wsize), g.(base := g.base + wsize);
    SlideFields(f, g, wsize);
    RollingSlides(hb, g.input, g.base, f.strstart, f.lookahead, f.insert, f.ins_h, wsize);
    assert g'.base + (f'.strstart - f'.insert) == g.base + (f.strstart - f.insert);
  }

  lemma {:induction false} RollingSlides(hb: nat, input: seq<nat>, base: nat, strstart: nat, lookahead: nat, insert: nat, ins_h: BitString, wsize: nat)
    requires Rolling(hb, input, base, strstart, lookahead, insert, ins_h) && strstart >= wsize + 2
    ensures Rolling(hb, input, base + wsize, strstart - wsize, lookahead, insert, ins_h)
  {
    assert (base + wsize) + (strstart - wsize) == base + strstart;
  }

  /** Reading keeps it. */
  lemma {:induction false} ReadInv(hb: nat, wsize: nat, window: seq<nat>, head: seq<nat>, prev: seq<nat>, f: Fields, g: Past,
                                   window': seq<nat>, head': seq<nat>, prev': seq<nat>, n: nat, f': Fields, g': Past)
    requires Inv(hb, wsize, window, head, prev, f, g) && n <= |f.next_in|
    requires f' == f.(next_in := f.next_in[n..], lookahead := f.lookahead + n, ins_h := f'.ins_h, insert := f'.insert)
    requires g' == g.(input := g.input + f.next_in[..n], ins := g'.ins, top := g'.top)
    requires Window(window', g'.input, g.base, f.strstart, f'.lookahead)
    requires Rolling(hb, g'.input, g.base, f.strstart, f'.lookahead, f'.insert, f'.ins_h)
    requires Dict(hb, g'.input, g'.ins, g.base, head', prev', g'.top, g.base + (f.strstart - f'.insert))
    ensures Inv(hb, wsize, window', head', prev', f', g') && g'.input + f'.next_in == g.input + f.next_in
  {
    MoreInput(f, g, wsize, n);
  }

  lemma {:induction false} GiveInv(hb: nat, wsize: nat, window: seq<nat>, head: seq<nat>, prev: seq<nat>, f: Fields, g: Past, more: seq<nat>)
    requires Inv(hb, wsize, window, head, prev, f, g) && forall i :: 0 <= i < |more| ==> more[i] < 256
    ensures Inv(hb, wsize, window, head, prev, f.(next_in := f.next_in + more), g)
    ensures g.input + (f.next_in + more) == g.input + f.next_in + more
  {
    assert Placed(f.(next_in := f.next_in + more), g, wsize);
  }

  // ----- one round of deflate_slow -----

  /** In the middle of a round: the string at strstart has had its turn. */
  ghost predicate Mid(hb: nat, wsize: nat, window: seq<nat>, head: seq<nat>, prev: seq<nat>, f: Fields, g: Past)
  {
    var held := Held(wsize, window, f, g) && f.lookahead >= 1;
    var known := f.lookahead >= 1 && Turn(hb, head, prev, f.strstart + 1, f.lookahead - 1, f.insert, f.ins_h, g);
    held && known
  }

  /** ... and what the bytes before it have left undecided. */
  ghost predicate MidRound(hb: nat, wsize: nat, window: seq<nat>, head: seq<nat>, prev: seq<nat>, f: Fields, g: Past)
  {
    var mid := Mid(hb, wsize, window, head, prev, f, g);
    var said := Undecided(f, g, wsize) && ToldTo(f, g, wsize, Next(f));
    mid && said
  }

  /** With less than three bytes there is nothing to insert. */
  lemma {:induction false} SkipString(hb: nat, head: seq<nat>, prev: seq<nat>, s: nat, left: nat, insert: nat, ins_h: BitString, g: Past)
    requires Turn(hb, head, prev, s, left, insert, ins_h, g) && 1 <= left < MIN_MATCH
    ensures Turn(hb, head, prev, s + 1, left - 1, insert, ins_h, g)
  {
  }

  lemma {:induction false} HereMid(hb: nat, wsize: nat, window: seq<nat>, head0: seq<nat>, prev0: seq<nat>, f: Fields, g: Past,
                                   head: seq<nat>, prev: seq<nat>, f': Fields, g': Past)
    requires Inv(hb, wsize, window, head0, prev0, f, g) && f.lookahead >= 1
    requires f' == f.(ins_h := f'.ins_h) && g' == g.(ins := g'.ins, top := g'.top)
    requires Turn(hb, head, prev, f.strstart + 1, f.lookahead - 1, f.insert, f'.ins_h, g')
    ensures MidRound(hb, wsize, window, head, prev, f', g')
  {
  }

  lemma {:induction false} NextMid(hb: nat, wsize: nat, window: seq<nat>, head0: seq<nat>, prev0: seq<nat>, f: Fields, g: Past,
                                   head: seq<nat>, prev: seq<nat>, f': Fields, g': Past)
    requires Mid(hb, wsize, window, head0, prev0, f, g) && f.lookahead >= 2
    requires f' == f.(strstart := f.strstart + 1, lookahead := f.lookahead - 1, ins_h := f'.ins_h) && g' == g.(ins := g'.ins, top := g'.top)
    requires Turn(hb, head, prev, f.strstart + 2, f.lookahead - 2, f.insert, f'.ins_h, g')
    ensures Mid(hb, wsize, window, head, prev, f', g')
  {
  }

  /** Symbols and blocks have nothing to do with the window and the dictionary. */
  lemma {:induction false} SymsOnly(hb: nat, wsize: nat, window: seq<nat>, head: seq<nat>, prev: seq<nat>, f: Fields, g: Past, f': Fields, g': Past)
    requires Mid(hb, wsize, window, head, prev, f, g)
    requires f' == f.(buf := f'.buf, block_start := f'.block_start) && g' == g.(blocks := g'.blocks)
    ensures Mid(hb, wsize, window, head, prev, f', g')
  {
  }

  /** The match found at strstart, if it counts. */
  ghost predicate NewMatch(f: Fields, g: Past, wsize: nat, ms: Word, ml: nat)
  {
    2 <= ml <= MAX_MATCH && (ml >= MIN_MATCH ==> GoodMatch(g.input, g.base, f.strstart, ms, ml, wsize))
  }

  /** On to the next byte, which is left undecided. */
  function Advanced(f: Fields, ms: Word, ml: nat): Fields
    requires f.lookahead >= 1
  {
    f.(strstart := f.strstart + 1, lookahead := f.lookahead - 1, match_available := true, match_start := ms, match_length := ml)
  }

  lemma {:induction false} AdvanceInv(hb: nat, wsize: nat, window: seq<nat>, head: seq<nat>, prev: seq<nat>, f: Fields, g: Past, ms: Word, ml: nat)
    requires Mid(hb, wsize, window, head, prev, f, g) && f.lookahead >= 1 && ToldTo(f, g, wsize, f.strstart) && NewMatch(f, g, wsize, ms, ml)
    ensures Inv(hb, wsize, window, head, prev, Advanced(f, ms, ml), g)
  {
  }

  // ----- symbols and blocks -----

  /** The pending byte as a literal. */
  lemma {:induction false} LiteralTold(f: Fields, g: Past, wsize: nat, c: nat)
    requires ToldTo(f, g, wsize, f.strstart - 1) && f.strstart >= 1 && g.base + f.strstart <= |g.input| && c == g.input[g.base + f.strstart - 1] < 256
    ensures Written(g.blocks, f.buf.syms + [Sym(0, c)], g.input, g.base + f.block_start, g.base + f.strstart, wsize)
  {
    ToldLiteral(Flat(g.blocks) + f.buf.syms, g.input, g.base + f.strstart - 1, wsize);
    assert Flat(g.blocks) + f.buf.syms + [Sym(0, c)] == Flat(g.blocks) + (f.buf.syms + [Sym(0, c)]);
  }

  lemma {:induction false} PendingByte(wsize: nat, window: seq<nat>, f: Fields, g: Past)
    requires Held(wsize, window, f, g) && Undecided(f, g, wsize) && f.match_available
    ensures 1 <= f.strstart <= |window| && g.base + f.strstart <= |g.input|
    ensures window[f.strstart - 1] == g.input[g.base + f.strstart - 1] < 256
  {
    assert window[f.strstart - 1] == g.input[g.base + (f.strstart - 1)];
  }

  /** The pending match. */
  lemma {:induction false} MatchTold(f: Fields, g: Past, wsize: nat)
    requires ToldTo(f, g, wsize, f.strstart - 1) && Undecided(f, g, wsize) && f.match_length >= MIN_MATCH
    ensures f.strstart >= 1 && g.base + (f.strstart - 1) + f.match_length <= |g.input|
    ensures Written(g.blocks, f.buf.syms + [Sym(Back(f.strstart - 1, f.match_start), f.match_length - MIN_MATCH)], g.input,
                    g.base + f.block_start, g.base + (f.strstart - 1 + f.match_length), wsize)
  {
    var d := Back(f.strstart - 1, f.match_start);
    var s := Sym(d, f.match_length - MIN_MATCH);
    ToldMatch(Flat(g.blocks) + f.buf.syms, g.input, g.base + (f.strstart - 1), wsize, d, f.match_length);
    assert Flat(g.blocks) + f.buf.syms + [s] == Flat(g.blocks) + (f.buf.syms + [s]);
  }

  function Flushed(f: Fields): Fields { f.(buf := EmptyBuf(), block_start := f.strstart) }

  /** Flushing a block: what was buffered is now in the blocks. */
  lemma {:induction false} FlushTold(f: Fields, g: Past, wsize: nat)
    requires ToldTo(f, g, wsize, f.strstart)
    ensures ToldTo(Flushed(f), g.(blocks := g.blocks + [f.buf.syms]), wsize, f.strstart)
  {
    FlatMore(g.blocks, f.buf.syms);
    WrittenBlock(g.blocks, f.buf.syms, g.input, g.base + f.block_start, g.base + f.strstart, wsize, g.blocks + [f.buf.syms]);
  }

  lemma {:induction false} FlatMore(blocks: seq<seq<Sym>>, syms: seq<Sym>)
    ensures Flat(blocks + [syms]) == Flat(blocks) + syms
  {
    assert (blocks + [syms])[..|blocks|] == blocks;
  }

  lemma {:induction false} WrittenBlock(blocks: seq<seq<Sym>>, syms: seq<Sym>, input: seq<nat>, flushed: int, n: int, wsize: nat, blocks': seq<seq<Sym>>)
    requires Written(blocks, syms, input, flushed, n, wsize) && Flat(blocks') == Flat(blocks) + syms
    ensures Written(blocks', [], input, n, n, wsize)
  {
    assert Flat(blocks') + [] == Flat(blocks');
  }

  lemma {:induction false} ExpandGrows(out: seq<nat>, syms: seq<Sym>)
    requires InReach(|out|, syms)
    ensures out <= Expand(out, syms)
    decreases |syms|
  {
    if syms != [] {
      ExpandGrows(Grown(out, syms[0]), syms[1..]);
    }
  }

  /** The bytes between block_start and strstart are what the buffered symbols stand for, so
      that the block may as well be stored. */
  lemma {:induction false} BlockBytes(f: Fields, g: Past, wsize: nat, window: seq<nat>)
    requires ToldTo(f, g, wsize, f.strstart) && Window(window, g.input, g.base, f.strstart, f.lookahead)
    ensures f.block_start <= f.strstart && InReach(g.base + f.block_start, f.buf.syms)
    ensures f.block_start >= 0 ==>
              Expand(g.input[..g.base + f.block_start], f.buf.syms) == g.input[..g.base + f.block_start] + window[f.block_start..f.strstart]
  {
    var m, n := g.base + f.block_start, g.base + f.strstart;
    ToldSince(Flat(g.blocks), f.buf.syms, g.input, m, n, wsize);
    ExpandGrows(g.input[..m], f.buf.syms);
    if f.block_start >= 0 {
      WindowPart(window, g.input, g.base, f.block_start, f.strstart, f.lookahead);
    }
  }

  /** Part of the window follows in the input what comes before it. */
  lemma {:induction false} WindowPart(window: seq<nat>, input: seq<nat>, base: nat, from: nat, strstart: nat, lookahead: nat)
    requires Window(window, input, base, strstart, lookahead) && from <= strstart
    ensures base + strstart <= |input| && strstart <= |window|
    ensures input[..base + strstart] == input[..base + from] + window[from..strstart]
  {
    var m, n := base + from, base + strstart;
    forall i | 0 <= i < n - m ensures window[from..strstart][i] == input[m..n][i] {
      assert window[from + i] == input[base + (from + i)];
    }
    assert input[..m] + input[m..n] == input[..n];
  }

  // ----- taking a match -----

  /** A pending match lies within the lookahead. */
  lemma {:induction false} MatchFits(wsize: nat, window: seq<nat>, f: Fields, g: Past)
    requires Held(wsize, window, f, g) && g.base + (f.strstart - 1) + f.match_length <= |g.input|
    ensures f.match_length <= f.lookahead + 1
  {
  }

  /** After the match: on to the byte that follows it. */
  function Taken(f: Fields, buf: SymBuf): Fields
    requires f.lookahead >= 1
  {
    f.(strstart := f.strstart + 1, lookahead := f.lookahead - 1, match_available := false, match_length := 2, buf := buf)
  }

  lemma {:induction false} TakenInv(hb: nat, wsize: nat, window: seq<nat>, head: seq<nat>, prev: seq<nat>, f: Fields, g: Past, f1: Fields, f2: Fields, g2: Past)
    requires f.match_length >= MIN_MATCH && f.lookahead >= f.match_length - 1
    requires ToldTo(f1, g, wsize, f.strstart - 1 + f.match_length) && f1 == f.(buf := f1.buf)
    requires f2 == f.(strstart := f.strstart + (f.match_length - 2), lookahead := f.lookahead - (f.match_length - 2), ins_h := f2.ins_h)
    requires g2 == g.(ins := g2.ins, top := g2.top) && Mid(hb, wsize, window, head, prev, f2, g2)
    ensures Inv(hb, wsize, window, head, prev, Taken(f2, f1.buf), g2)
  {
    var f' := Taken(f2, f1.buf);
    assert Held(wsize, window, f', g2);
    assert Undecided(f', g2, wsize);
    assert ToldTo(f', g2, wsize, Next(f'));
  }

  /** Flushing keeps the invariant when no byte is pending. */
  lemma {:induction false} FlushInv(hb: nat, wsize: nat, window: seq<nat>, head: seq<nat>, prev: seq<nat>, f: Fields, g: Past)
    requires Inv(hb, wsize, window, head, prev, f, g) && !f.match_available
    ensures Inv(hb, wsize, window, head, prev, Flushed(f), g.(blocks := g.blocks + [f.buf.syms]))
  {
    FlushTold(f, g, wsize);
  }

  // ----- the end -----

  /** The lookahead is inside the window. */
  lemma {:induction false} Room(wsize: nat, window: seq<nat>, f: Fields, g: Past)
    requires Held(wsize, window, f, g)
    ensures f.strstart + f.lookahead <= |window|
  {
  }

  /** No match is pending when there is no lookahead. */
  lemma {:induction false} NoMatchAtEnd(wsize: nat, window: seq<nat>, f: Fields, g: Past)
    requires Held(wsize, window, f, g) && Undecided(f, g, wsize) && f.lookahead == 0
    ensures f.match_length == 2
  {
    if f.match_length >= MIN_MATCH {
      MatchInside(g.input, g.base, f.strstart - 1, f.match_start, f.match_length, wsize);
    }
  }

  /** The end of the input: nothing is pending, and the last two strings wait to be inserted. */
  lemma {:induction false} EndInv(hb: nat, wsize: nat, window: seq<nat>, head: seq<nat>, prev: seq<nat>, f: Fields, g: Past, last: Fields, insert: nat)
    requires Inv(hb, wsize, window, head, prev, f, g) && f.lookahead == 0
    requires last == f.(buf := last.buf, match_available := false) && ToldTo(last, g, wsize, f.strstart)
    requires insert == if f.strstart < MIN_MATCH - 1 then f.strstart else MIN_MATCH - 1
    ensures Inv(hb, wsize, window, head, prev, last.(insert := insert), g)
  {
    var f' := last.(insert := insert);
    NoMatchAtEnd(wsize, window, f, g);
    assert Held(wsize, window, f', g);
    assert Turn(hb, head, prev, f'.strstart, f'.lookahead, f'.insert, f'.ins_h, g);
    assert Undecided(f', g, wsize);
  }

  /** The symbols stand for the input up to strstart, less the pending byte. */
  ghost predicate StandsFor(f: Fields, g: Past)
  {
    && InReach(0, Flat(g.blocks) + f.buf.syms) && 0 <= g.base + Next(f) <= |g.input|
    && Expand([], Flat(g.blocks) + f.buf.syms) == g.input[..g.base + Next(f)]
  }

  lemma {:induction false} SaysSo(hb: nat, wsize: nat, window: seq<nat>, head: seq<nat>, prev: seq<nat>, f: Fields, g: Past)
    requires Inv(hb, wsize, window, head, prev, f, g)
    ensures StandsFor(f, g)
  {
  }

  lemma {:induction false} AllTold(hb: nat, wsize: nat, window: seq<nat>, head: seq<nat>, prev: seq<nat>, f: Fields, g: Past)
    requires Inv(hb, wsize, window, head, prev, f, g) && f.lookahead == 0 && !f.match_available && f.buf.syms == [] && f.next_in == []
    ensures InReach(0, Flat(g.blocks)) && Expand([], Flat(g.blocks)) == g.input + f.next_in
  {
    assert Flat(g.blocks) + [] == Flat(g.blocks);
    assert g.base + f.strstart == |g.input|;
    assert g.input[..|g.input|] == g.input && g.input + [] == g.input;
  }
}
