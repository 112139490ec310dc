/**
 `deflate_slow` of deflate.c with `fill_window`: lazy matching over a sliding window.
 Whatever the calls, the pieces of input and the stops for lack of output room, the
 symbols tallied stand for the input up to strstart, less the one byte that may be pending.
 */
module DeflateSlow {
  import opened Bits
  import opened BitWriter
  import opened CompressBlock
  import opened BlockCost
  import opened BlockRoundTrip
  import opened HashChains
  import opened LongestMatch
  import opened Dictionary
  import opened DeflateTokens
  import opened DeflateInvariant
  import opened DeflateOutput
  import BlockWriter
  import StreamWriter

  const TOO_FAR := 4096

  datatype BlockState = NeedMore | BlockDone | FinishStarted | FinishDone

  datatype Flush = NoFlush | SomeFlush | Finish

  /** The tables of a window of size prev.Length. */
  ghost predicate Tables(hb: nat, window: array<nat>, head: array<nat>, prev: array<nat>)
  {
    var sizes := hb >= 8 && 512 <= prev.Length <= 32768 && window.Length == 2 * prev.Length && head.Length == Pow2(hb);
    var apart := window != head && window != prev && head != prev;
    sizes && apart
  }

  method Slide(hb: nat, wsize: nat, window: array<nat>, head: array<nat>, prev: array<nat>, f: Fields, ghost g: Past) returns (f': Fields)
    requires Tables(hb, window, head, prev) && wsize == prev.Length && Inv(hb, wsize, window[..], head[..], prev[..], f, g)
    requires f.strstart >= wsize + MaxDist(wsize)
    modifies window, head, prev
    ensures f' == Slidden(f, wsize) && Inv(hb, wsize, window[..], head[..], prev[..], f', g.(base := g.base + wsize))
  {
    ghost var w0: seq<nat>, h0: seq<nat>, p0: seq<nat> := window[..], head[..], prev[..];
    InvParts(hb, wsize, w0, h0, p0, f, g);
    SlideTables(hb, window, head, prev, f.strstart, f.lookahead, g.input, g.ins, g.base, g.top, g.base + (f.strstart - f.insert));
    SlideInv(hb, wsize, f, g, window[..], head[..], prev[..]);
    f' := Moved(f, wsize);
  }

  method Read(hb: nat, window: array<nat>, head: array<nat>, prev: array<nat>, f: Fields, ghost g: Past, n: nat) returns (f': Fields, ghost g': Past)
    requires Tables(hb, window, head, prev) && Inv(hb, prev.Length, window[..], head[..], prev[..], f, g)
    requires n <= |f.next_in| && f.strstart + f.lookahead + n <= 2 * prev.Length
    modifies window, head, prev
    ensures f' == f.(next_in := f.next_in[n..], lookahead := f.lookahead + n, ins_h := f'.ins_h, insert := f'.insert)
    ensures g' == g.(input := g.input + f.next_in[..n], ins := g'.ins, top := g'.top)
    ensures Inv(hb, prev.Length, window[..], head[..], prev[..], f', g') && g'.input + f'.next_in == g.input + f.next_in
  {
    ghost var w0: seq<nat>, h0: seq<nat>, p0: seq<nat> := window[..], head[..], prev[..];
    var ins_h, insert;
    ghost var ins, top;
    ins_h, insert, ins, top :=
      Refill(hb, window, head, prev, f.next_in, n, f.strstart, f.lookahead, f.insert, f.ins_h, g.input, g.ins, g.base, g.top);
    f' := f.(next_in := f.next_in[n..], lookahead := f.lookahead + n, ins_h := ins_h, insert := insert);
    g' := g.(input := g.input + f.next_in[..n], ins := ins, top := top);
    ReadInv(hb, prev.Length, w0, h0, p0, f, g, window[..], head[..], prev[..], n, f', g');
  }

  /** INSERT_STRING at the index whose turn it is; hash_head is where its chain leads. */
  method AddString(hb: nat, window: array<nat>, head: array<nat>, prev: array<nat>, s: nat, left: nat, ins_h: BitString, ghost f: Fields, ghost g: Past)
    returns (ins_h': BitString, hash_head: nat, ghost g': Past)
    requires Tables(hb, window, head, prev) && Held(prev.Length, window[..], f, g)
    requires Turn(hb, head[..], prev[..], s, left, f.insert, ins_h, g) && left >= MIN_MATCH && s + left == f.strstart + f.lookahead && s >= f.strstart
    modifies head, prev
    ensures Turn(hb, head[..], prev[..], s + 1, left - 1, f.insert, ins_h', g') && g' == g.(ins := g'.ins, top := g'.top)
    ensures Found(hb, g.input, g'.ins, g.base, s, hash_head) && (s > 0 ==> g'.top == g.base + s)
  {
    ghost var ins, top;
    ins_h', hash_head, ins, top := InsertIn(hb, window, head, prev, ins_h, s, g.input, g.ins, g.base, g.top, f.strstart, f.lookahead);
    g' := g.(ins := ins, top := top);
  }

  /** The string at strstart is inserted. */
  method AddHere(hb: nat, window: array<nat>, head: array<nat>, prev: array<nat>, f: Fields, ghost g: Past)
    returns (f': Fields, ghost g': Past, hash_head: nat)
    requires Tables(hb, window, head, prev) && Inv(hb, prev.Length, window[..], head[..], prev[..], f, g) && f.lookahead >= MIN_MATCH
    modifies head, prev
    ensures MidRound(hb, prev.Length, window[..], head[..], prev[..], f', g')
    ensures f' == f.(ins_h := f'.ins_h) && g' == g.(ins := g'.ins, top := g'.top)
    ensures Found(hb, g.input, g'.ins, g.base, f.strstart, hash_head) && (hash_head != 0 ==> g'.top == g.base + f.strstart)
  {
    ghost var h0: seq<nat>, p0: seq<nat> := head[..], prev[..];
    var ins_h;
    ins_h, hash_head, g' := AddString(hb, window, head, prev, f.strstart, f.lookahead, f.ins_h, f, g);
    f' := f.(ins_h := ins_h);
    FoundLater(hb, g.input, g'.ins, g.base, f.strstart, hash_head);
    HereMid(hb, prev.Length, window[..], h0, p0, f, g, head[..], prev[..], f', g');
  }

  /** A place that is found comes before the string. */
  lemma {:induction false} FoundLater(hb: nat, input: seq<nat>, ins: set<nat>, base: nat, s: nat, hash_head: nat)
    requires Found(hb, input, ins, base, s, hash_head)
    ensures hash_head != 0 ==> s > 0
  {
  }

  /** The string at strstart has its turn. */
  method InsertHere(hb: nat, window: array<nat>, head: array<nat>, prev: array<nat>, f: Fields, ghost g: Past)
    returns (f': Fields, ghost g': Past, hash_head: nat)
    requires Tables(hb, window, head, prev) && Inv(hb, prev.Length, window[..], head[..], prev[..], f, g) && f.lookahead >= 1
    modifies head, prev
    ensures MidRound(hb, prev.Length, window[..], head[..], prev[..], f', g')
    ensures f' == f.(ins_h := f'.ins_h) && g' == g.(ins := g'.ins, top := g'.top)
    ensures hash_head != 0 ==>
              f.lookahead >= MIN_MATCH && g'.top == g.base + f.strstart && Found(hb, g.input, g'.ins, g.base, f.strstart, hash_head)
  {
    if f.lookahead >= MIN_MATCH {
      f', g', hash_head := AddHere(hb, window, head, prev, f, g);
    } else {
      f', g', hash_head := f, g, 0;
      SkipString(hb, head[..], prev[..], f.strstart, f.lookahead, f.insert, f.ins_h, g);
      HereMid(hb, prev.Length, window[..], head[..], prev[..], f, g, head[..], prev[..], f', g');
    }
  }

  /** What guides the search: configuration_table and the strategy; the size of the symbol
      buffer; and the constant tables and trees that blocks are coded with. */
  datatype Config = Config(max_chain: nat, good_match: nat, nice_match: nat, max_lazy: nat, filtered: bool, fixed: bool,
                           sym_end: nat, coding: BlockWriter.Coding)

  /** The search for a match at strstart; short or far matches do not count. */
  method FindMatch(hb: nat, window: array<nat>, head: array<nat>, prev: array<nat>, f: Fields, ghost g: Past, c: Config, hash_head: nat)
    returns (ml: nat, ms: Word)
    requires Tables(hb, window, head, prev) && Mid(hb, prev.Length, window[..], head[..], prev[..], f, g) && c.max_chain >= 4
    requires 2 <= f.match_length <= MAX_MATCH && f.strstart + MIN_LOOKAHEAD <= window.Length
    requires hash_head != 0 ==>
               f.lookahead >= MIN_MATCH && g.top == g.base + f.strstart && Found(hb, g.input, g.ins, g.base, f.strstart, hash_head)
    ensures 2 <= ml <= MAX_MATCH && (ml > f.match_length ==> GoodMatch(g.input, g.base, f.strstart, ms, ml, prev.Length))
  {
    ml, ms := 2, f.match_start;
    if hash_head != 0 && f.match_length < c.max_lazy && f.strstart - hash_head <= MaxDist(prev.Length) {
      ghost var best, n;
      ml, ms, best, n := Longest(hb, g.input, g.ins, g.base, head[..], prev, window, f.strstart, f.lookahead, hash_head, f.match_length,
                                 f.match_start, c.max_chain, c.good_match, c.nice_match);
      if ml <= 5 && (c.filtered || (ml == MIN_MATCH && Back(f.strstart, ms) > TOO_FAR)) {
        ml := 2;
      }
    }
  }

  /** The strings inside a match that is taken are inserted, as far as there is input. */
  method InsertRest(hb: nat, window: array<nat>, head: array<nat>, prev: array<nat>, f: Fields, ghost g: Past, count: nat)
    returns (f': Fields, ghost g': Past)
    requires Tables(hb, window, head, prev) && Mid(hb, prev.Length, window[..], head[..], prev[..], f, g)
    requires f.lookahead >= count + 1
    modifies head, prev
    ensures Mid(hb, prev.Length, window[..], head[..], prev[..], f', g')
    ensures f' == f.(strstart := f.strstart + count, lookahead := f.lookahead - count, ins_h := f'.ins_h) && g' == g.(ins := g'.ins, top := g'.top)
  {
    f', g' := f, g;
    var left: nat := count;
    while left > 0
      invariant 0 <= left <= count && Mid(hb, prev.Length, window[..], head[..], prev[..], f', g')
      invariant f' == f.(strstart := f.strstart + (count - left), lookahead := f.lookahead - (count - left), ins_h := f'.ins_h)
      invariant g' == g.(ins := g'.ins, top := g'.top)
    {
      f', g' := InsertNext(hb, window, head, prev, f', g');
      left := left - 1;
    }
  }

  /** One string further; max_insert is the last index with three bytes. */
  method InsertNext(hb: nat, window: array<nat>, head: array<nat>, prev: array<nat>, f: Fields, ghost g: Past) returns (f': Fields, ghost g': Past)
    requires Tables(hb, window, head, prev) && Mid(hb, prev.Length, window[..], head[..], prev[..], f, g) && f.lookahead >= 2
    modifies head, prev
    ensures Mid(hb, prev.Length, window[..], head[..], prev[..], f', g')
    ensures f' == f.(strstart := f.strstart + 1, lookahead := f.lookahead - 1, ins_h := f'.ins_h) && g' == g.(ins := g'.ins, top := g'.top)
  {
    ghost var w0: seq<nat>, h0: seq<nat>, p0: seq<nat> := window[..], head[..], prev[..];
    var max_insert := f.strstart + f.lookahead - MIN_MATCH;
    f', g' := f.(strstart := f.strstart + 1, lookahead := f.lookahead - 1), g;
    if f'.strstart <= max_insert {
      var ins_h, was;
      ins_h, was, g' := AddString(hb, window, head, prev, f.strstart + 1, f.lookahead - 1, f.ins_h, f, g);
      f' := f'.(ins_h := ins_h);
      NextMid(hb, prev.Length, w0, h0, p0, f, g, head[..], prev[..], f', g');
    } else {
      SkipString(hb, h0, p0, f.strstart + 1, f.lookahead - 1, f.insert, f.ins_h, g);
      NextMid(hb, prev.Length, w0, h0, p0, f, g, h0, p0, f', g');
    }
  }

  /** The previous match is tallied, and its strings are inserted. */
  method TallyMatch(hb: nat, window: array<nat>, head: array<nat>, prev: array<nat>, f: Fields, ghost g: Past, c: Config, ghost sent: BitString)
    returns (f': Fields, ghost g': Past, full: bool)
    requires Tables(hb, window, head, prev) && MidRound(hb, prev.Length, window[..], head[..], prev[..], f, g)
    requires f.match_length >= MIN_MATCH && Emitted(c.coding, sent, f.buf, g.blocks, false)
    modifies head, prev
    ensures Inv(hb, prev.Length, window[..], head[..], prev[..], f', g') && Emitted(c.coding, sent, f'.buf, g'.blocks, false)
    ensures f'.next_in == f.next_in && g'.input == g.input && f'.lookahead < f.lookahead && f'.strstart + f'.lookahead == f.strstart + f.lookahead
    ensures !f'.match_available && f'.strstart <= f.strstart + MAX_MATCH
  {
    MatchTold(f, g, prev.Length);
    MatchFits(prev.Length, window[..], f, g);
    var f1, f2;
    ghost var g2;
    f1, full := Tally(c.coding, f, Sym(Back(f.strstart - 1, f.match_start), f.match_length - MIN_MATCH), c.sym_end, prev.Length, sent, g.blocks);
    f2, g2 := InsertRest(hb, window, head, prev, f, g, f.match_length - 2);
    TakenInv(hb, prev.Length, window[..], head[..], prev[..], f, g, f1, f2, g2);
    f', g' := Taken(f2, f1.buf), g2;
  }

  /** The previous match is taken; a full block is flushed. */
  method TakeMatch(hb: nat, window: array<nat>, head: array<nat>, prev: array<nat>, f: Fields, ghost g: Past, c: Config, w: Writer)
    returns (f': Fields, ghost g': Past, full: bool)
    requires Tables(hb, window, head, prev) && MidRound(hb, prev.Length, window[..], head[..], prev[..], f, g)
    requires f.match_length >= MIN_MATCH && f.strstart + MIN_LOOKAHEAD <= window.Length
    requires w.Valid() && Emitted(c.coding, w.Sent(), f.buf, g.blocks, false)
    modifies head, prev, w
    ensures w.Valid() && Emitted(c.coding, w.Sent(), f'.buf, g'.blocks, false)
    ensures Inv(hb, prev.Length, window[..], head[..], prev[..], f', g')
    ensures f'.next_in == f.next_in && g'.input == g.input && f'.lookahead < f.lookahead && f'.strstart + f'.lookahead == f.strstart + f.lookahead
    ensures !f'.match_available
  {
    f', g', full := TallyMatch(hb, window, head, prev, f, g, c, w.Sent());
    if full {
      FlushInv(hb, prev.Length, window[..], head[..], prev[..], f', g');
      f', g' := FlushFull(hb, window, head[..], prev[..], f', g', c, prev.Length, w);
    }
  }

  method FlushFull(ghost hb: nat, window: array<nat>, ghost head: seq<nat>, ghost prev: seq<nat>, f: Fields, ghost g: Past, c: Config, ghost wsize: nat, w: Writer)
    returns (f': Fields, ghost g': Past)
    requires Inv(hb, wsize, window[..], head, prev, f, g) && !f.match_available && f.strstart <= 0xffff
    requires w.Valid() && Emitted(c.coding, w.Sent(), f.buf, g.blocks, false)
    modifies w
    ensures f' == Flushed(f) && g' == g.(blocks := g.blocks + [f.buf.syms]) && w.Valid() && Emitted(c.coding, w.Sent(), f'.buf, g'.blocks, false)
  {
    InvParts(hb, wsize, window[..], head, prev, f, g);
    f', g' := FlushOnly(window, f, g, wsize, w, c.coding, c.fixed, false);
  }

  /** The pending byte becomes a literal. */
  method LiteralOnly(window: array<nat>, f: Fields, ghost g: Past, c: Config, ghost wsize: nat, ghost sent: BitString) returns (f': Fields, full: bool)
    requires Held(wsize, window[..], f, g) && Undecided(f, g, wsize) && ToldTo(f, g, wsize, Next(f)) && f.match_available
    requires Emitted(c.coding, sent, f.buf, g.blocks, false) && wsize <= 32768
    ensures Emitted(c.coding, sent, f'.buf, g.blocks, false)
    ensures f' == f.(buf := f'.buf) && ToldTo(f', g, wsize, f.strstart)
  {
    PendingByte(wsize, window[..], f, g);
    LiteralTold(f, g, wsize, window[f.strstart - 1]);
    f', full := Tally(c.coding, f, Sym(0, window[f.strstart - 1]), c.sym_end, wsize, sent, g.blocks);
  }

  /** ... and a full block is flushed before strstart moves on. */
  method TallyLiteral(window: array<nat>, f: Fields, ghost g: Past, c: Config, ghost wsize: nat, w: Writer) returns (f': Fields, ghost g': Past)
    requires Held(wsize, window[..], f, g) && Undecided(f, g, wsize) && ToldTo(f, g, wsize, Next(f)) && f.match_available
    requires w.Valid() && Emitted(c.coding, w.Sent(), f.buf, g.blocks, false) && f.strstart <= 0xffff && wsize <= 32768
    modifies w
    ensures w.Valid() && Emitted(c.coding, w.Sent(), f'.buf, g'.blocks, false)
    ensures ToldTo(f', g', wsize, f.strstart)
    ensures f' == f.(buf := f'.buf, block_start := f'.block_start) && g' == g.(blocks := g'.blocks)
  {
    var full;
    f', full := LiteralOnly(window, f, g, c, wsize, w.Sent());
    g' := g;
    if full {
      SymsHeld(wsize, window[..], f, g, f');
      f', g' := FlushOnly(window, f', g', wsize, w, c.coding, c.fixed, false);
    }
  }

  lemma {:induction false} SymsHeld(wsize: nat, window: seq<nat>, f: Fields, g: Past, f': Fields)
    requires Held(wsize, window, f, g) && f' == f.(buf := f'.buf)
    ensures Held(wsize, window, f', g)
  {
  }

  method TakeLiteral(hb: nat, window: array<nat>, head: array<nat>, prev: array<nat>, f: Fields, ghost g: Past, c: Config, w: Writer)
    returns (f': Fields, ghost g': Past)
    requires Tables(hb, window, head, prev) && MidRound(hb, prev.Length, window[..], head[..], prev[..], f, g) && f.match_available
    requires w.Valid() && Emitted(c.coding, w.Sent(), f.buf, g.blocks, false) && f.strstart <= 0xffff
    modifies w
    ensures w.Valid() && Emitted(c.coding, w.Sent(), f'.buf, g'.blocks, false)
    ensures Mid(hb, prev.Length, window[..], head[..], prev[..], f', g') && ToldTo(f', g', prev.Length, f.strstart)
    ensures f' == f.(buf := f'.buf, block_start := f'.block_start) && g' == g.(blocks := g'.blocks)
  {
    f', g' := TallyLiteral(window, f, g, c, prev.Length, w);
    SymsOnly(hb, prev.Length, window[..], head[..], prev[..], f, g, f', g');
  }

  /** On to the next byte: the one before it, if it is pending, becomes a literal. */
  method PassByte(hb: nat, window: array<nat>, head: array<nat>, prev: array<nat>, f: Fields, ghost g: Past, c: Config, w: Writer, ms: Word, ml: nat)
    returns (f': Fields, ghost g': Past)
    requires Tables(hb, window, head, prev) && MidRound(hb, prev.Length, window[..], head[..], prev[..], f, g)
    requires f.lookahead >= 1 && f.strstart <= 0xffff && NewMatch(f, g, prev.Length, ms, ml)
    requires w.Valid() && Emitted(c.coding, w.Sent(), f.buf, g.blocks, false)
    modifies w
    ensures w.Valid() && Emitted(c.coding, w.Sent(), f'.buf, g'.blocks, false)
    ensures Inv(hb, prev.Length, window[..], head[..], prev[..], f', g')
    ensures f'.next_in == f.next_in && g'.input == g.input && f'.lookahead < f.lookahead
  {
    f', g' := f, g;
    if f.match_available {
      f', g' := TakeLiteral(hb, window, head, prev, f, g, c, w);
    }
    AdvanceInv(hb, prev.Length, window[..], head[..], prev[..], f', g', ms, ml);
    f' := Advanced(f', ms, ml);
  }

  /** One round: the string at strstart is inserted, a match is sought, and the byte before
      it is decided on. may_stop: the place where a full output buffer ends the call. */
  method Round(hb: nat, window: array<nat>, head: array<nat>, prev: array<nat>, f: Fields, ghost g: Past, c: Config, w: Writer)
    returns (f': Fields, ghost g': Past, may_stop: bool)
    requires Tables(hb, window, head, prev) && Inv(hb, prev.Length, window[..], head[..], prev[..], f, g) && c.max_chain >= 4
    requires f.lookahead >= 1 && f.strstart + MIN_LOOKAHEAD <= window.Length
    requires w.Valid() && Emitted(c.coding, w.Sent(), f.buf, g.blocks, false)
    modifies head, prev, w
    ensures w.Valid() && Emitted(c.coding, w.Sent(), f'.buf, g'.blocks, false)
    ensures Inv(hb, prev.Length, window[..], head[..], prev[..], f', g')
    ensures f'.next_in == f.next_in && g'.input == g.input && f'.lookahead < f.lookahead
  {
    var hash_head, ml, ms;
    f', g', hash_head, ml, ms := Seek(hb, window, head, prev, f, g, c);
    if f'.match_length >= MIN_MATCH && ml <= f'.match_length {
      f', g', may_stop := TakeMatch(hb, window, head, prev, f', g', c, w);
    } else {
      may_stop := f'.match_available;
      f', g' := PassByte(hb, window, head, prev, f', g', c, w, ms, ml);
    }
  }

  /** The string at strstart is inserted and a match for it is sought. */
  method Seek(hb: nat, window: array<nat>, head: array<nat>, prev: array<nat>, f: Fields, ghost g: Past, c: Config)
    returns (f': Fields, ghost g': Past, hash_head: nat, ml: nat, ms: Word)
    requires Tables(hb, window, head, prev) && Inv(hb, prev.Length, window[..], head[..], prev[..], f, g) && c.max_chain >= 4
    requires f.lookahead >= 1 && f.strstart + MIN_LOOKAHEAD <= window.Length
    modifies head, prev
    ensures MidRound(hb, prev.Length, window[..], head[..], prev[..], f', g')
    ensures f' == f.(ins_h := f'.ins_h) && g' == g.(ins := g'.ins, top := g'.top)
    ensures 2 <= ml <= MAX_MATCH && (ml > f'.match_length ==> NewMatch(f', g', prev.Length, ms, ml))
    ensures ml <= f'.match_length && f'.match_length < MIN_MATCH ==> NewMatch(f', g', prev.Length, ms, ml)
  {
    f', g', hash_head := InsertHere(hb, window, head, prev, f, g);
    ml, ms := FindMatch(hb, window, head, prev, f', g', c, hash_head);
  }

  /** The pending byte at the end of the input. */
  method LastLiteral(window: array<nat>, f: Fields, ghost g: Past, ghost wsize: nat, c: Config, ghost sent: BitString) returns (f': Fields)
    requires Held(wsize, window[..], f, g) && Undecided(f, g, wsize) && ToldTo(f, g, wsize, Next(f)) && f.match_available
    requires Emitted(c.coding, sent, f.buf, g.blocks, false) && wsize <= 32768
    ensures Emitted(c.coding, sent, f'.buf, g.blocks, false)
    ensures f' == f.(buf := f'.buf, match_available := false) && ToldTo(f', g, wsize, f.strstart)
  {
    var full;
    f', full := LiteralOnly(window, f, g, c, wsize, sent);
    f' := f'.(match_available := false);
  }

  class DeflateState {
    const hb: nat
    const wsize: nat
    const window: array<nat>
    const head: array<nat>
    const prev: array<nat>
    const config: Config
    const w: Writer
    var f: Fields
    ghost var g: Past
    /** The last block has been written. */
    ghost var ended: bool

    ghost predicate Valid()
      reads this, window, head, prev, w
    {
      var tables := Tables(hb, window, head, prev) && prev.Length == wsize && config.max_chain >= 4;
      var matched := tables && Inv(hb, wsize, window[..], head[..], prev[..], f, g);
      var written := w.Valid() && Emitted(config.coding, w.Sent(), f.buf, g.blocks, ended);
      matched && written
    }

    /** All the input, read or not. */
    ghost function Supplied(): seq<nat>
      reads this
    {
      g.input + f.next_in
    }

    /** lm_init */
    constructor (hb: nat, wsize: nat, config: Config)
      requires hb >= 8 && 512 <= wsize <= 32768 && config.max_chain >= 4 && BlockWriter.CodingOk(config.coding)
      ensures Valid() && Supplied() == [] && !ended
      ensures fresh(window) && fresh(head) && fresh(prev) && fresh(w) && this.wsize == wsize && this.config == config
    {
      this.hb, this.wsize, this.config := hb, wsize, config;
      window := new nat[2 * wsize](i => 0);
      head := new nat[Pow2(hb)](i => 0);
      prev := new nat[wsize](i => 0);
      w := new Writer();
      f := Fields([], 0, 0, 0, Zeros(hb), 0, 2, false, 0, EmptyBuf());
      g, ended := Past([], 0, {}, 0, []), false;
      NothingEmitted(config.coding);
    }

    /** The caller supplies more input. */
    method Give(more: seq<nat>)
      requires Valid() && forall i :: 0 <= i < |more| ==> more[i] < 256
      modifies this
      ensures Valid() && ended == old(ended) && Supplied() == old(Supplied()) + more && g == old(g) && f == old(f).(next_in := old(f).next_in + more)
    {
      GiveInv(hb, wsize, window[..], head[..], prev[..], f, g, more);
      f := f.(next_in := f.next_in + more);
    }

    // ----- fill_window -----

    method SlideDown()
      requires Valid() && f.strstart >= wsize + MaxDist(wsize)
      modifies window, head, prev, this
      ensures Valid() && ended == old(ended) && g == old(g).(base := old(g).base + wsize)
      ensures f == Slidden(old(f), wsize) && Supplied() == old(Supplied())
    {
      f := Slide(hb, wsize, window, head, prev, f, g);
      g := g.(base := g.base + wsize);
    }

    method ReadMore(more: nat) returns (n: nat)
      requires Valid() && f.next_in != [] && more == 2 * wsize - f.lookahead - f.strstart && more >= 2
      modifies window, head, prev, this
      ensures Valid() && ended == old(ended) && Supplied() == old(Supplied()) && n >= 1 && |f.next_in| == |old(f.next_in)| - n
      ensures f == old(f).(next_in := f.next_in, lookahead := old(f).lookahead + n, ins_h := f.ins_h, insert := f.insert)
      ensures g == old(g).(input := g.input, ins := g.ins, top := g.top)
    {
      n := if |f.next_in| > more then more else |f.next_in|;
      f, g := Read(hb, window, head, prev, f, g, n);
    }

    /** fill_window */
    method FillWindow()
      requires Valid() && f.lookahead < MIN_LOOKAHEAD
      modifies window, head, prev, this
      ensures Valid() && ended == old(ended) && Supplied() == old(Supplied()) && |f.next_in| + f.lookahead == |old(f.next_in)| + old(f.lookahead)
      ensures f.lookahead >= MIN_LOOKAHEAD || f.next_in == []
      ensures f.strstart + MIN_LOOKAHEAD <= 2 * wsize
    {
      var again := true;
      while again
        invariant Valid() && ended == old(ended) && Supplied() == old(Supplied()) && |f.next_in| + f.lookahead == |old(f.next_in)| + old(f.lookahead)
        invariant if again then f.lookahead < MIN_LOOKAHEAD
                  else (f.lookahead >= MIN_LOOKAHEAD || f.next_in == []) && f.strstart + MIN_LOOKAHEAD <= 2 * wsize
        decreases |f.next_in|, again
      {
        again := FillOnce();
      }
    }

    /** One pass of its loop; true if another is needed. */
    method FillOnce() returns (again: bool)
      requires Valid() && f.lookahead < MIN_LOOKAHEAD
      modifies window, head, prev, this
      ensures Valid() && ended == old(ended) && Supplied() == old(Supplied()) && |f.next_in| + f.lookahead == |old(f.next_in)| + old(f.lookahead)
      ensures if again then f.lookahead < MIN_LOOKAHEAD && |f.next_in| < |old(f.next_in)|
              else f.lookahead >= MIN_LOOKAHEAD || f.next_in == []
      ensures f.strstart + MIN_LOOKAHEAD <= 2 * wsize && |f.next_in| <= |old(f.next_in)|
    {
      if f.strstart >= wsize + MaxDist(wsize) {
        SlideDown();
      }
      if f.next_in == [] {
        return false;
      }
      var more := 2 * wsize - f.lookahead - f.strstart;
      var n := ReadMore(more);
      again := f.lookahead < MIN_LOOKAHEAD && f.next_in != [];
    }

    // ----- deflate_slow -----

    method OneRound() returns (may_stop: bool)
      requires Valid() && f.lookahead >= 1 && f.strstart + MIN_LOOKAHEAD <= 2 * wsize && !ended
      modifies head, prev, this, w
      ensures Valid() && Supplied() == old(Supplied()) && f.next_in == old(f.next_in) && f.lookahead < old(f.lookahead) && !ended
    {
      f, g, may_stop := Round(hb, window, head, prev, f, g, config, w);
    }

    /** The end of the input: the pending byte is a literal, and the last two strings wait. */
    method EndOfInput()
      requires Valid() && f.lookahead == 0 && !ended
      modifies this
      ensures Valid() && !f.match_available && f.lookahead == 0 && f.next_in == old(f.next_in) && f.strstart == old(f.strstart)
      ensures Supplied() == old(Supplied()) && !ended
    {
      var last := f;
      if f.match_available {
        last := LastLiteral(window, f, g, wsize, config, w.Sent());
      }
      var insert := if f.strstart < MIN_MATCH - 1 then f.strstart else MIN_MATCH - 1;
      EndInv(hb, wsize, window[..], head[..], prev[..], f, g, last, insert);
      f := last.(insert := insert);
    }

    /** FLUSH_BLOCK */
    method FlushBlock(last: bool)
      requires Valid() && !f.match_available && !ended && f.strstart <= 0xffff
      modifies this, w
      ensures Valid() && f == Flushed(old(f)) && g == old(g).(blocks := old(g).blocks + [old(f).buf.syms])
      ensures ended == last && (last ==> w.bi_valid == 0)
    {
      FlushInv(hb, wsize, window[..], head[..], prev[..], f, g);
      f, g := FlushOnly(window, f, g, wsize, w, config.coding, config.fixed, last);
      ended := last;
    }

    /**
     deflate_slow. `full` says whether the output buffer is full once so many bytes are left
     to compress. Whatever it says, no input is lost and the symbols stand for the input up
     to strstart, less the pending byte; and unless more input or output is needed, the
     blocks stand for all the input.
     */
    method Deflate(flush: Flush, full: nat -> bool) returns (ret: BlockState)
      requires Valid() && !ended
      modifies window, head, prev, this, w
      ensures Valid() && Supplied() == old(Supplied())
      ensures StandsFor(f, g)
      ensures ret != NeedMore ==> flush != NoFlush && InReach(0, Flat(g.blocks)) && Expand([], Flat(g.blocks)) == Supplied()
      ensures flush == Finish ==> ret != BlockDone
      ensures flush != Finish ==> ret != FinishDone && ret != FinishStarted
      ensures (ended <==> ret == FinishDone || ret == FinishStarted) && (ended ==> w.bi_valid == 0)
      ensures flush != NoFlush && ret == NeedMore ==> exists n: nat :: full(n)
      ensures ret != NeedMore ==> StreamWriter.Coded(w.Sent(), Supplied(), ended)
    {
      var stop := false;
      while !stop
        invariant Valid() && Supplied() == old(Supplied()) && !ended
        invariant stop ==> f.lookahead == 0 && f.next_in == [] && flush != NoFlush && f.strstart <= 0xffff
        decreases |f.next_in| + f.lookahead, !stop
      {
        if f.lookahead < MIN_LOOKAHEAD {
          FillWindow();
          if f.lookahead < MIN_LOOKAHEAD && flush == NoFlush {
            SaysSo(hb, wsize, window[..], head[..], prev[..], f, g);
            return NeedMore;
          }
        }
        if f.lookahead == 0 {
          stop := true;
        } else {
          Room(wsize, window[..], f, g);
          var may_stop := OneRound();
          if may_stop && full(|f.next_in| + f.lookahead) {
            SaysSo(hb, wsize, window[..], head[..], prev[..], f, g);
            return NeedMore;
          }
        }
      }
      ret := End(flush, full(0));
      SaysSo(hb, wsize, window[..], head[..], prev[..], f, g);
    }

    /** The last block, or what is left of one. */
    method End(flush: Flush, full: bool) returns (ret: BlockState)
      requires Valid() && f.lookahead == 0 && f.next_in == [] && flush != NoFlush && !ended && f.strstart <= 0xffff
      modifies this, w
      ensures Valid() && Supplied() == old(Supplied())
      ensures InReach(0, Flat(g.blocks)) && Expand([], Flat(g.blocks)) == Supplied()
      ensures flush == Finish ==> ret == if full then FinishStarted else FinishDone
      ensures flush != Finish ==> ret == BlockDone || (full && ret == NeedMore)
      ensures (ended <==> flush == Finish) && (ended ==> w.bi_valid == 0)
    {
      EndOfInput();
      if flush == Finish || f.buf.syms != [] {
        FlushBlock(flush == Finish);
        ret := if full then (if flush == Finish then FinishStarted else NeedMore) else (if flush == Finish then FinishDone else BlockDone);
      } else {
        ret := BlockDone;
      }
      AllTold(hb, wsize, window[..], head[..], prev[..], f, g);
    }
  }
}
