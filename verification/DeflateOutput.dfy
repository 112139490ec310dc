/**
 What `deflate_slow` writes: symbols are tallied, and blocks of them flushed to the bit
 writer, so that inflate reads back the input that the blocks stand for.
 */
module DeflateOutput {
  import opened Bits
  import opened SymbolTables
  import opened BitWriter
  import opened CompressBlock
  import opened BlockCost
  import opened BlockRoundTrip
  import opened LongestMatch
  import opened DeflateTokens
  import opened DeflateInvariant
  import BlockWriter
  import StreamWriter

  /** The frequencies are those of the symbols buffered, and what has been sent is read back
      as the bytes that the blocks stand for. */
  ghost predicate Emitted(k: BlockWriter.Coding, sent: BitString, buf: SymBuf, blocks: seq<seq<Sym>>, ended: bool)
  {
    var counted := BlockWriter.CodingOk(k) && Counted(k.t, buf);
    var coded := InReach(0, Flat(blocks)) && StreamWriter.Coded(sent, Expand([], Flat(blocks)), ended);
    counted && coded
  }

  lemma {:induction false} NothingEmitted(k: BlockWriter.Coding)
    requires BlockWriter.CodingOk(k)
    ensures Emitted(k, [], EmptyBuf(), [], false)
  {
    EmptyCounted(k.t);
    StreamWriter.NothingCoded();
  }

  /** A symbol within the window has codes. */
  lemma {:induction false} SendableOk(t: CodeTables, wsize: nat, s: Sym)
    requires LengthTables(t) && DistTables(t) && Sendable(wsize, s) && wsize <= 32768
    ensures SymOk(t, s)
  {
    TablesReady(t);
  }

  /** _tr_tally_lit and _tr_tally_dist. */
  method Tally(k: BlockWriter.Coding, f: Fields, s: Sym, sym_end: nat, ghost wsize: nat, ghost sent: BitString, ghost blocks: seq<seq<Sym>>)
    returns (f': Fields, full: bool)
    requires Emitted(k, sent, f.buf, blocks, false) && Sendable(wsize, s) && wsize <= 32768
    ensures Emitted(k, sent, f'.buf, blocks, false) && f' == f.(buf := f'.buf) && f'.buf.syms == f.buf.syms + [s]
    ensures full <==> |f'.buf.syms| == sym_end
  {
    SendableOk(k.t, wsize, s);
    var buf;
    buf, full := TallySym(k.t, f.buf, s, sym_end);
    f' := f.(buf := buf);
  }

  lemma {:induction false} OutSoFar(f: Fields, g: Past, wsize: nat, window: seq<nat>)
    requires ToldTo(f, g, wsize, f.strstart) && Window(window, g.input, g.base, f.strstart, f.lookahead) && InReach(0, Flat(g.blocks))
    ensures var out := Expand([], Flat(g.blocks));
            && f.block_start <= f.strstart && InReach(|out|, f.buf.syms)
            && (f.block_start >= 0 ==>
                  AreBytes(window[f.block_start..f.strstart]) && Expand(out, f.buf.syms) == out + window[f.block_start..f.strstart])
  {
    BlockBytes(f, g, wsize, window);
    var m := g.base + f.block_start;
    assert Expand([], Flat(g.blocks)) == g.input[..m] && |g.input[..m]| == m;
    if f.block_start >= 0 {
      forall i | 0 <= i < f.strstart - f.block_start ensures window[f.block_start..f.strstart][i] < 256 {
        assert window[f.block_start + i] == g.input[g.base + (f.block_start + i)];
      }
    }
  }

  lemma {:induction false} BlocksNext(blocks: seq<seq<Sym>>, syms: seq<Sym>)
    requires InReach(0, Flat(blocks)) && InReach(|Expand([], Flat(blocks))|, syms)
    ensures InReach(0, Flat(blocks + [syms])) && Expand([], Flat(blocks + [syms])) == Expand(Expand([], Flat(blocks)), syms)
  {
    assert (blocks + [syms])[..|blocks|] == blocks;
    ReachJoin(0, Flat(blocks), syms, []);
  }

  lemma {:induction false} EmittedNext(k: BlockWriter.Coding, sent: BitString, out: seq<nat>, blocks: seq<seq<Sym>>, syms: seq<Sym>, last: bool)
    requires BlockWriter.CodingOk(k) && InReach(0, Flat(blocks)) && out == Expand([], Flat(blocks)) && InReach(|out|, syms)
    requires StreamWriter.Coded(sent, Expand(out, syms), last)
    ensures Emitted(k, sent, EmptyBuf(), blocks + [syms], last)
  {
    EmptyCounted(k.t);
    BlocksNext(blocks, syms);
  }

  /** FLUSH_BLOCK_ONLY: the block, with its bytes in the window if they are still there. */
  method FlushOnly(window: array<nat>, f: Fields, ghost g: Past, ghost wsize: nat, w: Writer, k: BlockWriter.Coding, fixed: bool, last: bool)
    returns (f': Fields, ghost g': Past)
    requires Held(wsize, window[..], f, g) && ToldTo(f, g, wsize, f.strstart) && f.strstart <= 0xffff
    requires w.Valid() && Emitted(k, w.Sent(), f.buf, g.blocks, false)
    modifies w
    ensures f' == Flushed(f) && g' == g.(blocks := g.blocks + [f.buf.syms]) && ToldTo(f', g', wsize, f.strstart)
    ensures w.Valid() && Emitted(k, w.Sent(), f'.buf, g'.blocks, last) && (last ==> w.bi_valid == 0)
  {
    OutSoFar(f, g, wsize, window[..]);
    FlushTold(f, g, wsize);
    ghost var out := Expand([], Flat(g.blocks));
    var stored := f.block_start >= 0;
    var bytes := if stored then window[f.block_start..f.strstart] else [];
    assert stored ==> bytes == window[..][f.block_start..f.strstart];
    var p;
    ghost var bits, pad;
    p, bits, pad := StreamWriter.TrFlushBlock(w, k, f.buf, stored, bytes, fixed, last, out);
    w.Flush();
    EmittedNext(k, w.Sent(), out, g.blocks, f.buf.syms, last);
    f', g' := Flushed(f), g.(blocks := g.blocks + [f.buf.syms]);
  }
}
