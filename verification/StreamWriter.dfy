/**
 `_tr_flush_block` of trees.c over a whole stream: whatever blocks are written, of whatever
 kind, inflate reads back the bytes that their symbols stand for.
 */
module StreamWriter {
  import opened Bits
  import opened Huffman
  import opened BuildTree
  import opened SymbolTables
  import opened InflateTable
  import opened Decoding
  import opened StreamDecoding
  import opened Inflating
  import opened StreamStates
  import opened BitWriter
  import opened CompressBlock
  import opened BlockCost
  import opened BlockRoundTrip
  import opened FlushBlock
  import opened StaticTrees
  import opened BlockWriter
  import opened BlockFlow

  /** What was sent so far is read as the bytes `out`, and then what follows it is read. */
  ghost predicate CodedAt(sent: BitString, out: seq<nat>, ended: bool, rest: BitString)
  {
    var whole := Flow(TypeDo(false), [], sent + rest);
    whole == if ended then Result(out, Done, rest) else Flow(TypeDo(false), out, rest)
  }

  /** ... whatever follows, as long as whole bytes come of it. */
  ghost predicate Coded(sent: BitString, out: seq<nat>, ended: bool)
  {
    forall rest: BitString {:trigger CodedAt(sent, out, ended, rest)} :: Whole(|sent| + |rest|) ==> CodedAt(sent, out, ended, rest)
  }

  lemma {:induction false} NothingCoded()
    ensures Coded([], [], false)
  {
    forall rest: BitString ensures CodedAt([], [], false, rest) {
      assert [] + rest == rest;
    }
  }

  /** The block, which ends after n bits in all, is read back whatever follows it. */
  ghost predicate AlwaysReadsBack(n: nat, bits: BitString, last: bool, out: seq<nat>, out': seq<nat>)
  {
    forall rest: BitString {:trigger ReadsBack(bits, last, out, out', rest)} :: Whole(n + |rest|) ==> ReadsBack(bits, last, out, out', rest)
  }

  lemma {:induction false} OneMoreBlock(sent: BitString, bits: BitString, last: bool, out: seq<nat>, out': seq<nat>, n: nat, rest: BitString)
    requires n == |sent + bits| && Coded(sent, out, false) && AlwaysReadsBack(n, bits, last, out, out') && Whole(n + |rest|)
    ensures Flow(TypeDo(false), [], (sent + bits) + rest) == Flow(TypeDo(last), out', rest)
  {
    var more := bits + rest;
    Assoc(sent, bits, rest);
    assert |sent| + |more| == n + |rest|;
    assert CodedAt(sent, out, false, more);
    assert ReadsBack(bits, last, out, out', rest);
  }

  lemma {:induction false} CodedMore(sent: BitString, bits: BitString, out: seq<nat>, out': seq<nat>, n: nat)
    requires n == |sent + bits| && Coded(sent, out, false) && AlwaysReadsBack(n, bits, false, out, out')
    ensures Coded(sent + bits, out', false)
  {
    forall rest: BitString | Whole(|sent + bits| + |rest|) ensures CodedAt(sent + bits, out', false, rest) {
      assert |sent + bits| + |rest| == n + |rest|;
      OneMoreBlock(sent, bits, false, out, out', n, rest);
    }
  }

  /** The zeros that end a stream are dropped. */
  lemma {:induction false} EndFlow(out: seq<nat>, pad: nat, rest: BitString)
    requires pad < 8 && Whole(|rest|)
    ensures Flow(TypeDo(true), out, Zeros(pad) + rest) == Result(out, Done, rest)
  {
    PadDropped(pad, rest);
  }

  lemma {:induction false} CodedLastAt(sent: BitString, bits: BitString, out: seq<nat>, out': seq<nat>, n: nat, pad: nat, m: nat, all: BitString, rest: BitString)
    requires n == |sent + bits| && Coded(sent, out, false) && AlwaysReadsBack(n, bits, true, out, out')
    requires pad < 8 && m == n + pad && Whole(m) && Whole(m + |rest|) && all == sent + bits + Zeros(pad)
    ensures CodedAt(all, out', true, rest)
  {
    var more := Zeros(pad) + rest;
    Assoc(sent + bits, Zeros(pad), rest);
    assert n + |more| == m + |rest|;
    OneMoreBlock(sent, bits, true, out, out', n, more);
    WholeLeft(m, |rest|);
    EndFlow(out', pad, rest);
  }

  /** After the last block and the zeros to the byte boundary the stream has ended. */
  lemma {:induction false} CodedLast(sent: BitString, bits: BitString, out: seq<nat>, out': seq<nat>, n: nat, pad: nat, m: nat, all: BitString)
    requires n == |sent + bits| && Coded(sent, out, false) && AlwaysReadsBack(n, bits, true, out, out')
    requires pad < 8 && m == n + pad == |all| && Whole(m) && all == sent + bits + Zeros(pad)
    ensures Coded(all, out', true)
  {
    forall rest: BitString | Whole(|all| + |rest|) ensures CodedAt(all, out', true, rest) {
      assert |all| + |rest| == m + |rest|;
      CodedLastAt(sent, bits, out, out', n, pad, m, all, rest);
    }
  }

  lemma {:induction false} WholeLeft(a: nat, b: nat)
    requires Whole(a) && Whole(a + b)
    ensures Whole(b)
  {
    OverMore(b, a);
    assert a + b == b + a;
  }

  /** A block of any kind is read back; a stored one as the bytes it stands for. */
  lemma {:induction false} PlanReadsBack(p: Plan, k: Coding, syms: seq<Sym>, last: bool, bytes: seq<nat>, pad: nat, out: seq<nat>, rest: BitString)
    requires CodingOk(k) && PlanOk(p, k.t, syms) && InReach(|out|, syms)
    requires p.kind == StoredBlock ==> AreBytes(bytes) && |bytes| <= 0xffff && Expand(out, syms) == out + bytes && pad < 8 && Whole(|rest|)
    ensures ReadsBack(PlanBits(p, k.t, syms, last, bytes, pad), last, out, Expand(out, syms), rest)
  {
    match p.kind
    case StoredBlock =>
      StoredReadBack(last, pad, bytes, out, rest);
    case StaticTreesBlock =>
      StaticReadBack(k.t, syms, last, out, rest);
    case DynTreesBlock =>
      DynamicReadBack(k.t, syms, p.ltree, p.dtree, p.bltree, p.blcodes, last, out, rest);
  }

  lemma {:induction false} PlanAlways(p: Plan, k: Coding, syms: seq<Sym>, last: bool, bytes: seq<nat>, pad: nat, out: seq<nat>, bits: BitString, n: nat)
    requires CodingOk(k) && PlanOk(p, k.t, syms) && InReach(|out|, syms)
    requires p.kind == StoredBlock ==> AreBytes(bytes) && |bytes| <= 0xffff && Expand(out, syms) == out + bytes && pad < 8 && Whole(n)
    requires bits == PlanBits(p, k.t, syms, last, bytes, pad)
    ensures AlwaysReadsBack(n, bits, last, out, Expand(out, syms))
  {
    forall rest: BitString | Whole(n + |rest|) ensures ReadsBack(bits, last, out, Expand(out, syms), rest) {
      if p.kind == StoredBlock {
        WholeLeft(n, |rest|);
      }
      PlanReadsBack(p, k, syms, last, bytes, pad, out, rest);
    }
  }

  lemma {:induction false} WholeSent(pending: seq<nat>, buf: nat)
    ensures Whole(|Stream(pending, buf, 0)|)
  {
    WholeBits(|pending|);
  }

  lemma {:induction false} PlanSize(p: Plan, k: Coding, syms: seq<Sym>, last: bool, bytes: seq<nat>, pad: nat, bits: BitString)
    requires PlanOk(p, k.t, syms) && (p.kind == StoredBlock ==> |bytes| <= 0xffff)
    requires bits == PlanBits(p, k.t, syms, last, bytes, pad)
    ensures p.kind == DynTreesBlock ==> |bits| == 3 + p.opt_len
    ensures p.kind == StaticTreesBlock ==> |bits| == 3 + p.static_len
  {
  }

  /** The block is written. */
  method WriteBlock(w: Writer, p: Plan, k: Coding, syms: seq<Sym>, last: bool, bytes: seq<nat>, ghost out: seq<nat>) returns (ghost bits: BitString)
    requires w.Valid() && CodingOk(k) && PlanOk(p, k.t, syms) && InReach(|out|, syms)
    requires p.kind == StoredBlock ==> AreBytes(bytes) && |bytes| <= 0xffff && Expand(out, syms) == out + bytes
    modifies w
    ensures w.Valid() && w.Sent() == old(w.Sent()) + bits && AlwaysReadsBack(|w.Sent()|, bits, last, out, Expand(out, syms))
    ensures p.kind == DynTreesBlock ==> |bits| == 3 + p.opt_len
    ensures p.kind == StaticTreesBlock ==> |bits| == 3 + p.static_len
  {
    ghost var pad := SendPlan(w, p, k, syms, last, bytes);
    bits := PlanBits(p, k.t, syms, last, bytes, pad);
    WholeSent(w.pending, w.bi_buf);
    PlanSize(p, k, syms, last, bytes, pad, bits);
    PlanAlways(p, k, syms, last, bytes, pad, out, bits, |w.Sent()|);
  }

  /** The end of a stream, or the place for the next block. */
  method CloseBlock(w: Writer, last: bool, ghost sent: BitString, ghost bits: BitString, ghost out: seq<nat>, ghost out': seq<nat>)
    returns (ghost pad: nat)
    requires w.Valid() && w.Sent() == sent + bits && Coded(sent, out, false) && AlwaysReadsBack(|w.Sent()|, bits, last, out, out')
    modifies w
    ensures w.Valid() && Coded(w.Sent(), out', last) && (last ==> w.bi_valid == 0)
    ensures w.Sent() == old(w.Sent()) + Zeros(pad) && pad < if last then 8 else 1
  {
    ghost var n := |w.Sent()|;
    pad := 0;
    if last {
      pad := w.WindupIn(8);
      WholeSent(w.pending, w.bi_buf);
      CodedLast(sent, bits, out, out', n, pad, |w.Sent()|, w.Sent());
    } else {
      CodedMore(sent, bits, out, out', n);
      assert Zeros(0) == [] && w.Sent() + [] == w.Sent();
    }
  }

  /**
   _tr_flush_block.  What has been sent is then read back as the bytes it was read back as
   before, and those that the symbols of the block stand for.  A block that is coded takes
   exactly the bits counted for it; only after the last block do zeros follow, fewer than 8,
   to the end of a byte.
   */
  method TrFlushBlock(w: Writer, k: Coding, buf: SymBuf, stored: bool, bytes: seq<nat>, fixed: bool, last: bool, ghost out: seq<nat>)
    returns (p: Plan, ghost bits: BitString, ghost pad: nat)
    requires w.Valid() && CodingOk(k) && Counted(k.t, buf) && InReach(|out|, buf.syms) && Coded(w.Sent(), out, false)
    requires stored ==> AreBytes(bytes) && |bytes| <= 0xffff && Expand(out, buf.syms) == out + bytes
    modifies w
    ensures w.Valid() && Coded(w.Sent(), Expand(out, buf.syms), last) && (last ==> w.bi_valid == 0)
    ensures PlanOk(p, k.t, buf.syms) && p.kind == Choose(p.opt_len, p.static_len, stored, |bytes|, fixed)
    ensures w.Sent() == old(w.Sent()) + bits + Zeros(pad) && pad < if last then 8 else 1
    ensures p.kind == DynTreesBlock ==> |bits| == 3 + p.opt_len
    ensures p.kind == StaticTreesBlock ==> |bits| == 3 + p.static_len
  {
    var heap := new nat[HEAP_SIZE];
    var left := Leftover(seq(2 * L_CODES + 1, _ => 0), seq(2 * D_CODES + 1, _ => 0), seq(2 * 19 + 1, _ => 0));
    p := MakePlan(heap, k.t, buf, left, stored, |bytes|, fixed);
    ghost var sent := w.Sent();
    bits := WriteBlock(w, p, k, buf.syms, last, bytes, out);
    pad := CloseBlock(w, last, sent, bits, out, Expand(out, buf.syms));
  }
}
