/**
 `inflate` of inflate.c for raw streams: the resumable machine over its states, with the
 fast path, the circular window and calls that deliver input and room in any pieces.
 */
module Inflater {
  import opened Bits
  import opened Huffman
  import opened InflateTable
  import opened Decoding
  import opened Inflating
  import opened InflateWindow
  import opened InflateCopy
  import opened InflateFast
  import opened FixedCodes
  import opened StreamDecoding
  import opened StreamStates
  import opened LengthStates

  /** Eight bits can be held in LEN: eight ones begin a fixed code of nine bits.  So a call that
      resumes there may enter inflate_fast with eight bits or more. */
  lemma {:induction false} EightBitsHeld()
    ensures Lean(Canonical(StaticL(), StaticD()), START, 0xff, 8)
  {
    var s := Held(0xff, 8);
    NineBitCode();
    FixedAccepted();
    NineOnes(Codeword(StaticL(), 254), s, 8);
    SymbolCanon(LENS, StaticL(), 254, s);
  }

  lemma {:induction false} NineOnes(code: BitString, s: BitString, n: nat)
    requires n == 8 && code == BigBits(510, n + 1) && s == LowBits(255, n)
    ensures code <= Pad(s)
  {
    assert Pow2(n) == 256 by { Pow2Values(); }
    OnlyOnes(n);
    assert BigBits(510, n + 1) == BigBits(255, n) + [false];
    assert Pad(s)[n] == false;
  }

  lemma {:induction false} OnlyOnes(n: nat)
    ensures BigBits(Pow2(n) - 1, n) == seq(n, _ => true) == LowBits(Pow2(n) - 1, n)
  {
    if n > 0 {
      OnlyOnes(n - 1);
      var v := Pow2(n) - 1;
      assert v / 2 == Pow2(n - 1) - 1 && v % 2 == 1;
    }
  }

  /** Locals of a call: what the run says from here on is o. */
  ghost predicate Going(r: Reader, p: Point, out: seq<nat>, hold: nat, bits: nat, input: seq<nat>, next: nat, u: BitString, o: Outcome)
  {
    && next <= |input| && hold < Pow2(bits) && PointOk(p) && Lean(r, p, hold, bits)
    && Run(r, p, out, Ahead(hold, bits, input, next, u)) == o
  }

  /** One pass of the loop uses bits, moves on through the states of a match, or shortens it. */
  ghost predicate Nearer(p: Point, n: nat, p': Point, n': nat)
  {
    || n' < n
    || (n' == n && Height(p'.mode) < Height(p.mode))
    || (n' == n && p'.mode == p.mode == MATCH && p'.length < p.length)
  }

  /** Why a call stops short of the end of the block. */
  ghost predicate BlockStarved(r: Reader, p: Point, hold: nat, bits: nat, input: seq<nat>, next: nat, pos: nat, room: nat)
  {
    || (next == |input| && Stuck(r, p, Held(hold, bits)))
    || (pos == room && (p.mode == MATCH || p.mode == LIT))
  }

  /** LEN, LENEXT, DIST and DISTEXT. */
  method InputState(tabs: Tables, p: Point, input: seq<nat>, next: nat, hold: nat, bits: nat,
                    ghost r: Reader, ghost out: seq<nat>, ghost u: BitString, ghost o: Outcome)
    returns (stop: bool, p': Point, next': nat, hold': nat, bits': nat)
    requires Tabled(tabs, r) && AreBytes(input) && Going(r, p, out, hold, bits, input, next, u, o)
    requires p.mode == LEN || p.mode == DIST || p.mode == LENEXT || p.mode == DISTEXT
    ensures next <= next' && Going(r, p', out, hold', bits', input, next', u, o)
    ensures stop ==> p' == p && next' == |input| && Stuck(r, p', Held(hold', bits'))
    ensures !stop ==> Nearer(p, Left(bits, input, next), p', Left(bits', input, next'))
  {
    var ok;
    if p.mode == LEN || p.mode == DIST {
      ok, p', next', hold', bits' := CodeState(tabs, p, input, next, hold, bits, r, out, u);
    } else {
      ok, p', next', hold', bits' := ExtraState(p, input, next, hold, bits, r, out, u);
    }
    stop := !ok;
  }

  /** MATCH and LIT. */
  method OutputState(p: Point, window: array<nat>, whave: nat, wnext: nat, put: array<nat>, pos: nat,
                     ghost h: seq<nat>, ghost r: Reader, ghost s: BitString)
    returns (p': Point, pos': nat)
    requires (p.mode == MATCH || p.mode == LIT) && PointOk(p) && window != put && window.Length == WSIZE && pos < put.Length
    requires Holds(window[..], whave, wnext, h)
    modifies put
    ensures pos <= pos' <= put.Length && put[..pos] == old(put[..pos]) && PointOk(p')
    ensures Run(r, p', h + put[..pos'], s) == Run(r, p, h + old(put[..pos]), s)
    ensures Nearer(p, 0, p', 0)
  {
    if p.mode == MATCH {
      ghost var out := h + put[..pos];
      p', pos' := MatchState(p, window, whave, wnext, put, pos, h);
      CopiedRuns(r, p, out, p', h + put[..pos'], s);
    } else {
      p', pos' := LitState(p, put, pos, h, r, s);
    }
  }

  /** One pass through the switch, in a state of a block. */
  method OneState(tabs: Tables, p: Point, input: seq<nat>, next: nat, hold: nat, bits: nat,
                  window: array<nat>, whave: nat, wnext: nat, put: array<nat>, pos: nat,
                  ghost h: seq<nat>, ghost r: Reader, ghost u: BitString, ghost o: Outcome)
    returns (stop: bool, p': Point, next': nat, hold': nat, bits': nat, pos': nat)
    requires Tabled(tabs, r) && AreBytes(input) && p.mode != TYPE && p.mode != BAD
    requires window != put && window.Length == WSIZE && pos <= put.Length && Holds(window[..], whave, wnext, h)
    requires Going(r, p, h + put[..pos], hold, bits, input, next, u, o)
    modifies put
    ensures next <= next' && pos <= pos' <= put.Length && put[..pos] == old(put[..pos])
    ensures Going(r, p', h + put[..pos'], hold', bits', input, next', u, o)
    ensures stop ==> p'.mode != TYPE && p'.mode != BAD && BlockStarved(r, p', hold', bits', input, next', pos', put.Length)
    ensures !stop ==> Nearer(p, Left(bits, input, next), p', Left(bits', input, next'))
  {
    stop, p', next', hold', bits', pos' := false, p, next, hold, bits, pos;
    if p.mode == LEN && |input| - next >= 6 && put.Length - pos >= 258 {
      p', next', hold', bits', pos' := Fast(tabs, p, input, next, hold, bits, window, whave, wnext, put, pos, h, r, u);
    } else if p.mode == MATCH || p.mode == LIT {
      if pos == put.Length {
        stop := true;
        return;
      }
      p', pos' := OutputState(p, window, whave, wnext, put, pos, h, r, Ahead(hold, bits, input, next, u));
    } else {
      stop, p', next', hold', bits' := InputState(tabs, p, input, next, hold, bits, r, h + put[..pos], u, o);
    }
  }

  // ----- a call -----

  /** The state cannot go on with these bits. */
  ghost predicate Blocked(q: Spot, s: BitString)
  {
    if q.Block? then Stuck(Canonical(q.llens, q.dlens), q.p, s) else Waits(q, s)
  }

  /** The state has a byte to write. */
  predicate NeedsRoom(q: Spot)
  {
    (q.Copying? && q.length > 0) || (q.Block? && (q.p.mode == MATCH || q.p.mode == LIT))
  }

  /** Why a call stops short of the end of the stream. */
  ghost predicate Starved(q: Spot, hold: nat, bits: nat, input: seq<nat>, next: nat, pos: nat, room: nat)
  {
    var dry := next == |input| && Blocked(q, Held(hold, bits));
    dry || (pos == room && NeedsRoom(q))
  }

  lemma {:induction false} SpotInBlock(q: Spot)
    requires SpotOk(q) && q.Block?
    ensures InBlock(q.p.mode)
  {
  }

  /** With bits that the state cannot go on with, all output is there, and decoding stays. */
  lemma {:induction false} BlockedFlow(q: Spot, out: seq<nat>, s: BitString)
    requires Blocked(q, s) && SpotOk(q)
    ensures Flow(q, out, s).out == out && Flow(q, out, s).at == q
  {
    if q.Block? {
      SpotInBlock(q);
      BlockedBlock(q, out, s);
    }
  }

  lemma {:induction false} BlockedBlock(q: Spot, out: seq<nat>, s: BitString)
    requires q.Block? && InBlock(q.p.mode) && Stuck(Canonical(q.llens, q.dlens), q.p, s)
    ensures Flow(q, out, s) == Result(out, q, s)
  {
    assert Run(Canonical(q.llens, q.dlens), q.p, out, s) == Outcome(out, q.p, s);
    assert AtPoint(q, q.p) == q;
  }

  /** One pass of the loop uses bits, or moves on. */
  ghost predicate Progress(q: Spot, p: Point, n: nat, q': Spot, p': Point, n': nat)
  {
    MovesOn(q, n, q', n') || (n' == n && Tier(q') == Tier(q) && Nearer(p, 0, p', 0))
  }

  lemma {:induction false} BlockGoes(q: Spot, out: seq<nat>, hold: nat, bits: nat, next: nat, p': Point, out': seq<nat>, hold': nat, bits': nat, next': nat,
                                     input: seq<nat>, u: BitString, o: Result, r: Reader, o': Outcome)
    requires q.Block? && r == Canonical(q.llens, q.dlens) && Flowing(q, out, hold, bits, input, next, u, o)
    requires o' == Run(r, q.p, out, Ahead(hold, bits, input, next, u)) && Going(r, p', out', hold', bits', input, next', u, o')
    ensures Flowing(AtPoint(q, p'), out', hold', bits', input, next', u, o)
  {
    assert q.(p := q.p) == q;
    FlowBlock(q, q.p, out, Ahead(hold, bits, input, next, u), p', out', Ahead(hold', bits', input, next', u));
    assert SpotLean(AtPoint(q, p'), hold', bits');
  }

  lemma {:induction false} BlockShows(g: Regs, lens: seq<nat>, q: Spot, p': Point)
    requires q.Block? && Shows(g, lens, q) && PointOk(p')
    ensures Shows(g.(at := p'), lens, AtPoint(q, p'))
  {
  }

  lemma {:induction false} BlockProgress(q: Spot, p': Point, n: nat, n': nat)
    requires q.Block? && PointOk(p') && Nearer(q.p, n, p', n')
    ensures Progress(q, q.p, n, AtPoint(q, p'), p', n')
  {
  }

  lemma {:induction false} BlockWaits(q: Spot, p': Point, hold: nat, bits: nat, input: seq<nat>, next: nat, pos: nat, room: nat)
    requires q.Block? && PointOk(p') && BlockStarved(Canonical(q.llens, q.dlens), p', hold, bits, input, next, pos, room)
    requires p'.mode != TYPE && p'.mode != BAD
    ensures Starved(AtPoint(q, p'), hold, bits, input, next, pos, room)
  {
  }

  /** A state of a block. */
  method BlockState(g: Regs, input: seq<nat>, next: nat, hold: nat, bits: nat, window: array<nat>, whave: nat, wnext: nat,
                    put: array<nat>, pos: nat, ghost lens: seq<nat>, ghost h: seq<nat>, ghost q: Spot, ghost u: BitString, ghost o: Result)
    returns (stop: bool, g': Regs, next': nat, hold': nat, bits': nat, pos': nat, ghost q': Spot)
    requires AreBytes(input) && window != put && window.Length == WSIZE && pos <= put.Length && Holds(window[..], whave, wnext, h)
    requires q.Block? && Shows(g, lens, q) && Flowing(q, h + put[..pos], hold, bits, input, next, u, o)
    modifies put
    ensures next <= next' && pos <= pos' <= put.Length && put[..pos] == old(put[..pos])
    ensures Flowing(q', h + put[..pos'], hold', bits', input, next', u, o) && Shows(g', lens, q')
    ensures stop ==> Starved(q', hold', bits', input, next', pos', put.Length)
    ensures !stop ==> Progress(q, g.at, Left(bits, input, next), q', g'.at, Left(bits', input, next'))
  {
    ghost var r := Canonical(q.llens, q.dlens);
    GoodIsTabled(g.tabs, q.llens, q.dlens);
    ghost var ahead, out := Ahead(hold, bits, input, next, u), h + put[..pos];
    ghost var o' := Run(r, q.p, out, ahead);
    var p';
    stop, p', next', hold', bits', pos' :=
      OneState(g.tabs, g.at, input, next, hold, bits, window, whave, wnext, put, pos, h, r, u, o');
    g', q' := g.(at := p'), AtPoint(q, p');
    BlockGoes(q, out, hold, bits, next, p', h + put[..pos'], hold', bits', next', input, u, o, r, o');
    BlockShows(g, lens, q, p');
    if stop {
      BlockWaits(q, p', hold', bits', input, next', pos', put.Length);
    } else {
      BlockProgress(q, p', Left(bits, input, next), Left(bits', input, next'));
    }
  }

  /** The states of a header. */
  method HeaderState(g: Regs, fixed: Tables, lens: array<nat>, input: seq<nat>, next: nat, hold: nat, bits: nat,
                     ghost q: Spot, ghost out: seq<nat>, ghost u: BitString, ghost o: Result)
    returns (stop: bool, g': Regs, next': nat, hold': nat, bits': nat, ghost q': Spot)
    requires AreBytes(input) && Whole(|u|) && lens.Length == LENS_SIZE && GoodTables(fixed, StaticL(), StaticD())
    requires q.TypeDo? || q.Stored? || q.Table? || q.LenLens? || q.CodeLens?
    requires Shows(g, lens[..], q) && Flowing(q, out, hold, bits, input, next, u, o)
    modifies lens
    ensures next <= next' && Flowing(q', out, hold', bits', input, next', u, o) && Shows(g', lens[..], q')
    ensures stop ==> Dry(q', hold', bits', input, next') && !q'.Block?
    ensures !stop ==> MovesOn(q, Left(bits, input, next), q', Left(bits', input, next'))
  {
    if g.at.mode == TYPE {
      stop, g', next', hold', bits', q' := TypeState(g, fixed, input, next, hold, bits, lens[..], q, out, u, o);
    } else if g.at.mode == STORED {
      stop, g', next', hold', bits', q' := StoredState(g, input, next, hold, bits, lens[..], q, out, u, o);
    } else if g.at.mode == TABLE {
      stop, g', next', hold', bits', q' := TableState(g, input, next, hold, bits, lens[..], q, out, u, o);
    } else if g.at.mode == LENLENS {
      stop, g', next', hold', bits', q' := LenLensState(g, lens, input, next, hold, bits, q, out, u, o);
    } else {
      stop, g', next', hold', bits', q' := CodeLensState(g, lens, input, next, hold, bits, q, out, u, o);
    }
  }

  /** Buffers of a call, and what the window holds. */
  ghost predicate Buffers(lens: array<nat>, window: array<nat>, put: array<nat>)
  {
    lens != window && lens != put && window != put && lens.Length == LENS_SIZE && window.Length == WSIZE
  }

  /** One pass through the switch. */
  method Pass(g: Regs, fixed: Tables, lens: array<nat>, input: seq<nat>, next: nat, hold: nat, bits: nat,
              window: array<nat>, whave: nat, wnext: nat, put: array<nat>, pos: nat,
              ghost h: seq<nat>, ghost q: Spot, ghost u: BitString, ghost o: Result)
    returns (stop: bool, g': Regs, next': nat, hold': nat, bits': nat, pos': nat, ghost q': Spot)
    requires AreBytes(input) && Whole(|u|) && Buffers(lens, window, put) && GoodTables(fixed, StaticL(), StaticD())
    requires pos <= put.Length && Holds(window[..], whave, wnext, h) && !q.Done? && !q.Failed?
    requires Shows(g, lens[..], q) && Flowing(q, h + put[..pos], hold, bits, input, next, u, o)
    modifies put, lens
    ensures next <= next' && pos <= pos' <= put.Length && put[..pos] == old(put[..pos])
    ensures Flowing(q', h + put[..pos'], hold', bits', input, next', u, o) && Shows(g', lens[..], q')
    ensures stop ==> Starved(q', hold', bits', input, next', pos', put.Length)
    ensures !stop ==> Progress(q, g.at, Left(bits, input, next), q', g'.at, Left(bits', input, next'))
  {
    pos', hold', bits' := pos, hold, bits;
    if InBlock(g.at.mode) {
      stop, g', next', hold', bits', pos', q' :=
        BlockState(g, input, next, hold, bits, window, whave, wnext, put, pos, lens[..], h, q, u, o);
    } else if g.at.mode == COPY {
      stop, g', next', pos', q' := CopyState(g, input, next, hold, put, pos, h, lens[..], q, u, o);
    } else {
      stop, g', next', hold', bits', q' := HeaderState(g, fixed, lens, input, next, hold, bits, q, h + put[..pos], u, o);
    }
  }

  lemma {:induction false} EndShown(g: Regs, lens: seq<nat>, q: Spot)
    requires Shows(g, lens, q) && (q.Block? ==> InBlock(q.p.mode))
    ensures (g.at.mode == DONE <==> q.Done?) && (g.at.mode == BAD <==> q.Failed?)
  {
  }

  /** The loop of a call. */
  method Loop(g0: Regs, fixed: Tables, lens: array<nat>, input: seq<nat>, hold0: nat, bits0: nat,
              window: array<nat>, whave: nat, wnext: nat, put: array<nat>, ghost h: seq<nat>, ghost q0: Spot, ghost u: BitString)
    returns (g: Regs, next: nat, hold: nat, bits: nat, pos: nat, ghost q: Spot)
    requires AreBytes(input) && Whole(|u|) && Buffers(lens, window, put) && GoodTables(fixed, StaticL(), StaticD())
    requires q0.Done? || q0.Failed? || Holds(window[..], whave, wnext, h)
    requires Shows(g0, lens[..], q0) && hold0 < Pow2(bits0) && SpotOk(q0) && SpotLean(q0, hold0, bits0)
    modifies put, lens
    ensures pos <= put.Length && Shows(g, lens[..], q)
    ensures Flowing(q, h + put[..pos], hold, bits, input, next, u, Flow(q0, h, Ahead(hold0, bits0, input, 0, u)))
    ensures q.Done? || q.Failed? || Starved(q, hold, bits, input, next, pos, put.Length)
    ensures q0.Done? || q0.Failed? ==> pos == 0 && q == q0
  {
    ghost var o := Flow(q0, h, Ahead(hold0, bits0, input, 0, u));
    g, next, hold, bits, pos, q := g0, 0, hold0, bits0, 0, q0;
    var stop := false;
    assert h + put[..0] == h;
    while !stop && g.at.mode != DONE && g.at.mode != BAD
      invariant pos <= put.Length && Shows(g, lens[..], q) && Flowing(q, h + put[..pos], hold, bits, input, next, u, o)
      invariant stop ==> Starved(q, hold, bits, input, next, pos, put.Length)
      invariant q0.Done? || q0.Failed? ==> pos == 0 && q == q0
      decreases if stop then 0 else 1, Left(bits, input, next), Tier(q), Height(g.at.mode), g.at.length
    {
      if q.Block? { SpotInBlock(q); }
      EndShown(g, lens[..], q);
      stop, g, next, hold, bits, pos, q := Pass(g, fixed, lens, input, next, hold, bits, window, whave, wnext, put, pos, h, q, u, o);
    }
    if q.Block? { SpotInBlock(q); }
    EndShown(g, lens[..], q);
  }

  // ----- the fixed tables -----

  /** buildtables: the tables for the fixed codes. */
  method BuildFixed() returns (fixed: Tables)
    ensures GoodTables(fixed, StaticL(), StaticD())
  {
    FixedAccepted();
    var llens, dlens := StaticL(), StaticD();
    var table := new Code[ENOUGH_LENS];
    var ret, used, root := Build(LENS, llens, table, 9);
    fixed := Tables(table[..used], root, [], 1);
    var dtable := new Code[ENOUGH_DISTS];
    ret, used, root := Build(DISTS, dlens, dtable, 5);
    fixed := fixed.(dists := dtable[..used], distBits := root);
  }

  // ----- inflate -----

  datatype Ret = Ok | StreamEnd | DataError | BufError

  /** The window holds the end of the output, unless the stream has ended or is invalid
      before any call needed one. */
  ghost predicate WindowOk(q: Spot, out: seq<nat>, window: seq<nat>, wsize: nat, whave: nat, wnext: nat)
  {
    var holds := wsize != 0 || out == [] ==> Holds(window, whave, wnext, out);
    var kept := !q.Done? && !q.Failed? ==> wsize != 0 || out == [];
    holds && kept
  }

  /** inf_leave: the window takes the output of the call if it is in use or will be needed. */
  method Leave(ghost q: Spot, window: array<nat>, wsize0: nat, whave0: nat, wnext0: nat, put: array<nat>, made: nat, mode: Mode, finish: bool,
               ghost q0: Spot, ghost out: seq<nat>)
    returns (wsize: nat, whave: nat, wnext: nat)
    requires window != put && window.Length == WSIZE && made <= put.Length && WindowOk(q0, out, window[..], wsize0, whave0, wnext0)
    requires (mode == DONE <==> q.Done?) && (mode == BAD <==> q.Failed?) && (q0.Done? || q0.Failed? ==> made == 0 && q == q0)
    modifies window
    ensures WindowOk(q, out + put[..made], window[..], wsize, whave, wnext)
  {
    wsize, whave, wnext := wsize0, whave0, wnext0;
    if wsize != 0 || (made != 0 && mode != BAD && (mode != DONE || !finish)) {
      wsize := window.Length;
      whave, wnext := UpdateWindow(window, whave, wnext, put, made, out);
    } else if made == 0 {
      assert out + put[..made] == out;
    }
  }

  /** What the return code says. */
  ghost predicate Returned(ret: Ret, q: Spot, hold: nat, bits: nat, input: seq<nat>, used: nat, made: nat, room: nat, finish: bool)
  {
    var ends := (ret == StreamEnd <==> q.Done?) && (ret == DataError <==> q.Failed?);
    var stops := ret == Ok || ret == BufError ==> Starved(q, hold, bits, input, used, made, room);
    ends && stops && (ret == Ok ==> !finish && (used != 0 || made != 0))
  }

  /** The fields of inflate_state that a call changes besides its arrays. */
  datatype Fields = Fields(g: Regs, hold: nat, bits: nat, wsize: nat, whave: nat, wnext: nat)

  /** The fields and arrays agree with where decoding stands and all output so far. */
  ghost predicate FieldsOk(f: Fields, lens: seq<nat>, window: seq<nat>, q: Spot, out: seq<nat>)
  {
    var regs := f.hold < Pow2(f.bits) && SpotOk(q) && SpotLean(q, f.hold, f.bits) && Shows(f.g, lens, q);
    regs && WindowOk(q, out, window, f.wsize, f.whave, f.wnext)
  }

  /** A call on the fields of the state. */
  method Call(f: Fields, fixed: Tables, lens: array<nat>, input: seq<nat>, window: array<nat>, put: array<nat>, finish: bool,
              ghost h: seq<nat>, ghost q0: Spot, ghost u: BitString)
    returns (ret: Ret, f': Fields, next: nat, made: nat, ghost q: Spot)
    requires AreBytes(input) && Whole(|u|) && Buffers(lens, window, put) && GoodTables(fixed, StaticL(), StaticD())
    requires FieldsOk(f, lens[..], window[..], q0, h)
    modifies put, lens, window
    ensures next <= |input| && made <= put.Length && FieldsOk(f', lens[..], window[..], q, h + put[..made])
    ensures Flow(q, h + put[..made], Ahead(f'.hold, f'.bits, input, next, u)) == Flow(q0, h, Ahead(f.hold, f.bits, input, 0, u))
    ensures Returned(ret, q, f'.hold, f'.bits, input, next, made, put.Length, finish)
  {
    var g, hold, bits, wsize, whave, wnext;
    g, next, hold, bits, made, q := Loop(f.g, fixed, lens, input, f.hold, f.bits, window, f.whave, f.wnext, put, h, q0, u);
    if q.Block? { SpotInBlock(q); }
    EndShown(g, lens[..], q);
    ghost var piece := put[..made];
    wsize, whave, wnext := Leave(q, window, f.wsize, f.whave, f.wnext, put, made, g.at.mode, finish, q0, h);
    assert put[..made] == piece;
    ret := if g.at.mode == DONE then StreamEnd else if g.at.mode == BAD then DataError
           else if (next == 0 && made == 0) || finish then BufError else Ok;
    f' := Fields(g, hold, bits, wsize, whave, wnext);
  }

  /** inflate_state of a raw stream. */
  class State {
    const fixed: Tables
    const window: array<nat>
    const lens: array<nat>
    var f: Fields
    /** Where decoding stands, and all output of the stream so far. */
    ghost var q: Spot
    ghost var out: seq<nat>

    ghost predicate Valid()
      reads this, window, lens
    {
      var arrays := window.Length == WSIZE && lens.Length == LENS_SIZE && window != lens && GoodTables(fixed, StaticL(), StaticD());
      arrays && FieldsOk(f, lens[..], window[..], q, out)
    }

    /** What the output so far and the bits still to come mean together. */
    ghost function Meaning(input: seq<nat>, next: nat, u: BitString): Result
      requires next <= |input|
      reads this
    {
      Flow(q, out, Ahead(f.hold, f.bits, input, next, u))
    }

    /** inflateInit2 with negative window bits: a fresh raw stream. */
    constructor ()
      ensures Valid() && fresh(window) && fresh(lens) && q == TypeDo(false) && out == [] && f.bits == 0
    {
      var tables := BuildFixed();
      fixed := tables;
      window := new nat[WSIZE](_ => 0);
      lens := new nat[LENS_SIZE](_ => 0);
      f := Fields(Regs(Point(TYPE, 0, 0, 0), false, 0, 0, 0, 0, Tables([], 1, [], 1)), 0, 0, 0, 0, 0);
      q, out := TypeDo(false), [];
    }

    /**
     One call of inflate.  Whatever follows the input (u), the output so far and what is
     left to decode together mean what they meant before the call.  The call ends at the
     end of the stream, at invalid data, for lack of input or for lack of room.
     */
    method Inflate(input: seq<nat>, put: array<nat>, finish: bool, ghost u: BitString) returns (ret: Ret, used: nat, made: nat)
      requires Valid() && AreBytes(input) && Whole(|u|) && put != window && put != lens
      modifies this, window, lens, put
      ensures Valid() && used <= |input| && made <= put.Length && out == old(out) + put[..made]
      ensures Meaning(input, used, u) == old(Meaning(input, 0, u))
      ensures Returned(ret, q, f.hold, f.bits, input, used, made, put.Length, finish)
    {
      var f1;
      ghost var q1;
      ret, f1, used, made, q1 := Call(f, fixed, lens, input, window, put, finish, out, q, u);
      f, q, out := f1, q1, out + put[..made];
    }
  }

  // ----- any way of cutting the stream -----

  /** What a whole stream decodes to. */
  ghost function Decoded(stream: seq<nat>): Result { Flow(TypeDo(false), [], ByteBits(stream)) }

  lemma {:induction false} PieceAhead(hold: nat, bits: nat, stream: seq<nat>, a: nat, b: nat, used: nat, c: nat)
    requires a <= b <= |stream| && used <= b - a && c == a + used
    ensures Ahead(hold, bits, stream[a..b], used, ByteBits(stream[b..])) == Ahead(hold, bits, stream, c, [])
  {
    assert stream[a..b][used..] == stream[c..b];
    ByteBitsFrom(stream, c, b);
    assert ByteBits(stream[c..]) + [] == ByteBits(stream[c..]);
  }

  lemma {:induction false} PieceOk(stream: seq<nat>, a: nat, b: nat)
    requires AreBytes(stream) && a <= b <= |stream|
    ensures AreBytes(stream[a..b]) && Whole(|ByteBits(stream[b..])|)
  {
    WholeBits(|stream| - b);
  }

  /** One call: input up to a place in the stream, so much room, and the flush parameter. */
  datatype Piece = Piece(upTo: nat, room: nat, finish: bool)

  lemma {:induction false} WhyReturned(ret: Ret, q: Spot, hold: nat, bits: nat, input: seq<nat>, used: nat, made: nat, room: nat, finish: bool)
    requires Returned(ret, q, hold, bits, input, used, made, room, finish)
    ensures (ret == StreamEnd <==> q.Done?) && (ret == DataError <==> q.Failed?)
    ensures made < room ==> q.Done? || q.Failed? || Blocked(q, Held(hold, bits))
  {
  }

  /** A call that is given more of the stream keeps its meaning. */
  method OnePiece(s: State, stream: seq<nat>, a: nat, p: Piece) returns (ret: Ret, a': nat, more: seq<nat>)
    requires s.Valid() && AreBytes(stream) && a <= |stream| && s.Meaning(stream, a, []) == Decoded(stream)
    modifies s, s.window, s.lens
    ensures s.Valid() && a <= a' <= |stream| && s.Meaning(stream, a', []) == Decoded(stream) && s.out == old(s.out) + more
    ensures ret == StreamEnd <==> s.q.Done?
    ensures ret == DataError <==> s.q.Failed?
    ensures a' == |stream| && |more| < p.room ==> s.q.Done? || s.q.Failed? || Blocked(s.q, Held(s.f.hold, s.f.bits))
  {
    var b := if p.upTo < a then a else if p.upTo > |stream| then |stream| else p.upTo;
    var put := new nat[p.room];
    ghost var u := ByteBits(stream[b..]);
    PieceOk(stream, a, b);
    PieceAhead(s.f.hold, s.f.bits, stream, a, b, 0, a);
    assert s.Meaning(stream[a..b], 0, u) == Decoded(stream);
    var used, made;
    ret, used, made := s.Inflate(stream[a..b], put, p.finish, u);
    a', more := a + used, put[..made];
    PieceAhead(s.f.hold, s.f.bits, stream, a, b, used, a');
    WhyReturned(ret, s.q, s.f.hold, s.f.bits, stream[a..b], used, made, p.room, p.finish);
  }

  /** The output so far is the start of the whole, and at the end, or at invalid data, all of
      it; the bytes not used are then those that follow the stream. */
  lemma {:induction false} AsFar(stream: seq<nat>, a: nat, q: Spot, hold: nat, bits: nat, out: seq<nat>)
    requires a <= |stream| && SpotOk(q) && SpotLean(q, hold, bits) && Flow(q, out, Ahead(hold, bits, stream, a, [])) == Decoded(stream)
    ensures out <= Decoded(stream).out
    ensures q.Failed? ==> Decoded(stream).at.Failed? && out == Decoded(stream).out
    ensures q.Done? ==> Decoded(stream) == Result(out, Done, ByteBits(stream[a..]))
    ensures a == |stream| && Blocked(q, Held(hold, bits)) ==> out == Decoded(stream).out && Decoded(stream).at == q
  {
    FlowGrows(q, out, Ahead(hold, bits, stream, a, []));
    if q.Done? {
      assert Ahead(hold, bits, stream, a, []) == ByteBits(stream[a..]);
    }
    if a == |stream| && Blocked(q, Held(hold, bits)) {
      assert Ahead(hold, bits, stream, a, []) == Held(hold, bits);
      BlockedFlow(q, out, Held(hold, bits));
    }
  }

  /**
   However a stream and the room for its output are cut into pieces, and whatever the flush
   parameter, the output at any time is the start of what the whole stream decodes to.  It
   is all of it at the end of the stream, at invalid data, and when the last call took the
   rest of the input and had room left.
   */
  method InflatePieces(stream: seq<nat>, pieces: seq<Piece>) returns (out: seq<nat>, used: nat, ret: Ret, roomLeft: bool)
    requires AreBytes(stream)
    ensures used <= |stream| && out <= Decoded(stream).out
    ensures ret == StreamEnd ==> Decoded(stream) == Result(out, Done, ByteBits(stream[used..]))
    ensures ret == DataError ==> Decoded(stream).at.Failed? && out == Decoded(stream).out
    ensures used == |stream| && roomLeft ==> out == Decoded(stream).out && (Decoded(stream).at.Done? ==> ret == StreamEnd)
  {
    var s := new State();
    out, used, ret, roomLeft := [], 0, Ok, false;
    assert Ahead(s.f.hold, 0, stream, 0, []) == ByteBits(stream) by { assert stream[0..] == stream; }
    var k := 0;
    while k < |pieces|
      invariant 0 <= k <= |pieces| && s.Valid() && fresh(s) && fresh(s.window) && fresh(s.lens)
      invariant used <= |stream| && s.out == out && s.Meaning(stream, used, []) == Decoded(stream)
      invariant (ret == StreamEnd <==> s.q.Done?) && (ret == DataError <==> s.q.Failed?)
      invariant used == |stream| && roomLeft ==> s.q.Done? || s.q.Failed? || Blocked(s.q, Held(s.f.hold, s.f.bits))
    {
      var more;
      ret, used, more := OnePiece(s, stream, used, pieces[k]);
      out, roomLeft, k := out + more, |more| < pieces[k].room, k + 1;
    }
    AsFar(stream, used, s.q, s.f.hold, s.f.bits, out);
  }
}
