/**
 `inflate_fast` of inffast.c: whole literals and matches without checking for input or
 room at every step, given 6 bytes of input and 258 bytes of room for each.
 */
module InflateFast {
  import opened Bits
  import opened Huffman
  import opened InflateTable
  import opened Decoding
  import opened Inflating
  import opened InflateWindow
  import opened InflateCopy

  // ----- unchecked reading -----

  /** Where the accumulator and the input stand: c bits of those ahead at the start are used. */
  ghost predicate Reading(ahead: BitString, c: nat, hold: nat, bits: nat, input: seq<nat>, next: nat, u: BitString)
  {
    && next <= |input| && hold < Pow2(bits) && c <= |ahead|
    && Ahead(hold, bits, input, next, u) == ahead[c..]
  }

  method Refill(input: seq<nat>, next: nat, hold: nat, bits: nat, ghost ahead: BitString, ghost c: nat, ghost u: BitString)
    returns (next': nat, hold': nat, bits': nat)
    requires AreBytes(input) && Reading(ahead, c, hold, bits, input, next, u) && next < |input|
    ensures next' == next + 1 && bits' == bits + 8 && Reading(ahead, c, hold', bits', input, next', u)
    ensures Held(hold, bits) <= Held(hold', bits')
  {
    next', hold', bits' := PullByte(input, next, hold, bits, u);
  }

  /** Two bytes if fewer than 15 bits are held: then any code is at hand. */
  method RefillCode(input: seq<nat>, next: nat, hold: nat, bits: nat, ghost ahead: BitString, ghost c: nat, ghost u: BitString)
    returns (next': nat, hold': nat, bits': nat)
    requires AreBytes(input) && Reading(ahead, c, hold, bits, input, next, u) && (bits < 15 ==> next + 2 <= |input|)
    ensures 15 <= bits' && Reading(ahead, c, hold', bits', input, next', u) && next <= next' && bits' == bits + 8 * (next' - next)
    ensures Held(hold, bits) <= Held(hold', bits')
  {
    next', hold', bits' := next, hold, bits;
    if bits < 15 {
      next', hold', bits' := Refill(input, next', hold', bits', ahead, c, u);
      next', hold', bits' := Refill(input, next', hold', bits', ahead, c, u);
    }
  }

  /** One byte or two for the extra bits of a distance. */
  method RefillExtra(op: nat, input: seq<nat>, next: nat, hold: nat, bits: nat, ghost ahead: BitString, ghost c: nat, ghost u: BitString)
    returns (next': nat, hold': nat, bits': nat)
    requires AreBytes(input) && Reading(ahead, c, hold, bits, input, next, u) && op <= 13
    requires (bits < op ==> next < |input|) && (bits + 8 < op ==> next + 2 <= |input|)
    ensures op <= bits' && Reading(ahead, c, hold', bits', input, next', u) && next <= next' && bits' == bits + 8 * (next' - next)
  {
    next', hold', bits' := next, hold, bits;
    if bits' < op {
      next', hold', bits' := Refill(input, next', hold', bits', ahead, c, u);
      if bits' < op {
        next', hold', bits' := Refill(input, next', hold', bits', ahead, c, u);
      }
    }
  }

  lemma {:induction false} DropKeeps(ahead: BitString, c: nat, hold: nat, bits: nat, n: nat, hold': nat, bits': nat,
                                     input: seq<nat>, next: nat, u: BitString)
    requires Reading(ahead, c, hold, bits, input, next, u) && n <= bits && hold' < Pow2(bits') && bits' == bits - n
    requires Held(hold', bits') == Held(hold, bits)[n..]
    ensures Reading(ahead, c + n, hold', bits', input, next, u)
  {
    assert Ahead(hold', bits', input, next, u) == Ahead(hold, bits, input, next, u)[n..];
    assert |ahead[c..]| >= n;
    assert ahead[c..][n..] == ahead[c + n..];
  }

  method Drop(n: nat, hold: nat, bits: nat, ghost ahead: BitString, ghost c: nat, ghost input: seq<nat>, ghost next: nat, ghost u: BitString)
    returns (hold': nat, bits': nat)
    requires Reading(ahead, c, hold, bits, input, next, u) && n <= bits
    ensures bits' == bits - n && Held(hold', bits') == Held(hold, bits)[n..]
    ensures Low(hold, n) == Val(Held(hold, bits)[..n]) && hold' == Shifted(hold, Pow2(n))
    ensures Reading(ahead, c + n, hold', bits', input, next, u)
  {
    hold', bits' := DropBits(n, hold, bits);
    DropKeeps(ahead, c, hold, bits, n, hold', bits', input, next, u);
  }

  lemma {:induction false} ShiftThenMask(hold: nat, bits: nat, root: nat, op: nat, hold1: nat)
    requires hold < Pow2(bits) && root + op <= bits && root + op <= MAX_BITS && hold1 == Shifted(hold, Pow2(root))
    ensures Low(hold1, op) == Mid(hold, root, op)
  {
    var s := Held(hold, bits);
    TakeBits(hold, bits, root);
    TakeBits(hold1, bits - root, op);
    TakeBits(hold, bits, root + op);
    assert s[root..][..op] == s[root..root + op];
    ValSplit(s[..root + op], root);
    assert s[..root + op][root..] == s[root..root + op];
  }

  lemma {:induction false} DropTwice(s: BitString, a: nat, b: nat)
    requires a + b <= |s|
    ensures s[a..][b..] == s[a + b..]
  {
  }

  /** dolen and dodist: drop the first-level bits, then those of a second-level entry. */
  method FastCode(t: seq<Code>, root: nat, hold: nat, bits: nat, ghost look: BitString -> Code,
                  ghost ahead: BitString, ghost c: nat, ghost input: seq<nat>, ghost next: nat, ghost u: BitString)
    returns (here: Code, hold': nat, bits': nat, ghost e: Code)
    requires Reads(t, root, look) && 15 <= bits && look(Held(hold, bits)).bits <= MAX_BITS && !IsLink(look(Held(hold, bits)))
    requires Reading(ahead, c, hold, bits, input, next, u)
    ensures e == look(Held(hold, bits)) && here.op == e.op && here.val == e.val && !IsLink(here)
    ensures bits' == bits - e.bits && Held(hold', bits') == Held(hold, bits)[e.bits..]
    ensures Reading(ahead, c + e.bits, hold', bits', input, next, u)
  {
    e := look(Held(hold, bits));
    assert Indexed(t, root, look, hold, bits);
    here := t[Low(hold, root)];
    var first := here;
    hold', bits' := Drop(here.bits, hold, bits, ahead, c, input, next, u);
    if IsLink(here) {
      ShiftThenMask(hold, bits, root, here.op, hold');
      here := t[here.val + Low(hold', here.op)];
      DropTwice(Held(hold, bits), first.bits, here.bits);
      hold', bits' := Drop(here.bits, hold', bits', ahead, c + first.bits, input, next, u);
    }
  }

  // ----- one code with its extra bits -----

  lemma {:induction false} StageKeeps(r: Reader, p: Point, p': Point, out: seq<nat>, ahead: BitString, c: nat, c': nat,
                                      hold: nat, bits: nat, hold': nat, bits': nat, input: seq<nat>, next: nat, u: BitString)
    requires Steady(r) && Reading(ahead, c, hold, bits, input, next, u) && Reading(ahead, c', hold', bits', input, next, u)
    requires !Stuck(r, p, Held(hold, bits)) && Step(r, p, out, Held(hold, bits)) == Outcome(out, p', Held(hold', bits'))
    ensures Run(r, p', out, ahead[c'..]) == Run(r, p, out, ahead[c..])
  {
    StepKeepsRun(r, p, out, hold, bits, hold', bits', p', input, next, u);
  }

  method FastLen(tabs: Tables, p: Point, hold: nat, bits: nat, ghost r: Reader, ghost out: seq<nat>,
                 ghost ahead: BitString, ghost c: nat, ghost input: seq<nat>, ghost next: nat, ghost u: BitString)
    returns (p': Point, hold': nat, bits': nat, ghost c': nat)
    requires Tabled(tabs, r) && p.mode == LEN && 15 <= bits && Reading(ahead, c, hold, bits, input, next, u)
    ensures p' == AfterLen(p, r.len(Held(hold, bits))) && PointOk(p')
    ensures c' == c + r.len(Held(hold, bits)).bits && c < c' <= c + 15 && bits' == bits - (c' - c)
    ensures Reading(ahead, c', hold', bits', input, next, u)
    ensures Run(r, p', out, ahead[c'..]) == Run(r, p, out, ahead[c..])
  {
    assert SteadyAt(r.len, Held(hold, bits), []) && LenSays(r.len(Held(hold, bits)));
    var here;
    ghost var e;
    here, hold', bits', e := FastCode(tabs.lens, tabs.lenBits, hold, bits, r.len, ahead, c, input, next, u);
    c' := c + e.bits;
    p' := p.(length := here.val);
    if here.op == 0 {
      p' := p'.(mode := LIT);
    } else if HasBit(here.op, 16) {
      p' := p'.(mode := LENEXT, extra := here.op % 16);
    } else if HasBit(here.op, 32) {
      p' := p'.(mode := TYPE);
    } else {
      p' := p'.(mode := BAD);
    }
    StageKeeps(r, p, p', out, ahead, c, c', hold, bits, hold', bits', input, next, u);
    StepOk(r, p, out, Held(hold, bits));
  }

  method FastDist(tabs: Tables, p: Point, hold: nat, bits: nat, ghost r: Reader, ghost out: seq<nat>,
                  ghost ahead: BitString, ghost c: nat, ghost input: seq<nat>, ghost next: nat, ghost u: BitString)
    returns (p': Point, hold': nat, bits': nat, ghost c': nat)
    requires Tabled(tabs, r) && p.mode == DIST && PointOk(p) && 15 <= bits && Reading(ahead, c, hold, bits, input, next, u)
    ensures PointOk(p') && (p'.mode == DISTEXT || p'.mode == BAD)
    ensures c < c' <= c + 15 && bits' == bits - (c' - c)
    ensures Reading(ahead, c', hold', bits', input, next, u)
    ensures Run(r, p', out, ahead[c'..]) == Run(r, p, out, ahead[c..])
  {
    assert SteadyAt(r.dist, Held(hold, bits), []) && DistSays(r.dist(Held(hold, bits)));
    var here;
    ghost var e;
    here, hold', bits', e := FastCode(tabs.dists, tabs.distBits, hold, bits, r.dist, ahead, c, input, next, u);
    c' := c + e.bits;
    p' := p;
    if HasBit(here.op, 16) {
      p' := p.(mode := DISTEXT, offset := here.val, extra := here.op % 16);
    } else {
      p' := p.(mode := BAD);
    }
    StageKeeps(r, p, p', out, ahead, c, c', hold, bits, hold', bits', input, next, u);
    StepOk(r, p, out, Held(hold, bits));
  }

  method FastExtra(p: Point, hold: nat, bits: nat, ghost r: Reader, ghost out: seq<nat>,
                   ghost ahead: BitString, ghost c: nat, ghost input: seq<nat>, ghost next: nat, ghost u: BitString)
    returns (p': Point, hold': nat, bits': nat)
    requires Steady(r) && Bounded(r) && (p.mode == LENEXT || p.mode == DISTEXT) && PointOk(p) && p.extra <= bits
    requires Reading(ahead, c, hold, bits, input, next, u)
    ensures PointOk(p') && p'.mode == (if p.mode == LENEXT then DIST else MATCH) && bits' == bits - p.extra
    ensures p.mode == DISTEXT ==> p'.length == p.length
    ensures Reading(ahead, c + p.extra, hold', bits', input, next, u)
    ensures Run(r, p', out, ahead[c + p.extra..]) == Run(r, p, out, ahead[c..])
  {
    var value := Low(hold, p.extra);
    hold', bits' := Drop(p.extra, hold, bits, ahead, c, input, next, u);
    if p.mode == LENEXT {
      p' := p.(length := p.length + value, mode := DIST);
    } else {
      p' := p.(offset := p.offset + value, mode := MATCH);
    }
    StageKeeps(r, p, p', out, ahead, c, c + p.extra, hold, bits, hold', bits', input, next, u);
    StepOk(r, p, out, Held(hold, bits));
  }

  // ----- copying a match -----

  /** The unrolled copy from the window. */
  method UnrolledWindow(window: array<nat>, from: nat, put: array<nat>, pos: nat, n: nat)
    requires window != put && from + n <= window.Length && pos + n <= put.Length
    modifies put
    ensures put[..pos + n] == old(put[..pos]) + window[from..from + n]
  {
    var k, len := 0, n;
    while len > 2
      invariant 0 <= k <= n && k + len == n
      invariant forall i :: 0 <= i < pos ==> put[i] == old(put[i])
      invariant forall i :: pos <= i < pos + k ==> put[i] == window[from + (i - pos)]
      decreases len
    {
      put[pos + k] := window[from + k];
      put[pos + k + 1] := window[from + k + 1];
      put[pos + k + 2] := window[from + k + 2];
      k, len := k + 3, len - 3;
    }
    if len != 0 {
      put[pos + k] := window[from + k];
      if len > 1 {
        put[pos + k + 1] := window[from + k + 1];
      }
    }
  }

  /** The unrolled copy from the output; source and destination may overlap. */
  method UnrolledOutput(put: array<nat>, pos: nat, o: nat, n: nat)
    requires 1 <= o <= pos && pos + n <= put.Length
    modifies put
    ensures put[..pos + n] == Extend(old(put[..pos]), o, n)
  {
    var k, len := 0, n;
    while len > 2
      invariant 0 <= k <= n && k + len == n
      invariant put[..pos] == old(put[..pos])
      invariant forall i :: pos <= i < pos + k ==> put[i] == put[i - o]
      decreases len
    {
      put[pos + k] := put[pos + k - o];
      put[pos + k + 1] := put[pos + k + 1 - o];
      put[pos + k + 2] := put[pos + k + 2 - o];
      k, len := k + 3, len - 3;
    }
    if len != 0 {
      put[pos + k] := put[pos + k - o];
      if len > 1 {
        put[pos + k + 1] := put[pos + k + 1 - o];
      }
    }
    ExtendUnique(old(put[..pos]), o, n, put[..pos + n]);
  }

  /** Some bytes from the window, as part of a match. */
  method WindowPiece(window: array<nat>, whave: nat, wnext: nat, from: nat, put: array<nat>, pos: nat, dist: nat, n: nat,
                     unrolled: bool, ghost h: seq<nat>)
    requires window != put && pos + n <= put.Length && pos < dist && dist - pos <= whave
    requires Holds(window[..], whave, wnext, h) && InOnePiece(window.Length, wnext, dist - pos, from, n)
    modifies put
    ensures 1 <= dist <= |h| + pos && h + put[..pos + n] == Extend(h + old(put[..pos]), dist, n)
  {
    ExtendWindow(h, put[..pos], dist, window[..], whave, wnext, from, n);
    if unrolled {
      UnrolledWindow(window, from, put, pos, n);
    } else {
      FromWindow(window, from, put, pos, n);
    }
    assert window[..][from..from + n] == window[from..from + n];
  }

  /** The rest of a match, from the output. */
  method OutputPiece(put: array<nat>, pos: nat, dist: nat, n: nat, ghost h: seq<nat>)
    requires pos + n <= put.Length && 1 <= dist <= pos
    modifies put
    ensures h + put[..pos + n] == Extend(h + old(put[..pos]), dist, n)
  {
    ExtendInside(h, put[..pos], dist, n);
    UnrolledOutput(put, pos, dist, n);
  }

  /** From one stretch of the window, and from the output if that is not enough. */
  method OneStretch(window: array<nat>, whave: nat, wnext: nat, from: nat, put: array<nat>, pos: nat, dist: nat, len: nat, ghost h: seq<nat>)
    requires window != put && pos + len <= put.Length && pos < dist && dist - pos <= whave
    requires Holds(window[..], whave, wnext, h)
    requires from + (dist - pos) <= window.Length && InOnePiece(window.Length, wnext, dist - pos, from, dist - pos)
    modifies put
    ensures 1 <= dist <= |h| + pos && h + put[..pos + len] == Extend(h + old(put[..pos]), dist, len)
  {
    var op := dist - pos;
    if op < len {
      ghost var out := h + put[..pos];
      WindowPiece(window, whave, wnext, from, put, pos, dist, op, false, h);
      ExtendTwice(out, dist, op, len - op);
      OutputPiece(put, pos + op, dist, len - op, h);
    } else {
      WindowPiece(window, whave, wnext, from, put, pos, dist, len, true, h);
    }
  }

  /** The stretch wraps around the end of the window. */
  method TwoStretches(window: array<nat>, whave: nat, wnext: nat, put: array<nat>, pos: nat, dist: nat, len: nat, ghost h: seq<nat>)
    requires window != put && pos + len <= put.Length && pos < dist && dist - pos <= whave && wnext < dist - pos
    requires 0 < wnext && Holds(window[..], whave, wnext, h)
    modifies put
    ensures 1 <= dist <= |h| + pos && h + put[..pos + len] == Extend(h + old(put[..pos]), dist, len)
  {
    var from := window.Length + wnext - (dist - pos);
    var op := dist - pos - wnext;
    if op < len {
      ghost var out := h + put[..pos];
      WindowPiece(window, whave, wnext, from, put, pos, dist, op, false, h);
      ExtendTwice(out, dist, op, len - op);
      OneStretch(window, whave, wnext, 0, put, pos + op, dist, len - op, h);
    } else {
      WindowPiece(window, whave, wnext, from, put, pos, dist, len, true, h);
    }
  }

  /** The whole of a match whose distance is not too far back. */
  method FastCopy(window: array<nat>, whave: nat, wnext: nat, put: array<nat>, pos: nat, dist: nat, len: nat, ghost h: seq<nat>)
    requires window != put && 3 <= len && pos + len <= put.Length && 1 <= dist && (pos < dist ==> dist - pos <= whave)
    requires Holds(window[..], whave, wnext, h)
    modifies put
    ensures 1 <= dist <= |h| + pos && h + put[..pos + len] == Extend(h + old(put[..pos]), dist, len)
  {
    if dist > pos {
      var op := dist - pos;
      if wnext == 0 {
        OneStretch(window, whave, wnext, window.Length - op, put, pos, dist, len, h);
      } else if wnext < op {
        TwoStretches(window, whave, wnext, put, pos, dist, len, h);
      } else {
        OneStretch(window, whave, wnext, wnext - op, put, pos, dist, len, h);
      }
    } else {
      OutputPiece(put, pos, dist, len, h);
    }
  }

  // ----- one literal or match -----

  /** The loop's state: position in input and output, and what the run says from there. */
  ghost predicate Doing(r: Reader, p: Point, out: seq<nat>, ahead: BitString, c: nat, hold: nat, bits: nat,
                        input: seq<nat>, next: nat, u: BitString, o: Outcome)
  {
    Reading(ahead, c, hold, bits, input, next, u) && PointOk(p) && Run(r, p, out, ahead[c..]) == o
  }

  /** The extra bits of the length, and then enough for the distance code. */
  method FastLenExtra(p0: Point, input: seq<nat>, next0: nat, hold0: nat, bits0: nat,
                      ghost r: Reader, ghost out: seq<nat>, ghost ahead: BitString, ghost c0: nat, ghost u: BitString, ghost o: Outcome,
                      ghost start: nat, ghost used: nat)
    returns (p: Point, next: nat, hold: nat, bits: nat)
    requires Steady(r) && Bounded(r) && AreBytes(input) && p0.mode == LENEXT
    requires Doing(r, p0, out, ahead, c0, hold0, bits0, input, next0, u, o)
    requires start + 6 <= |input| && used <= 15 && bits0 + used >= 8 * (next0 - start) && start <= next0
    ensures Doing(r, p, out, ahead, c0 + p0.extra, hold, bits, input, next, u, o)
    ensures p0.extra <= 5 && next0 <= next && bits + p0.extra == bits0 + 8 * (next - next0)
    ensures p.mode == DIST && 15 <= bits
  {
    next, hold, bits := next0, hold0, bits0;
    if bits < p0.extra {
      next, hold, bits := Refill(input, next, hold, bits, ahead, c0, u);
    }
    p, hold, bits := FastExtra(p0, hold, bits, r, out, ahead, c0, input, next, u);
    next, hold, bits := RefillCode(input, next, hold, bits, ahead, c0 + p0.extra, u);
  }

  /** The distance code and its extra bits. */
  method FastDistance(tabs: Tables, p0: Point, input: seq<nat>, next0: nat, hold0: nat, bits0: nat,
                      ghost r: Reader, ghost out: seq<nat>, ghost ahead: BitString, ghost c0: nat, ghost u: BitString, ghost o: Outcome,
                      ghost start: nat, ghost used: nat)
    returns (p: Point, next: nat, hold: nat, bits: nat, ghost c: nat)
    requires Tabled(tabs, r) && AreBytes(input) && p0.mode == DIST && 15 <= bits0
    requires Doing(r, p0, out, ahead, c0, hold0, bits0, input, next0, u, o)
    requires start + 6 <= |input| && used <= 20 && bits0 + used >= 8 * (next0 - start) && start <= next0
    ensures Doing(r, p, out, ahead, c, hold, bits, input, next, u, o)
    ensures c0 < c && next0 <= next && bits + (c - c0) == bits0 + 8 * (next - next0)
    ensures p.mode == BAD || (p.mode == MATCH && p.length >= 3)
  {
    next, hold, bits := next0, hold0, bits0;
    p, hold, bits, c := FastDist(tabs, p0, hold, bits, r, out, ahead, c0, input, next, u);
    if p.mode == BAD { return; }
    var op := p.extra;
    next, hold, bits := RefillExtra(op, input, next, hold, bits, ahead, c, u);
    p, hold, bits := FastExtra(p, hold, bits, r, out, ahead, c, input, next, u);
    c := c + op;
  }

  /** A literal is stored. */
  method FastLiteral(p0: Point, put: array<nat>, pos: nat, ghost h: seq<nat>, ghost r: Reader, ghost s: BitString) returns (p: Point)
    requires p0.mode == LIT && PointOk(p0) && pos < put.Length
    modifies put
    ensures p == p0.(mode := LEN) && put[..pos] == old(put[..pos])
    ensures Run(r, p, h + put[..pos + 1], s) == Run(r, p0, h + old(put[..pos]), s)
  {
    var pos';
    p, pos' := LitState(p0, put, pos, h, r, s);
  }

  /** A match is copied, or its distance is too far back. */
  method FastMatch(p0: Point, window: array<nat>, whave: nat, wnext: nat, put: array<nat>, pos: nat, ghost h: seq<nat>)
    returns (p: Point, pos': nat)
    requires p0.mode == MATCH && PointOk(p0) && p0.length >= 3 && window != put && window.Length == WSIZE && pos + 258 <= put.Length
    requires Holds(window[..], whave, wnext, h)
    modifies put
    ensures pos <= pos' <= pos + 258 && put[..pos] == old(put[..pos]) && (p.mode == LEN || p.mode == BAD)
    ensures Copied(p0, h + old(put[..pos]), p, h + put[..pos'])
  {
    pos' := pos;
    if p0.offset > pos {
      TooFar(window[..], whave, wnext, h, pos, p0.offset);
      if p0.offset - pos > whave {
        p := p0.(mode := BAD);
        return;
      }
    }
    FastCopy(window, whave, wnext, put, pos, p0.offset, p0.length, h);
    Unchanged(h, old(put[..pos]), put[..pos + p0.length], p0.offset, p0.length);
    assert put[..pos + p0.length][..pos] == put[..pos];
    pos' := pos + p0.length;
    p := p0.(length := 0, mode := LEN);
  }

  /** Bits left over from before the call are used up by the first code. */
  lemma {:induction false} UsesOldBits(look: BitString -> Code, hold0: nat, bits0: nat, hold: nat, bits: nat)
    requires forall s: BitString, u: BitString :: SteadyAt(look, s, u)
    requires bits0 < 8 || look(Held(hold0, bits0)).bits > bits0
    requires Held(hold0, bits0) <= Held(hold, bits)
    ensures bits0 - look(Held(hold, bits)).bits < 8
  {
    var s := Held(hold0, bits0);
    var u := Held(hold, bits)[bits0..];
    assert Held(hold, bits) == s + u;
    assert SteadyAt(look, s, u);
  }

  /** The part of an item after its length code. */
  method FinishItem(tabs: Tables, p0: Point, input: seq<nat>, next0: nat, hold0: nat, bits0: nat,
                    window: array<nat>, whave: nat, wnext: nat, put: array<nat>, pos: nat,
                    ghost h: seq<nat>, ghost r: Reader, ghost ahead: BitString, ghost c0: nat, ghost u: BitString, ghost o: Outcome,
                    ghost start: nat, ghost used: nat)
    returns (p: Point, next: nat, hold: nat, bits: nat, pos': nat, ghost c: nat)
    requires Tabled(tabs, r) && AreBytes(input) && p0.mode == LENEXT
    requires window != put && window.Length == WSIZE && pos + 258 <= put.Length && Holds(window[..], whave, wnext, h)
    requires Doing(r, p0, h + put[..pos], ahead, c0, hold0, bits0, input, next0, u, o)
    requires start + 6 <= |input| && used <= 15 && bits0 + used >= 8 * (next0 - start) && start <= next0
    modifies put
    ensures pos <= pos' <= pos + 258 && put[..pos] == old(put[..pos]) && (p.mode == LEN || p.mode == BAD)
    ensures Doing(r, p, h + put[..pos'], ahead, c, hold, bits, input, next, u, o)
    ensures c0 <= c && next0 <= next && bits + (c - c0) == bits0 + 8 * (next - next0)
  {
    ghost var out := h + put[..pos];
    p, next, hold, bits := FastLenExtra(p0, input, next0, hold0, bits0, r, out, ahead, c0, u, o, start, used);
    c := c0 + p0.extra;
    p, next, hold, bits, c := FastDistance(tabs, p, input, next, hold, bits, r, out, ahead, c, u, o, start, used + p0.extra);
    pos' := pos;
    if p.mode == MATCH {
      ghost var q := p;
      p, pos' := FastMatch(p, window, whave, wnext, put, pos, h);
      CopiedRuns(r, q, out, p, h + put[..pos'], ahead[c..]);
    }
  }

  /** One round of the loop. */
  method FastItem(tabs: Tables, p0: Point, input: seq<nat>, next0: nat, hold0: nat, bits0: nat,
                  window: array<nat>, whave: nat, wnext: nat, put: array<nat>, pos: nat,
                  ghost h: seq<nat>, ghost r: Reader, ghost ahead: BitString, ghost c0: nat, ghost u: BitString, ghost o: Outcome)
    returns (p: Point, next: nat, hold: nat, bits: nat, pos': nat, ghost c: nat)
    requires Tabled(tabs, r) && AreBytes(input) && p0.mode == LEN && next0 + 6 <= |input|
    requires window != put && window.Length == WSIZE && pos + 258 <= put.Length && Holds(window[..], whave, wnext, h)
    requires Doing(r, p0, h + put[..pos], ahead, c0, hold0, bits0, input, next0, u, o)
    modifies put
    ensures pos <= pos' <= pos + 258 && put[..pos] == old(put[..pos]) && (p.mode == LEN || p.mode == BAD || p.mode == TYPE)
    ensures Doing(r, p, h + put[..pos'], ahead, c, hold, bits, input, next, u, o)
    ensures c0 < c && next0 <= next && bits + (c - c0) == bits0 + 8 * (next - next0)
    ensures bits0 < 8 || r.len(Held(hold0, bits0)).bits > bits0 ==> bits0 - (c - c0) < 8
  {
    ghost var out := h + put[..pos];
    next, hold, bits := RefillCode(input, next0, hold0, bits0, ahead, c0, u);
    if bits0 < 8 || r.len(Held(hold0, bits0)).bits > bits0 {
      UsesOldBits(r.len, hold0, bits0, hold, bits);
    }
    p, hold, bits, c := FastLen(tabs, p0, hold, bits, r, out, ahead, c0, input, next, u);
    pos' := pos;
    if p.mode == LIT {
      p := FastLiteral(p, put, pos, h, r, ahead[c..]);
      pos' := pos + 1;
    } else if p.mode == LENEXT {
      ghost var c1 := c;
      p, next, hold, bits, pos', c := FinishItem(tabs, p, input, next, hold, bits, window, whave, wnext, put, pos,
                                                 h, r, ahead, c, u, o, next0, c - c0);
    }
  }

  // ----- returning unused bytes -----

  /** Whole bytes at the top of the accumulator are the last bytes read. */
  lemma {:induction false} TopBytes(hold0: nat, bits0: nat, input: seq<nat>, next0: nat, u: BitString,
                                    c: nat, hold: nat, bits: nat, next: nat, k: nat)
    requires next0 <= |input| && Reading(Ahead(hold0, bits0, input, next0, u), c, hold, bits, input, next, u)
    requires next0 <= next && bits + c == bits0 + 8 * (next - next0) && 8 * k <= bits && k <= next - next0
    ensures Held(hold, bits)[bits - 8 * k..] == ByteBits(input[next - k..next])
  {
    var ahead := Ahead(hold0, bits0, input, next0, u);
    var back := input[next - k..next];
    assert input[next0..] == input[next0..next - k] + back + input[next..];
    ByteBitsAppend(input[next0..next - k] + back, input[next..]);
    ByteBitsAppend(input[next0..next - k], back);
    var b, t := ByteBits(input[next0..next - k]), ByteBits(back);
    LastPiece(Held(hold0, bits0), b, t, ByteBits(input[next..]), u, ahead, c + bits - 8 * k, c + bits);
    assert Held(hold, bits) == ahead[c..][..bits];
    CutTwice(ahead, c, bits - 8 * k, bits);
  }

  lemma {:induction false} LastPiece(h: BitString, b: BitString, t: BitString, v: BitString, u: BitString, ahead: BitString, i: nat, j: nat)
    requires ahead == h + (((b + t) + v) + u) && i == |h| + |b| && j == i + |t|
    ensures j <= |ahead| && ahead[i..j] == t
  {
    assert ahead == ((h + b) + t) + (v + u);
  }

  lemma {:induction false} CutTwice(s: BitString, c: nat, i: nat, j: nat)
    requires i <= j && c + j <= |s|
    ensures s[c..][..j][i..] == s[c + i..c + j]
  {
  }

  /** len = bits >> 3; in -= len; bits -= len << 3; hold &= (1 << bits) - 1. */
  method GiveBack(hold: nat, bits: nat, ghost input: seq<nat>, next: nat, ghost hold0: nat, ghost bits0: nat, ghost next0: nat,
                  ghost c: nat, ghost u: BitString)
    returns (hold': nat, bits': nat, next': nat)
    requires next0 <= |input| && Reading(Ahead(hold0, bits0, input, next0, u), c, hold, bits, input, next, u)
    requires next0 <= next && bits + c == bits0 + 8 * (next - next0) && bits0 - c < 8
    ensures bits' < 8 && hold' < Pow2(bits') && next0 <= next' <= next
    ensures Ahead(hold', bits', input, next', u) == Ahead(hold, bits, input, next, u)
  {
    var len := bits / 8;
    next' := next - len;
    bits' := bits - 8 * len;
    hold' := Low(hold, bits');
    TopBytes(hold0, bits0, input, next0, u, c, hold, bits, next, len);
    LowHeld(hold, bits, bits');
    ByteBitsFrom(input, next', next);
    Together(Held(hold, bits), bits', ByteBits(input[next'..next]), ByteBits(input[next..]), u);
  }

  lemma {:induction false} ByteBitsFrom(input: seq<nat>, a: nat, b: nat)
    requires a <= b <= |input|
    ensures ByteBits(input[a..]) == ByteBits(input[a..b]) + ByteBits(input[b..])
  {
    assert input[a..] == input[a..b] + input[b..];
    ByteBitsAppend(input[a..b], input[b..]);
  }

  lemma {:induction false} Together(s: BitString, n: nat, b: BitString, t: BitString, u: BitString)
    requires n <= |s| && s[n..] == b
    ensures s[..n] + ((b + t) + u) == s + (t + u)
  {
    assert s == s[..n] + b;
  }

  lemma {:induction false} LowHeld(hold: nat, bits: nat, n: nat)
    requires hold < Pow2(bits) && n <= bits
    ensures Low(hold, n) < Pow2(n) && Held(Low(hold, n), n) == Held(hold, bits)[..n]
  {
    TakeBits(hold, bits, n);
    var s := Held(hold, bits)[..n];
    ValBound(s);
    ValLowBits(Low(hold, n), n);
    ValInjective(Held(Low(hold, n), n), s);
  }

  /**
   Decode while there are 6 bytes of input and 258 bytes of room.  Everything read and
   written is what the reference run says, no index leaves its buffer, and whole unread
   bytes are handed back.
   */
  method Fast(tabs: Tables, p0: Point, input: seq<nat>, next0: nat, hold0: nat, bits0: nat,
              window: array<nat>, whave: nat, wnext: nat, put: array<nat>, pos0: nat,
              ghost h: seq<nat>, ghost r: Reader, ghost u: BitString)
    returns (p: Point, next: nat, hold: nat, bits: nat, pos: nat)
    requires Tabled(tabs, r) && AreBytes(input) && p0.mode == LEN && next0 + 6 <= |input| && hold0 < Pow2(bits0)
    requires window != put && window.Length == WSIZE && pos0 + 258 <= put.Length && Holds(window[..], whave, wnext, h)
    requires Lean(r, p0, hold0, bits0)
    modifies put
    ensures next0 <= next <= |input| && bits < 8 && hold < Pow2(bits) && PointOk(p)
    ensures pos0 <= pos <= put.Length && put[..pos0] == old(put[..pos0])
    ensures p.mode == LEN || p.mode == BAD || p.mode == TYPE
    ensures Run(r, p, h + put[..pos], Ahead(hold, bits, input, next, u)) ==
              Run(r, p0, h + old(put[..pos0]), Ahead(hold0, bits0, input, next0, u))
    ensures Left(bits, input, next) < Left(bits0, input, next0)
  {
    ghost var ahead := Ahead(hold0, bits0, input, next0, u);
    ghost var o := Run(r, p0, h + put[..pos0], ahead);
    ghost var c: nat := 0;
    assert SteadyAt(r.len, Held(hold0, bits0), []);
    assert ahead[0..] == ahead;
    p, next, hold, bits, pos := p0, next0, hold0, bits0, pos0;
    while p.mode == LEN && next + 6 <= |input| && pos + 258 <= put.Length
      invariant pos0 <= pos <= put.Length && put[..pos0] == old(put[..pos0])
      invariant p.mode == LEN || p.mode == BAD || p.mode == TYPE
      invariant Doing(r, p, h + put[..pos], ahead, c, hold, bits, input, next, u, o)
      invariant next0 <= next && bits + c == bits0 + 8 * (next - next0)
      invariant if c == 0 then hold == hold0 && bits == bits0 && next == next0 && p == p0 && pos == pos0 else bits0 - c < 8
      decreases bits + 8 * (|input| - next)
    {
      ghost var c1, pos1 := c, pos;
      p, next, hold, bits, pos, c := FastItem(tabs, p, input, next, hold, bits, window, whave, wnext, put, pos, h, r, ahead, c, u, o);
      assert put[..pos0] == put[..pos1][..pos0];
    }
    hold, bits, next := GiveBack(hold, bits, input, next, hold0, bits0, next0, c, u);
    SizeAhead(hold, bits, input, next, u);
    SizeAhead(hold0, bits0, input, next0, u);
  }

  lemma {:induction false} SizeAhead(hold: nat, bits: nat, input: seq<nat>, next: nat, u: BitString)
    requires next <= |input|
    ensures |Ahead(hold, bits, input, next, u)| == Left(bits, input, next) + |u|
  {
  }
}
