/**
 The output side of inflate.c: states MATCH and LIT, with copies from the output buffer
 and from the circular window.
 */
module InflateCopy {
  import opened Bits
  import opened Decoding
  import opened InflateWindow

  // ----- copying from a distance back -----

  /** n bytes appended, each a copy of the byte o back. */
  function Extend(out: seq<nat>, o: nat, n: nat): (r: seq<nat>)
    requires 1 <= o <= |out|
    ensures |r| == |out| + n && out <= r
    decreases n
  {
    if n == 0 then out else Extend(out + [out[|out| - o]], o, n - 1)
  }

  /** A match is determined by this: each byte repeats the byte o before it. */
  lemma {:induction false} ExtendUnique(out: seq<nat>, o: nat, n: nat, r: seq<nat>)
    requires 1 <= o <= |out| && |r| == |out| + n && out <= r
    requires forall i :: |out| <= i < |r| ==> r[i] == r[i - o]
    ensures r == Extend(out, o, n)
    decreases n
  {
    if n > 0 {
      var more := out + [out[|out| - o]];
      assert more <= r by { assert r[|out|] == r[|out| - o] == out[|out| - o]; }
      ExtendUnique(more, o, n - 1, r);
    }
  }

  lemma {:induction false} ExtendTwice(out: seq<nat>, o: nat, a: nat, b: nat)
    requires 1 <= o <= |out|
    ensures Extend(Extend(out, o, a), o, b) == Extend(out, o, a + b)
    decreases a
  {
    if a > 0 {
      ExtendTwice(out + [out[|out| - o]], o, a - 1, b);
    }
  }

  /** Bytes before the buffer do not matter when the distance stays inside it. */
  lemma {:induction false} ExtendInside(h: seq<nat>, p: seq<nat>, o: nat, n: nat)
    requires 1 <= o <= |p|
    ensures h + Extend(p, o, n) == Extend(h + p, o, n)
    decreases n
  {
    if n > 0 {
      assert h + (p + [p[|p| - o]]) == (h + p) + [(h + p)[|h + p| - o]];
      ExtendInside(h, p + [p[|p| - o]], o, n - 1);
    }
  }

  /** n bytes from index `from` are those from `back` bytes before the write index on. */
  predicate InOnePiece(wsize: nat, wnext: nat, back: nat, from: nat, n: nat)
  {
    && n <= back <= wsize && wnext < wsize && from + n <= wsize
    && if back > wnext then from == wsize - (back - wnext) && n <= back - wnext else from == wnext - back
  }

  /** Bytes taken from the window, while the distance reaches into it. */
  lemma {:induction false} ExtendWindow(h: seq<nat>, p: seq<nat>, o: nat, w: seq<nat>, whave: nat, wnext: nat, from: nat, n: nat)
    requires Holds(w, whave, wnext, h) && |p| < o && o - |p| <= whave && n <= o - |p|
    requires InOnePiece(|w|, wnext, o - |p|, from, n)
    ensures 1 <= o <= |h + p| && h + (p + w[from..from + n]) == Extend(h + p, o, n)
  {
    var r := h + (p + w[from..from + n]);
    forall i | |h + p| <= i < |r| ensures r[i] == r[i - o] {
      var k := i - |h + p|;
      assert HoldsAt(w, wnext, h, o - |p| - k);
      assert At(|w|, wnext, o - |p| - k) == from + k;
      assert r[i] == w[from + k];
      assert r[i - o] == h[|h| - (o - |p| - k)];
    }
    ExtendUnique(h + p, o, n, r);
  }

  /** A match copied in one go. */
  lemma {:induction false} RunCopies(r: Reader, p: Point, out: seq<nat>, s: BitString, n: nat)
    requires p.mode == MATCH && n <= p.length && 1 <= p.length && 1 <= p.offset <= |out|
    ensures var p' := p.(length := p.length - n, mode := if n == p.length then LEN else MATCH);
            Run(r, p', Extend(out, p.offset, n), s) == Run(r, p, out, s)
    decreases n
  {
    if n > 0 {
      var c := CopyOne(p, out);
      assert Run(r, p, out, s) == Run(r, c.0, c.1, s);
      if n > 1 {
        RunCopies(r, c.0, c.1, s, n - 1);
      }
    }
  }

  // ----- the loops -----

  method FromWindow(window: array<nat>, from: nat, put: array<nat>, pos: nat, n: nat)
    requires window != put && from + n <= window.Length && pos + n <= put.Length
    modifies put
    ensures put[..pos + n] == old(put[..pos]) + window[from..from + n]
  {
    var k := 0;
    while k < n
      invariant 0 <= k <= n
      invariant put[..pos + k] == old(put[..pos]) + window[from..from + k]
    {
      put[pos + k] := window[from + k];
      assert put[..pos + k + 1] == put[..pos + k] + [window[from + k]];
      k := k + 1;
    }
  }

  method FromOutput(put: array<nat>, pos: nat, o: nat, n: nat)
    requires 1 <= o <= pos && pos + n <= put.Length
    modifies put
    ensures put[..pos + n] == Extend(old(put[..pos]), o, n)
  {
    var k := 0;
    while k < n
      invariant 0 <= k <= n
      invariant put[..pos] == old(put[..pos])
      invariant forall i :: pos <= i < pos + k ==> put[i] == put[i - o]
    {
      put[pos + k] := put[pos + k - o];
      k := k + 1;
    }
    ExtendUnique(old(put[..pos]), o, n, put[..pos + n]);
  }

  // ----- MATCH and LIT -----

  /** The window's 32K reach as far back as any distance the output allows. */
  lemma {:induction false} TooFar(w: seq<nat>, whave: nat, wnext: nat, h: seq<nat>, pos: nat, o: nat)
    requires Holds(w, whave, wnext, h) && |w| == WSIZE && pos < o <= WSIZE
    ensures o - pos > whave <==> o > |h| + pos
  {
  }

  /** As much of a match as one source and the room allow: all of it from the output, from the window
      up to where the window wraps or the output begins. */
  function Portion(length: nat, offset: nat, wnext: nat, pos: nat, room: nat): nat
  {
    var source := if offset <= pos then length else if offset - pos > wnext then offset - pos - wnext else offset - pos;
    Lesser(length, Lesser(source, room))
  }


  /** Copy from the window as much as is in one piece. */
  method CopyWindow(length: nat, offset: nat, window: array<nat>, whave: nat, wnext: nat, put: array<nat>, pos: nat, ghost h: seq<nat>)
    returns (n: nat)
    requires window != put && pos < put.Length && length >= 1 && pos < offset && offset - pos <= whave
    requires Holds(window[..], whave, wnext, h)
    modifies put
    ensures 1 <= n <= length && pos + n <= put.Length && 1 <= offset <= |h| + pos
    ensures n == Portion(length, offset, wnext, pos, put.Length - pos)
    ensures h + put[..pos + n] == Extend(h + old(put[..pos]), offset, n)
  {
    n := offset - pos;
    var from;
    if n > wnext {
      n := n - wnext;
      from := window.Length - n;
    } else {
      from := wnext - n;
    }
    if n > length { n := length; }
    if n > put.Length - pos { n := put.Length - pos; }
    ExtendWindow(h, put[..pos], offset, window[..], whave, wnext, from, n);
    FromWindow(window, from, put, pos, n);
    assert window[..][from..from + n] == window[from..from + n];
  }

  /** Copy from the output written in this call. */
  method CopyOutput(length: nat, offset: nat, put: array<nat>, pos: nat, ghost h: seq<nat>)
    returns (n: nat)
    requires pos < put.Length && length >= 1 && 1 <= offset <= pos
    modifies put
    ensures 1 <= n <= length && pos + n <= put.Length && n == Portion(length, offset, 0, pos, put.Length - pos)
    ensures h + put[..pos + n] == Extend(h + old(put[..pos]), offset, n)
  {
    n := length;
    if n > put.Length - pos { n := put.Length - pos; }
    ExtendInside(h, put[..pos], offset, n);
    FromOutput(put, pos, offset, n);
  }

  lemma {:induction false} BadRun(r: Reader, p: Point, out: seq<nat>, s: BitString)
    requires p.mode == MATCH && p.length >= 1 && p.offset > |out|
    ensures Run(r, p.(mode := BAD), out, s) == Run(r, p, out, s)
  {
    assert CopyOne(p, out) == (p.(mode := BAD), out);
  }

  lemma {:induction false} Unchanged(h: seq<nat>, p0: seq<nat>, p1: seq<nat>, o: nat, n: nat)
    requires 1 <= o <= |h + p0| && h + p1 == Extend(h + p0, o, n) && |p0| <= |p1|
    ensures p1[..|p0|] == p0
  {
    assert (h + p1)[|h|..|h| + |p0|] == (h + p0)[|h|..];
    assert p1[..|p0|] == (h + p1)[|h|..|h| + |p0|];
    assert (h + p0)[|h|..] == p0;
  }

  /** Part of a match was copied, or its distance is too far back. */
  ghost predicate Copied(p: Point, out: seq<nat>, p': Point, out': seq<nat>)
  {
    if p'.mode == BAD then p' == p.(mode := BAD) && p.offset > |out| && out' == out
    else
      && 1 <= p.offset <= |out| && |out| < |out'| && |out'| - |out| <= p.length
      && out' == Extend(out, p.offset, |out'| - |out|)
      && p' == p.(length := p.length - (|out'| - |out|), mode := if p.length == |out'| - |out| then LEN else MATCH)
  }

  lemma {:induction false} CopiedRuns(r: Reader, p: Point, out: seq<nat>, p': Point, out': seq<nat>, s: BitString)
    requires Copied(p, out, p', out') && p.mode == MATCH && p.length >= 1
    ensures Run(r, p', out', s) == Run(r, p, out, s)
  {
    var n := |out'| - |out|;
    if p'.mode == BAD {
      BadRun(r, p, out, s);
      assert p' == p.(mode := BAD) && out' == out;
    } else {
      RunCopies(r, p, out, s, n);
      assert p' == p.(length := p.length - n, mode := if n == p.length then LEN else MATCH);
      assert out' == Extend(out, p.offset, n);
    }
  }

  /** From the window or from the output. */
  method CopyPortion(length: nat, offset: nat, window: array<nat>, whave: nat, wnext: nat, put: array<nat>, pos: nat, ghost h: seq<nat>)
    returns (n: nat)
    requires window != put && pos < put.Length && length >= 1 && offset >= 1 && (offset > pos ==> offset - pos <= whave)
    requires Holds(window[..], whave, wnext, h)
    modifies put
    ensures 1 <= n <= length && n == Portion(length, offset, wnext, pos, put.Length - pos) && 1 <= offset <= |h| + pos
    ensures pos + n <= put.Length && h + put[..pos + n] == Extend(h + old(put[..pos]), offset, n)
  {
    if offset > pos {
      n := CopyWindow(length, offset, window, whave, wnext, put, pos, h);
    } else {
      n := CopyOutput(length, offset, put, pos, h);
    }
  }

  /** MATCH, with room for at least one byte.  Copies as much of the match as one source and
      the room allow. */
  method MatchState(p: Point, window: array<nat>, whave: nat, wnext: nat, put: array<nat>, pos: nat, ghost h: seq<nat>)
    returns (p': Point, pos': nat)
    requires p.mode == MATCH && PointOk(p) && window != put && window.Length == WSIZE && pos < put.Length
    requires Holds(window[..], whave, wnext, h)
    modifies put
    ensures pos <= pos' <= put.Length && put[..pos] == old(put[..pos]) && PointOk(p')
    ensures p'.mode != BAD ==> pos' == pos + Portion(p.length, p.offset, wnext, pos, put.Length - pos)
    ensures Copied(p, h + old(put[..pos]), p', h + put[..pos'])
  {
    pos', p' := pos, p;
    if p.offset > pos {
      TooFar(window[..], whave, wnext, h, pos, p.offset);
      if p.offset - pos > whave {
        p' := p.(mode := BAD);
        return;
      }
    }
    var copy := CopyPortion(p.length, p.offset, window, whave, wnext, put, pos, h);
    Unchanged(h, old(put[..pos]), put[..pos + copy], p.offset, copy);
    assert put[..pos + copy][..pos] == put[..pos];
    pos' := pos + copy;
    p' := p.(length := p.length - copy);
    if p'.length == 0 { p' := p'.(mode := LEN); }
  }

  /** LIT, with room for a byte. */
  method LitState(p: Point, put: array<nat>, pos: nat, ghost h: seq<nat>, ghost r: Reader, ghost s: BitString)
    returns (p': Point, pos': nat)
    requires p.mode == LIT && pos < put.Length
    modifies put
    ensures pos' == pos + 1 && put[..pos] == old(put[..pos]) && p' == p.(mode := LEN)
    ensures Run(r, p', h + put[..pos'], s) == Run(r, p, h + old(put[..pos]), s)
  {
    put[pos] := p.length;
    p', pos' := p.(mode := LEN), pos + 1;
    assert h + put[..pos'] == (h + put[..pos]) + [p.length];
  }
}
