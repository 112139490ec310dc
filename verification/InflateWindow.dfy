/**
 The circular window of inflate.c: it always holds the last min(total, wsize) bytes of
 output, whatever pieces the output was delivered in.
 */
module InflateWindow {
  /** Index of the byte d back from the write index. */
  function At(n: nat, wnext: nat, d: nat): (i: nat)
    requires 1 <= d <= n && wnext < n
    ensures i < n
  {
    if d <= wnext then wnext - d else n + wnext - d
  }

  ghost predicate HoldsAt(w: seq<nat>, wnext: nat, h: seq<nat>, d: nat)
  {
    1 <= d <= |h| && d <= |w| && wnext < |w| && w[At(|w|, wnext, d)] == h[|h| - d]
  }

  /** The window holds the end of h; until it is full the write index counts its bytes. */
  ghost predicate Holds(w: seq<nat>, whave: nat, wnext: nat, h: seq<nat>)
  {
    && wnext < |w| && whave == (if |h| < |w| then |h| else |w|) && (|h| < |w| ==> wnext == |h|)
    && forall d: nat :: 1 <= d <= whave ==> HoldsAt(w, wnext, h, d)
  }

  /** zmemcpy between different buffers. */
  method Copy(dst: array<nat>, to: nat, src: array<nat>, from: nat, n: nat)
    requires dst != src && to + n <= dst.Length && from + n <= src.Length
    modifies dst
    ensures forall i :: 0 <= i < dst.Length ==> dst[i] == if to <= i < to + n then src[from + (i - to)] else old(dst[i])
  {
    var k := 0;
    while k < n
      invariant 0 <= k <= n
      invariant forall i :: 0 <= i < dst.Length ==> dst[i] == if to <= i < to + k then src[from + (i - to)] else old(dst[i])
    {
      dst[to + k] := src[from + k];
      k := k + 1;
    }
  }

  /** The whole window is new. */
  lemma {:induction false} Replaced(w: seq<nat>, p: seq<nat>, h: seq<nat>)
    requires 0 < |w| <= |p| && forall i :: 0 <= i < |w| ==> w[i] == p[|p| - |w| + i]
    ensures Holds(w, |w|, 0, h + p)
  {
    forall d: nat | 1 <= d <= |w| ensures HoldsAt(w, 0, h + p, d) {
      assert At(|w|, 0, d) == |w| - d;
      assert (h + p)[|h + p| - d] == p[|p| - d];
    }
  }

  /** The new bytes fit before the end of the window. */
  lemma {:induction false} Appended(w0: seq<nat>, w: seq<nat>, whave: nat, wnext: nat, h: seq<nat>, p: seq<nat>, wnext': nat, whave': nat)
    requires Holds(w0, whave, wnext, h) && |w| == |w0| && |p| < |w| && wnext + |p| <= |w|
    requires forall i :: 0 <= i < |w| ==> w[i] == if wnext <= i < wnext + |p| then p[i - wnext] else w0[i]
    requires wnext' == if wnext + |p| == |w| then 0 else wnext + |p|
    requires whave' == if whave < |w| then whave + |p| else whave
    ensures Holds(w, whave', wnext', h + p)
  {
    forall d: nat | 1 <= d <= whave' ensures HoldsAt(w, wnext', h + p, d) {
      if d <= |p| {
        assert At(|w|, wnext', d) == wnext + |p| - d;
        assert (h + p)[|h + p| - d] == p[|p| - d];
      } else {
        assert HoldsAt(w0, wnext, h, d - |p|);
        assert At(|w|, wnext', d) == At(|w|, wnext, d - |p|);
        assert (h + p)[|h + p| - d] == h[|h| - (d - |p|)];
      }
    }
  }

  /** The new bytes run over the end of the window to its start. */
  lemma {:induction false} Wrapped(w0: seq<nat>, w: seq<nat>, whave: nat, wnext: nat, h: seq<nat>, p: seq<nat>)
    requires Holds(w0, whave, wnext, h) && |w| == |w0| && |p| < |w| < wnext + |p|
    requires forall i :: 0 <= i < |w| ==>
               w[i] == if wnext <= i then p[i - wnext] else if i < wnext + |p| - |w| then p[|w| - wnext + i] else w0[i]
    ensures Holds(w, |w|, wnext + |p| - |w|, h + p)
  {
    var wnext' := wnext + |p| - |w|;
    forall d: nat | 1 <= d <= |w| ensures HoldsAt(w, wnext', h + p, d) {
      if d <= |p| {
        assert (h + p)[|h + p| - d] == p[|p| - d];
      } else {
        assert HoldsAt(w0, wnext, h, d - |p|);
        assert At(|w|, wnext', d) == At(|w|, wnext, d - |p|);
        assert (h + p)[|h + p| - d] == h[|h| - (d - |p|)];
      }
    }
  }

  /** `updatewindow`: take the last `made` bytes written before `end`. */
  method UpdateWindow(window: array<nat>, whave0: nat, wnext0: nat, put: array<nat>, made: nat, ghost h: seq<nat>)
    returns (whave: nat, wnext: nat)
    requires window != put && made <= put.Length && Holds(window[..], whave0, wnext0, h)
    modifies window
    ensures Holds(window[..], whave, wnext, h + put[..made])
  {
    ghost var w0, p := window[..], put[..made];
    var wsize, end, copy := window.Length, made, made;
    whave, wnext := whave0, wnext0;
    if copy >= wsize {
      Copy(window, 0, put, end - wsize, wsize);
      wnext, whave := 0, wsize;
      Replaced(window[..], p, h);
    } else {
      var dist := wsize - wnext;
      if dist > copy { dist := copy; }
      Copy(window, wnext, put, end - copy, dist);
      copy := copy - dist;
      if copy != 0 {
        ghost var w1 := window[..];
        Copy(window, 0, put, end - copy, copy);
        wnext, whave := copy, wsize;
        Wrapped(w0, window[..], whave0, wnext0, h, p);
      } else {
        wnext := wnext + dist;
        if wnext == wsize { wnext := 0; }
        if whave < wsize { whave := whave + dist; }
        Appended(w0, window[..], whave0, wnext0, h, p, wnext, whave);
      }
    }
  }
}
