/**
 The canonical reordering loop of utf8proc.c: every run of non-starters is sorted by
 combining class, stably, in place. `cc` is the combining class of a code point.
 */
module CanonicalOrder {
  /** Two neighbours that must be exchanged. */
  predicate Reorderable(cc: int -> nat, a: int, b: int) { cc(a) > cc(b) > 0 }

  /** x put where it belongs after the ordered code points s: the Canonical Ordering
      Algorithm, one code point at a time. */
  function Inserted(cc: int -> nat, s: seq<int>, x: int): (r: seq<int>)
    ensures |r| == |s| + 1
  {
    if s != [] && Reorderable(cc, s[|s| - 1], x) then Inserted(cc, s[..|s| - 1], x) + [s[|s| - 1]] else s + [x]
  }

  function Ordered(cc: int -> nat, s: seq<int>): (r: seq<int>)
    ensures |r| == |s|
  {
    if s == [] then [] else Inserted(cc, Ordered(cc, s[..|s| - 1]), s[|s| - 1])
  }

  // ----- what the order is -----

  /** No two neighbours must be exchanged. */
  ghost predicate InOrder(cc: int -> nat, s: seq<int>)
  {
    forall i :: 0 < i < |s| ==> !Reorderable(cc, s[i - 1], s[i])
  }

  lemma {:induction false} InsertedInOrder(cc: int -> nat, s: seq<int>, x: int)
    requires InOrder(cc, s)
    ensures InOrder(cc, Inserted(cc, s, x))
    ensures var r := Inserted(cc, s, x); r[|s|] == x || (s != [] && r[|s|] == s[|s| - 1])
  {
    if s != [] && Reorderable(cc, s[|s| - 1], x) {
      InsertedInOrder(cc, s[..|s| - 1], x);
    }
  }

  /** The result is in canonical order. */
  lemma {:induction false} OrderedInOrder(cc: int -> nat, s: seq<int>)
    ensures InOrder(cc, Ordered(cc, s))
  {
    if s != [] {
      OrderedInOrder(cc, s[..|s| - 1]);
      InsertedInOrder(cc, Ordered(cc, s[..|s| - 1]), s[|s| - 1]);
    }
  }

  /** The code points of one class, in their order. */
  ghost function OfClass(cc: int -> nat, s: seq<int>, c: nat): seq<int>
  {
    if s == [] then [] else OfClass(cc, s[..|s| - 1], c) + if cc(s[|s| - 1]) == c then [s[|s| - 1]] else []
  }

  lemma {:induction false} OfClassOne(cc: int -> nat, s: seq<int>, x: int, c: nat)
    ensures OfClass(cc, s + [x], c) == OfClass(cc, s, c) + if cc(x) == c then [x] else []
  {
    assert (s + [x])[..|s|] == s;
  }

  lemma {:induction false} InsertedStable(cc: int -> nat, s: seq<int>, x: int, c: nat)
    ensures OfClass(cc, Inserted(cc, s, x), c) == OfClass(cc, s + [x], c)
  {
    if s != [] && Reorderable(cc, s[|s| - 1], x) {
      var s', y := s[..|s| - 1], s[|s| - 1];
      InsertedStable(cc, s', x, c);
      OfClassOne(cc, Inserted(cc, s', x), y, c);
      assert s == s' + [y];
      Exchanged(cc, s', x, y, c);
    }
  }

  /** Neighbours of different classes do not matter to each other. */
  lemma {:induction false} Exchanged(cc: int -> nat, s: seq<int>, x: int, y: int, c: nat)
    requires cc(x) != cc(y)
    ensures OfClass(cc, s + [x], c) + (if cc(y) == c then [y] else []) == OfClass(cc, s + [y] + [x], c)
  {
    OfClassOne(cc, s, x, c);
    OfClassOne(cc, s, y, c);
    OfClassOne(cc, s + [y], x, c);
  }

  /** Code points of the same class keep their order. */
  lemma {:induction false} OrderedStable(cc: int -> nat, s: seq<int>, c: nat)
    ensures OfClass(cc, Ordered(cc, s), c) == OfClass(cc, s, c)
  {
    if s != [] {
      var s', x := s[..|s| - 1], s[|s| - 1];
      OrderedStable(cc, s', c);
      InsertedStable(cc, Ordered(cc, s'), x, c);
      OfClassOne(cc, Ordered(cc, s'), x, c);
    }
  }

  lemma {:induction false} InsertedPermutes(cc: int -> nat, s: seq<int>, x: int)
    ensures multiset(Inserted(cc, s, x)) == multiset(s) + multiset{x}
  {
    if s != [] && Reorderable(cc, s[|s| - 1], x) {
      InsertedPermutes(cc, s[..|s| - 1], x);
      assert s == s[..|s| - 1] + [s[|s| - 1]];
    }
  }

  lemma {:induction false} LastOf(s: seq<int>)
    requires s != []
    ensures multiset(s) == multiset(s[..|s| - 1]) + multiset{s[|s| - 1]}
  {
    assert s == s[..|s| - 1] + [s[|s| - 1]];
  }

  lemma {:induction false} OrderedPermutes(cc: int -> nat, s: seq<int>)
    ensures multiset(Ordered(cc, s)) == multiset(s)
  {
    if s != [] {
      OrderedPermutes(cc, s[..|s| - 1]);
      InsertedPermutes(cc, Ordered(cc, s[..|s| - 1]), s[|s| - 1]);
      LastOf(s);
    }
  }

  lemma {:induction false} InsertedAfter(cc: int -> nat, a: seq<int>, b: seq<int>, x: int)
    requires a != [] && cc(a[|a| - 1]) == 0
    ensures Inserted(cc, a + b, x) == a + Inserted(cc, b, x)
    decreases |b|
  {
    if b == [] {
      assert a + b == a;
    } else if Reorderable(cc, b[|b| - 1], x) {
      assert (a + b)[..|a + b| - 1] == a + b[..|b| - 1];
      InsertedAfter(cc, a, b[..|b| - 1], x);
    }
  }

  /** Nothing passes a starter: it stays in place, and the runs on both sides are ordered by
      themselves. */
  lemma {:induction false} StarterSplits(cc: int -> nat, a: seq<int>, z: int, b: seq<int>)
    requires cc(z) == 0
    ensures Ordered(cc, a + [z] + b) == Ordered(cc, a) + [z] + Ordered(cc, b)
    decreases |b|
  {
    if b == [] {
      assert a + [z] + b == a + [z];
      OrderedOne(cc, a, z);
      assert Ordered(cc, a) + [z] + [] == Ordered(cc, a) + [z];
    } else {
      var b', x := b[..|b| - 1], b[|b| - 1];
      assert a + [z] + b == (a + [z] + b') + [x];
      OrderedOne(cc, a + [z] + b', x);
      StarterSplits(cc, a, z, b');
      InsertedAfter(cc, Ordered(cc, a) + [z], Ordered(cc, b'), x);
    }
  }

  lemma {:induction false} OrderedOne(cc: int -> nat, s: seq<int>, x: int)
    ensures Ordered(cc, s + [x]) == Inserted(cc, Ordered(cc, s), x)
  {
    assert (s + [x])[..|s|] == s;
  }

  // ----- a stable sort is determined -----

  /** A run of non-starters in ascending order. */
  ghost predicate SortedRun(cc: int -> nat, s: seq<int>)
  {
    (forall i :: 0 <= i < |s| ==> cc(s[i]) > 0) && InOrder(cc, s)
  }

  lemma {:induction false} ClassAtMost(cc: int -> nat, s: seq<int>, c: nat)
    requires SortedRun(cc, s) && OfClass(cc, s, c) != []
    ensures s != [] && c <= cc(s[|s| - 1])
  {
    if s != [] && cc(s[|s| - 1]) != c {
      ClassAtMost(cc, s[..|s| - 1], c);
      assert !Reorderable(cc, s[|s| - 2], s[|s| - 1]);
    }
  }

  /** Sorted runs with the same code points in each class are the same. */
  lemma {:induction false} SortedRunUnique(cc: int -> nat, r: seq<int>, s: seq<int>)
    requires SortedRun(cc, r) && SortedRun(cc, s) && |r| == |s| && forall c: nat :: OfClass(cc, r, c) == OfClass(cc, s, c)
    ensures r == s
    decreases |r|
  {
    if r != [] {
      var r', s' := r[..|r| - 1], s[..|s| - 1];
      SameLast(cc, r, s);
      var x := r[|r| - 1];
      forall d: nat ensures OfClass(cc, r', d) == OfClass(cc, s', d) {
        assert OfClass(cc, r, d) == OfClass(cc, s, d);
        SameRest(OfClass(cc, r', d), OfClass(cc, s', d), if cc(x) == d then [x] else []);
      }
      SortedRunUnique(cc, r', s');
      assert r == r' + [x] && s == s' + [x];
    }
  }

  lemma {:induction false} SameLast(cc: int -> nat, r: seq<int>, s: seq<int>)
    requires SortedRun(cc, r) && SortedRun(cc, s) && |r| == |s| > 0 && forall c: nat :: OfClass(cc, r, c) == OfClass(cc, s, c)
    ensures r[|r| - 1] == s[|s| - 1]
  {
    var x, y := r[|r| - 1], s[|s| - 1];
    LastOfClass(cc, r);
    LastOfClass(cc, s);
    ClassAtMost(cc, s, cc(x));
    ClassAtMost(cc, r, cc(y));
  }

  lemma {:induction false} LastOfClass(cc: int -> nat, s: seq<int>)
    requires s != []
    ensures var x := s[|s| - 1]; var t := OfClass(cc, s, cc(x)); t != [] && t[|t| - 1] == x
  {
  }

  lemma {:induction false} SameRest(a: seq<int>, b: seq<int>, x: seq<int>)
    requires a + x == b + x
    ensures a == b
  {
    assert a == (a + x)[..|a + x| - |x|] && b == (b + x)[..|b + x| - |x|];
  }

  // ----- the loop -----

  /** The code point at `at` is on its way down: those it has passed are above it. */
  ghost predicate OnItsWay(cc: int -> nat, buf: seq<int>, s: seq<int>, m: nat, at: nat)
  {
    && at <= m < |s| == |buf|
    && var a, x := Ordered(cc, s[..m]), s[m];
    && buf == a[..at] + [x] + a[at..] + s[m + 1..]
    && forall j :: at <= j < m ==> Reorderable(cc, a[j], x)
  }

  /** The first m code points are in their order. */
  ghost predicate DoneTo(cc: int -> nat, buf: seq<int>, s: seq<int>, m: nat)
  {
    m <= |s| && buf == Ordered(cc, s[..m]) + s[m..]
  }

  lemma {:induction false} InsertedAt(cc: int -> nat, a: seq<int>, x: int, at: nat)
    requires at <= |a| && (forall j :: at <= j < |a| ==> Reorderable(cc, a[j], x)) && (at > 0 ==> !Reorderable(cc, a[at - 1], x))
    ensures Inserted(cc, a, x) == a[..at] + [x] + a[at..]
    decreases |a|
  {
    if at < |a| {
      InsertedAt(cc, a[..|a| - 1], x, at);
      assert a[..|a| - 1][..at] == a[..at];
      assert a[at..] == a[..|a| - 1][at..] + [a[|a| - 1]];
    }
  }

  /** It has found its place. */
  lemma {:induction false} Settles(cc: int -> nat, buf: seq<int>, s: seq<int>, m: nat, at: nat)
    requires OnItsWay(cc, buf, s, m, at) && (at > 0 ==> !Reorderable(cc, Ordered(cc, s[..m])[at - 1], s[m]))
    ensures DoneTo(cc, buf, s, m + 1)
  {
    InsertedAt(cc, Ordered(cc, s[..m]), s[m], at);
    assert s[..m + 1][..m] == s[..m];
  }

  /** The next one sets out. */
  lemma {:induction false} SetsOut(cc: int -> nat, buf: seq<int>, s: seq<int>, m: nat)
    requires DoneTo(cc, buf, s, m) && m < |s|
    ensures OnItsWay(cc, buf, s, m, m)
  {
    var a := Ordered(cc, s[..m]);
    assert a[..m] == a && a[m..] == [] && s[m..] == [s[m]] + s[m + 1..];
  }

  lemma {:induction false} Passes(cc: int -> nat, buf: seq<int>, s: seq<int>, m: nat, at: nat, buf': seq<int>)
    requires OnItsWay(cc, buf, s, m, at) && at > 0 && Reorderable(cc, buf[at - 1], buf[at])
    requires buf' == buf[at - 1 := buf[at]][at := buf[at - 1]]
    ensures OnItsWay(cc, buf', s, m, at - 1)
  {
    var a, x := Ordered(cc, s[..m]), s[m];
    assert buf[at] == x && buf[at - 1] == a[at - 1];
    assert a[..at] == a[..at - 1] + [a[at - 1]] && a[at - 1..] == [a[at - 1]] + a[at..];
    assert buf' == a[..at - 1] + [x] + a[at - 1..] + s[m + 1..];
  }

  /** Where the loop is: m code points are done and it goes up through them, or the next one
      is on its way down. */
  ghost predicate LoopAt(cc: int -> nat, buf: seq<int>, s: seq<int>, m: nat, down: bool, pos: nat)
  {
    && |buf| == |s|
    && if down then pos < m && OnItsWay(cc, buf, s, m, pos + 1)
       else pos <= m && (m < |s| ==> pos < m) && DoneTo(cc, buf, s, m)
  }

  /** Before a comparison the next code point sets out, if it is its turn. */
  lemma {:induction false} Comparing(cc: int -> nat, buf: seq<int>, s: seq<int>, m: nat, down: bool, pos: nat)
    requires LoopAt(cc, buf, s, m, down, pos) && pos + 1 < |s|
    ensures var down' := down || pos + 1 == m;
            LoopAt(cc, buf, s, m, down', pos) && (!down' ==> pos + 1 < m && !Reorderable(cc, buf[pos], buf[pos + 1]))
  {
    if !down {
      if pos + 1 == m {
        SetsOut(cc, buf, s, m);
      } else {
        var a := Ordered(cc, s[..m]);
        OrderedInOrder(cc, s[..m]);
        assert buf[pos] == a[pos] && buf[pos + 1] == a[pos + 1];
        assert !Reorderable(cc, a[pos + 1 - 1], a[pos + 1]);
      }
    }
  }

  lemma {:induction false} AfterSwap(cc: int -> nat, buf: seq<int>, s: seq<int>, m: nat, pos: nat, buf': seq<int>)
    requires LoopAt(cc, buf, s, m, true, pos) && pos + 1 < |s| && Reorderable(cc, buf[pos], buf[pos + 1])
    requires buf' == buf[pos := buf[pos + 1]][pos + 1 := buf[pos]]
    ensures if pos > 0 then LoopAt(cc, buf', s, m, true, pos - 1) else LoopAt(cc, buf', s, m + 1, false, pos + 1)
  {
    Passes(cc, buf, s, m, pos + 1, buf');
    if pos == 0 {
      Settles(cc, buf', s, m, 0);
    }
  }

  lemma {:induction false} AfterKeep(cc: int -> nat, buf: seq<int>, s: seq<int>, m: nat, down: bool, pos: nat)
    requires LoopAt(cc, buf, s, m, down, pos) && pos + 1 < |s| && !Reorderable(cc, buf[pos], buf[pos + 1]) && (!down ==> pos + 1 < m)
    ensures LoopAt(cc, buf, s, if down then m + 1 else m, false, pos + 1)
  {
    if down {
      var a := Ordered(cc, s[..m]);
      assert buf[pos] == a[pos] && buf[pos + 1] == s[m];
      Settles(cc, buf, s, m, pos + 1);
    }
  }

  /** The loop gets on: the next code point is in its place, or sets out, or one step was made. */
  ghost predicate GetsOn(m: nat, down: bool, pos: nat, m': nat, down': bool, pos': nat)
  {
    m < m' || (m == m' && ((down' && !down) || (down == down' && if down then pos' < pos else pos < pos')))
  }

  /** One pass through the loop: a swap and a step back, or a step on. */
  method Pass(cc: int -> nat, buffer: array<int>, wpos: nat, pos: nat, ghost s: seq<int>, ghost m: nat, ghost down: bool)
    returns (pos': nat, ghost m': nat, ghost down': bool)
    requires pos + 1 < wpos <= buffer.Length && wpos == |s| && m <= wpos && LoopAt(cc, buffer[..wpos], s, m, down, pos)
    requires !down ==> pos + 1 < m && !Reorderable(cc, buffer[pos], buffer[pos + 1])
    modifies buffer
    ensures m' <= wpos && LoopAt(cc, buffer[..wpos], s, m', down', pos') && buffer[wpos..] == old(buffer[wpos..])
    ensures GetsOn(m, down, pos, m', down', pos')
  {
    ghost var buf := buffer[..wpos];
    var uc1, uc2 := buffer[pos], buffer[pos + 1];
    if cc(uc1) > cc(uc2) && cc(uc2) > 0 {
      buffer[pos], buffer[pos + 1] := uc2, uc1;
      AfterSwap(cc, buf, s, m, pos, buffer[..wpos]);
      pos' := if pos > 0 then pos - 1 else pos + 1;
      m', down' := if pos > 0 then m else m + 1, pos > 0;
    } else {
      AfterKeep(cc, buf, s, m, down, pos);
      pos' := pos + 1;
      m', down' := if down then m + 1 else m, false;
    }
  }

  /**
   The loop of utf8proc_decompose_custom: it ends for every buffer, with the code points in
   their canonical order.
   */
  method Reorder(cc: int -> nat, buffer: array<int>, wpos: nat)
    requires wpos <= buffer.Length
    modifies buffer
    ensures buffer[..wpos] == Ordered(cc, old(buffer[..wpos])) && buffer[wpos..] == old(buffer[wpos..])
  {
    ghost var s := buffer[..wpos];
    ghost var m: nat, down := if wpos == 0 then 0 else 1, false;
    var pos: nat := 0;
    StartDone(cc, s, m);
    while pos + 1 < wpos
      invariant m <= wpos && LoopAt(cc, buffer[..wpos], s, m, down, pos) && buffer[wpos..] == old(buffer[wpos..])
      decreases wpos - m, !down, if down then pos else m - pos
    {
      Comparing(cc, buffer[..wpos], s, m, down, pos);
      pos, m, down := Pass(cc, buffer, wpos, pos, s, m, down || pos + 1 == m);
    }
    AllDone(cc, buffer[..wpos], s, m, down, pos);
  }

  lemma {:induction false} AllDone(cc: int -> nat, buf: seq<int>, s: seq<int>, m: nat, down: bool, pos: nat)
    requires LoopAt(cc, buf, s, m, down, pos) && pos + 1 >= |s| && m <= |s|
    ensures buf == Ordered(cc, s)
  {
    assert s[..|s|] == s && s[|s|..] == [];
  }

  lemma {:induction false} StartDone(cc: int -> nat, s: seq<int>, m: nat)
    requires m == if s == [] then 0 else 1
    ensures LoopAt(cc, s, s, m, false, 0)
  {
    if s != [] {
      assert s[..1] == [s[0]] && s[..1][..0] == [];
      assert s == [s[0]] + s[1..];
    }
  }
}
