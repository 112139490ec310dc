/**
 The braided computation of crc32.c. Words of the message are dealt to n braids; what a
 braid has gathered from its word of one block is added to its word of the next.
 */
module CrcBraid {
  import opened Bits
  import opened Gf2
  import opened CrcPeriod
  import opened CrcRegister
  import opened CrcTables

  /** The words one after another. */
  ghost function Flat(ws: seq<BitString>): BitString
  {
    if ws == [] then [] else ws[0] + Flat(ws[1..])
  }

  ghost predicate Words(ws: seq<BitString>, size: nat)
  {
    forall i :: 0 <= i < |ws| ==> |ws[i]| == size
  }

  lemma {:induction false} FlatJoin(a: seq<BitString>, b: seq<BitString>)
    ensures Flat(a + b) == Flat(a) + Flat(b)
    decreases |a|
  {
    if a == [] {
      assert a + b == b;
    } else {
      assert (a + b)[1..] == a[1..] + b;
      FlatJoin(a[1..], b);
      Assoc(a[0], Flat(a[1..]), Flat(b));
    }
  }

  lemma {:induction false} FlatOne(u: BitString)
    ensures Flat([u]) == u
  {
    assert Flat([u]) == u + Flat([]);
  }

  lemma {:induction false} FlatLength(ws: seq<BitString>, size: nat)
    requires Words(ws, size)
    ensures |Flat(ws)| == |ws| * size
  {
    if ws != [] {
      FlatLength(ws[1..], size);
      OneMoreTime(|ws|, size);
    }
  }

  lemma {:induction false} OneMoreTime(n: nat, size: nat)
    requires n >= 1
    ensures n * size == size + (n - 1) * size
  {
  }

  /** A word with a running value added to its first 32 bits. */
  function Added(w: BitString, c: Poly): (r: BitString)
    requires |w| >= 32
    ensures |r| == |w|
  {
    Xor(w, c + Zeros(|w| - 32))
  }

  /** The CRC of the words, from an empty register. */
  ghost function WordRun(ws: seq<BitString>): Poly { Register(POLY(), ZERO, Flat(ws)) }

  /** What the word u becomes when `bits` bits have gone by after it. */
  ghost function Later(u: BitString, bits: nat): Poly { Raised(POLY(), bits, Register(POLY(), ZERO, u)) }

  /** A word may be taken away if what it becomes is added to a later word. */
  lemma {:induction false} Move(u: BitString, xs: seq<BitString>, y: BitString, zs: seq<BitString>, bits: nat)
    requires |Flat(xs)| == bits && |y| >= 32
    ensures WordRun([u] + xs + [y] + zs) == WordRun(xs + [Added(y, Later(u, bits))] + zs)
  {
    var p := POLY();
    var x, z, b := Flat(xs), Flat(zs), Later(u, bits);
    Pieces([u], xs, [y], zs);
    FlatOne(u);
    FlatOne(y);
    RegisterJoin(p, ZERO, ((u + x) + y), z);
    RegisterJoin(p, ZERO, u + x, y);
    RegisterJoin(p, ZERO, u, x);
    RegisterApart(p, Register(p, ZERO, u), x);
    IntoData(p, b, Register(p, ZERO, x), y);
    Pieces([], xs, [Added(y, b)], zs);
    FlatOne(Added(y, b));
    assert [] + xs == xs && [] + x == x;
    RegisterJoin(p, ZERO, x + Added(y, b), z);
    RegisterJoin(p, ZERO, x, Added(y, b));
  }

  lemma {:induction false} Pieces(a: seq<BitString>, b: seq<BitString>, c: seq<BitString>, d: seq<BitString>)
    ensures Flat(a + b + c + d) == ((Flat(a) + Flat(b)) + Flat(c)) + Flat(d)
  {
    FlatJoin(a + b + c, d);
    FlatJoin(a + b, c);
    FlatJoin(a, b);
  }

  // ----- blocks -----

  /** The first |crcs| words with the running values added. */
  function Injected(crcs: seq<Poly>, ws: seq<BitString>): (r: seq<BitString>)
    requires |crcs| <= |ws| && forall i :: 0 <= i < |ws| ==> |ws[i]| >= 32
    ensures |r| == |ws| && forall i :: 0 <= i < |ws| ==> |r[i]| == |ws[i]|
  {
    seq(|ws|, i requires 0 <= i < |ws| => if i < |crcs| then Added(ws[i], crcs[i]) else ws[i])
  }

  /** One block done: crcs' are the values for the next. */
  ghost predicate NextCrcs(crcs: seq<Poly>, ws: seq<BitString>, crcs': seq<Poly>, bits: nat)
  {
    && |crcs| == |crcs'| <= |ws| && (forall i :: 0 <= i < |ws| ==> |ws[i]| >= 32)
    && forall i :: 0 <= i < |crcs| ==> crcs'[i] == Later(Added(ws[i], crcs[i]), bits)
  }

  /** After i words of the block have been moved. */
  ghost function Moved(crcs: seq<Poly>, ws: seq<BitString>, crcs': seq<Poly>, i: nat): seq<BitString>
    requires i <= |crcs| == |crcs'| && 2 * |crcs| <= |ws| && forall i :: 0 <= i < |ws| ==> |ws[i]| >= 32
  {
    Injected(crcs, ws)[i..|crcs|] + Injected(crcs'[..i], ws[|crcs|..])
  }

  /** The n - 1 words between a word of the block and the word it moves to. */
  ghost function Between(crcs: seq<Poly>, ws: seq<BitString>, crcs': seq<Poly>, i: nat): seq<BitString>
    requires i < |crcs| == |crcs'| && 2 * |crcs| <= |ws| && forall i :: 0 <= i < |ws| ==> |ws[i]| >= 32
  {
    Injected(crcs, ws)[i + 1..|crcs|] + Injected(crcs'[..i], ws[|crcs|..])[..i]
  }

  lemma {:induction false} Three(s: seq<BitString>, i: nat)
    requires i < |s|
    ensures s == s[..i] + [s[i]] + s[i + 1..]
  {
  }

  lemma {:induction false} FirstOf(s: seq<BitString>, i: nat, n: nat)
    requires i < n <= |s|
    ensures s[i..n] == [s[i]] + s[i + 1..n]
  {
  }

  lemma {:induction false} Regroup(u: seq<BitString>, x: seq<BitString>, d: seq<BitString>, y: seq<BitString>, z: seq<BitString>)
    ensures (u + x) + ((d + y) + z) == u + (x + d) + y + z
  {
  }

  lemma {:induction false} Regroup3(x: seq<BitString>, d: seq<BitString>, y: seq<BitString>, z: seq<BitString>)
    ensures x + ((d + y) + z) == (x + d) + y + z
  {
  }

  /** Words beyond the running values are as they were. */
  lemma {:induction false} InjectedRest(crcs: seq<Poly>, vs: seq<BitString>, k: nat)
    requires |crcs| <= k <= |vs| && forall i :: 0 <= i < |vs| ==> |vs[i]| >= 32
    ensures Injected(crcs, vs)[k..] == vs[k..]
  {
  }

  lemma {:induction false} InjectedStart(crcs: seq<Poly>, d: Poly, vs: seq<BitString>)
    requires |crcs| < |vs| && forall i :: 0 <= i < |vs| ==> |vs[i]| >= 32
    ensures Injected(crcs + [d], vs)[..|crcs|] == Injected(crcs, vs)[..|crcs|]
  {
  }

  lemma {:induction false} ShapeBefore(crcs: seq<Poly>, ws: seq<BitString>, crcs': seq<Poly>, i: nat)
    requires i < |crcs| == |crcs'| && 2 * |crcs| <= |ws| && forall i :: 0 <= i < |ws| ==> |ws[i]| >= 32
    ensures Moved(crcs, ws, crcs', i) ==
            [Added(ws[i], crcs[i])] + Between(crcs, ws, crcs', i) + [ws[|crcs| + i]] + ws[|crcs| + i + 1..]
  {
    var n := |crcs|;
    var us, vs := Injected(crcs, ws), ws[n..];
    var done := Injected(crcs'[..i], vs);
    FirstOf(us, i, n);
    Three(done, i);
    InjectedRest(crcs'[..i], vs, i + 1);
    assert vs[i + 1..] == ws[n + i + 1..];
    Regroup([us[i]], us[i + 1..n], done[..i], [done[i]], done[i + 1..]);
  }

  lemma {:induction false} ShapeAfter(crcs: seq<Poly>, ws: seq<BitString>, crcs': seq<Poly>, i: nat)
    requires i < |crcs| == |crcs'| && 2 * |crcs| <= |ws| && forall i :: 0 <= i < |ws| ==> |ws[i]| >= 32
    ensures Moved(crcs, ws, crcs', i + 1) ==
            Between(crcs, ws, crcs', i) + [Added(ws[|crcs| + i], crcs'[i])] + ws[|crcs| + i + 1..]
  {
    var n := |crcs|;
    var us, vs := Injected(crcs, ws), ws[n..];
    assert crcs'[..i + 1] == crcs'[..i] + [crcs'[i]];
    InjectedStart(crcs'[..i], crcs'[i], vs);
    var done := Injected(crcs'[..i + 1], vs);
    Three(done, i);
    InjectedRest(crcs'[..i + 1], vs, i + 1);
    assert vs[i + 1..] == ws[n + i + 1..];
    Regroup3(us[i + 1..n], done[..i], [done[i]], done[i + 1..]);
  }

  lemma {:induction false} BetweenLength(crcs: seq<Poly>, ws: seq<BitString>, crcs': seq<Poly>, i: nat, size: nat)
    requires i < |crcs| == |crcs'| && 2 * |crcs| <= |ws| && size >= 32 && Words(ws, size)
    ensures |Flat(Between(crcs, ws, crcs', i))| == (|crcs| - 1) * size
  {
    assert Words(Between(crcs, ws, crcs', i), size);
    FlatLength(Between(crcs, ws, crcs', i), size);
  }

  lemma {:induction false} MoveOne(crcs: seq<Poly>, ws: seq<BitString>, crcs': seq<Poly>, i: nat, size: nat)
    requires i < |crcs| && 2 * |crcs| <= |ws| && size >= 32 && Words(ws, size)
    requires NextCrcs(crcs, ws, crcs', (|crcs| - 1) * size)
    ensures WordRun(Moved(crcs, ws, crcs', i)) == WordRun(Moved(crcs, ws, crcs', i + 1))
  {
    ShapeBefore(crcs, ws, crcs', i);
    ShapeAfter(crcs, ws, crcs', i);
    BetweenLength(crcs, ws, crcs', i, size);
    Move(Added(ws[i], crcs[i]), Between(crcs, ws, crcs', i), ws[|crcs| + i], ws[|crcs| + i + 1..], (|crcs| - 1) * size);
  }

  lemma {:induction false} MoveAll(crcs: seq<Poly>, ws: seq<BitString>, crcs': seq<Poly>, i: nat, size: nat)
    requires i <= |crcs| && 1 <= |crcs| && 2 * |crcs| <= |ws| && size >= 32 && Words(ws, size)
    requires NextCrcs(crcs, ws, crcs', (|crcs| - 1) * size)
    ensures WordRun(Moved(crcs, ws, crcs', 0)) == WordRun(Moved(crcs, ws, crcs', i))
  {
    if i > 0 {
      MoveAll(crcs, ws, crcs', i - 1, size);
      MoveOne(crcs, ws, crcs', i - 1, size);
    }
  }

  /** A whole block may be taken away, if the next is given the new values. */
  lemma {:induction false} BlockMove(crcs: seq<Poly>, ws: seq<BitString>, crcs': seq<Poly>, size: nat)
    requires |crcs| >= 1 && 2 * |crcs| <= |ws| && size >= 32 && Words(ws, size)
    requires NextCrcs(crcs, ws, crcs', (|crcs| - 1) * size)
    ensures WordRun(Injected(crcs, ws)) == WordRun(Injected(crcs', ws[|crcs|..]))
  {
    MoveAll(crcs, ws, crcs', |crcs|, size);
    MovedNone(crcs, ws, crcs');
    MovedAll(crcs, ws, crcs', |crcs|);
  }

  lemma {:induction false} MovedAll(crcs: seq<Poly>, ws: seq<BitString>, crcs': seq<Poly>, n: nat)
    requires |crcs| == |crcs'| == n && 2 * n <= |ws| && forall i :: 0 <= i < |ws| ==> |ws[i]| >= 32
    ensures Moved(crcs, ws, crcs', n) == Injected(crcs', ws[n..])
  {
    var us := Injected(crcs, ws);
    assert us[n..n] == [];
    assert crcs'[..n] == crcs';
    assert [] + Injected(crcs', ws[n..]) == Injected(crcs', ws[n..]);
  }

  lemma {:induction false} MovedNone(crcs: seq<Poly>, ws: seq<BitString>, crcs': seq<Poly>)
    requires |crcs| == |crcs'| && 2 * |crcs| <= |ws| && forall i :: 0 <= i < |ws| ==> |ws[i]| >= 32
    ensures Moved(crcs, ws, crcs', 0) == Injected(crcs, ws)
  {
    var n, us := |crcs|, Injected(crcs, ws);
    InjectedRest([], ws[n..], 0);
    InjectedRest(crcs, ws, n);
    assert crcs'[..0] == [];
    assert us == us[0..n] + us[n..];
  }
}
