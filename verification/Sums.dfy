/** Finite sums over node numbers: by position in a list, and by membership in a set. */
module Sums {
  /** Sum of w over the numbers in s. */
  ghost function MaskSum(s: set<nat>, w: seq<nat>): nat
  {
    if w == [] then 0
    else MaskSum(s, w[..|w| - 1]) + (if |w| - 1 in s then w[|w| - 1] else 0)
  }

  ghost predicate InRange(list: seq<nat>, n: nat) { forall i :: 0 <= i < |list| ==> list[i] < n }

  /** Sum of w over a list of numbers. */
  ghost function PickSum(list: seq<nat>, w: seq<nat>): nat
    requires InRange(list, |w|)
  {
    if list == [] then 0 else PickSum(list[..|list| - 1], w) + w[list[|list| - 1]]
  }

  ghost function SetOf(list: seq<nat>): set<nat> { set i | 0 <= i < |list| :: list[i] }

  ghost predicate Differ(list: seq<nat>, i: nat, j: nat) { i < |list| && j < |list| && list[i] != list[j] }

  ghost predicate Distinct(list: seq<nat>)
  {
    forall i: nat, j: nat :: i < j < |list| ==> Differ(list, i, j)
  }

  lemma {:induction false} DistinctPrefix(list: seq<nat>, n: nat)
    requires Distinct(list) && n < |list|
    ensures Distinct(list[..n]) && list[n] !in SetOf(list[..n])
  {
    forall i: nat, j: nat | i < j < n ensures Differ(list[..n], i, j) {
      assert Differ(list, i, j);
    }
    forall i: nat | i < n ensures list[..n][i] != list[n] {
      assert Differ(list, i, n);
    }
  }

  lemma {:induction false} MaskEmpty(w: seq<nat>)
    ensures MaskSum({}, w) == 0
  {
    if w != [] {
      MaskEmpty(w[..|w| - 1]);
    }
  }

  lemma {:induction false} MaskAdd(s: set<nat>, w: seq<nat>, x: nat)
    requires x < |w| && x !in s
    ensures MaskSum(s + {x}, w) == MaskSum(s, w) + w[x]
  {
    var n := |w| - 1;
    if x < n {
      MaskAdd(s, w[..n], x);
    } else {
      MaskAgree(s + {x}, s, w[..n]);
    }
  }

  lemma {:induction false} MaskAgree(s: set<nat>, t: set<nat>, w: seq<nat>)
    requires forall x :: 0 <= x < |w| ==> (x in s <==> x in t)
    ensures MaskSum(s, w) == MaskSum(t, w)
  {
    if w != [] {
      MaskAgree(s, t, w[..|w| - 1]);
    }
  }

  lemma {:induction false} MaskUpdate(s: set<nat>, w: seq<nat>, x: nat, v: nat)
    requires x < |w|
    ensures MaskSum(s, w[x := v]) == MaskSum(s, w) + (if x in s then v - w[x] else 0)
  {
    var n := |w| - 1;
    if x < n {
      MaskUpdate(s, w[..n], x, v);
      assert w[x := v][..n] == w[..n][x := v];
    } else {
      assert w[x := v][..n] == w[..n];
    }
  }

  lemma {:induction false} PickIsMask(list: seq<nat>, w: seq<nat>)
    requires InRange(list, |w|) && Distinct(list)
    ensures PickSum(list, w) == MaskSum(SetOf(list), w)
  {
    if list == [] {
      assert SetOf(list) == {};
      MaskEmpty(w);
    } else {
      var n := |list| - 1;
      DistinctPrefix(list, n);
      PickIsMask(list[..n], w);
      assert SetOf(list) == SetOf(list[..n]) + {list[n]};
      MaskAdd(SetOf(list[..n]), w, list[n]);
    }
  }

  /** Only the entries in s matter. */
  lemma {:induction false} MaskSame(s: set<nat>, v: seq<nat>, w: seq<nat>)
    requires |v| == |w| && forall x :: 0 <= x < |w| && x in s ==> v[x] == w[x]
    ensures MaskSum(s, v) == MaskSum(s, w)
  {
    if w != [] {
      MaskSame(s, v[..|v| - 1], w[..|w| - 1]);
    }
  }

  lemma {:induction false} MaskDisjoint(s: set<nat>, t: set<nat>, w: seq<nat>)
    requires s !! t
    ensures MaskSum(s + t, w) == MaskSum(s, w) + MaskSum(t, w)
  {
    if w != [] {
      MaskDisjoint(s, t, w[..|w| - 1]);
    }
  }

  ghost function Whole(w: seq<nat>): nat
  {
    if w == [] then 0 else Whole(w[..|w| - 1]) + w[|w| - 1]
  }

  /** A set that holds every non-zero entry gives the whole sum. */
  lemma {:induction false} MaskIsWhole(s: set<nat>, w: seq<nat>)
    requires forall x :: 0 <= x < |w| && x !in s ==> w[x] == 0
    ensures MaskSum(s, w) == Whole(w)
  {
    if w != [] {
      MaskIsWhole(s, w[..|w| - 1]);
    }
  }

  /** Adding d on the set s adds its sum over s. */
  lemma {:induction false} WholePlus(w: seq<nat>, w': seq<nat>, s: set<nat>, d: seq<nat>)
    requires |w| == |w'| == |d| && forall x :: 0 <= x < |w| ==> w'[x] == w[x] + (if x in s then d[x] else 0)
    ensures Whole(w') == Whole(w) + MaskSum(s, d)
  {
    if w != [] {
      WholePlus(w[..|w| - 1], w'[..|w| - 1], s, d[..|w| - 1]);
    }
  }
}
