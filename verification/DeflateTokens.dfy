/**
 What the literals and matches tallied so far stand for: a prefix of the input.
 */
module DeflateTokens {
  import opened InflateCopy
  import opened CompressBlock
  import opened BlockRoundTrip
  import opened LongestMatch

  /** Adding up: a longer list of symbols is expanded piece by piece. */
  lemma {:induction false} ReachJoin(n: nat, a: seq<Sym>, b: seq<Sym>, out: seq<nat>)
    requires |out| == n && InReach(n, a) && InReach(|Expand(out, a)|, b)
    ensures InReach(n, a + b) && Expand(out, a + b) == Expand(Expand(out, a), b)
    decreases |a|
  {
    if a == [] {
      assert a + b == b;
    } else {
      assert (a + b)[1..] == a[1..] + b;
      ReachJoin(n + SymLen(a[0]), a[1..], b, Grown(out, a[0]));
    }
  }

  /** ... and taken apart again. */
  lemma {:induction false} ReachSplit(out: seq<nat>, a: seq<Sym>, b: seq<Sym>)
    requires InReach(|out|, a + b)
    ensures InReach(|out|, a) && InReach(|Expand(out, a)|, b)
    decreases |a|
  {
    if a == [] {
      assert a + b == b;
    } else {
      assert (a + b)[1..] == a[1..] + b;
      ReachSplit(Grown(out, a[0]), a[1..], b);
    }
  }

  /** A symbol that the block coder can send. */
  ghost predicate Sendable(wsize: nat, s: Sym) { s.lc < 256 && s.dist <= wsize }

  /** The symbols stand for the first n bytes of the input. */
  ghost predicate Told(toks: seq<Sym>, input: seq<nat>, n: nat, wsize: nat)
  {
    && n <= |input| && InReach(0, toks) && Expand([], toks) == input[..n]
    && forall i :: 0 <= i < |toks| ==> Sendable(wsize, toks[i])
  }

  lemma {:induction false} ToldOne(toks: seq<Sym>, input: seq<nat>, n: nat, n': nat, wsize: nat, s: Sym)
    requires Told(toks, input, n, wsize) && Sendable(wsize, s) && s.dist <= n && n' <= |input| && Grown(input[..n], s) == input[..n']
    ensures Told(toks + [s], input, n', wsize)
  {
    var out := Expand([], toks);
    assert InReach(|out|, [s]);
    assert Expand(out, [s]) == Grown(out, s) by { assert Expand(Grown(out, s), [s][1..]) == Grown(out, s); }
    ReachJoin(0, toks, [s], []);
  }

  lemma {:induction false} ToldLiteral(toks: seq<Sym>, input: seq<nat>, n: nat, wsize: nat)
    requires Told(toks, input, n, wsize) && n < |input| && input[n] < 256
    ensures Told(toks + [Sym(0, input[n])], input, n + 1, wsize)
  {
    assert input[..n] + [input[n]] == input[..n + 1];
    ToldOne(toks, input, n, n + 1, wsize, Sym(0, input[n]));
  }

  lemma {:induction false} ToldMatch(toks: seq<Sym>, input: seq<nat>, n: nat, wsize: nat, d: nat, len: nat)
    requires Told(toks, input, n, wsize) && 3 <= len <= MAX_MATCH && 1 <= d <= n && d <= wsize && Same(input, n - d, n, len)
    ensures n + len <= |input| && Told(toks + [Sym(d, len - 3)], input, n + len, wsize)
  {
    assert SameAt(input, n - d, n, len - 1);
    var r := input[..n + len];
    forall i | n <= i < |r| ensures r[i] == r[i - d] {
      assert SameAt(input, n - d, n, i - n);
    }
    assert input[..n] <= r;
    ExtendUnique(input[..n], d, len, r);
    ToldOne(toks, input, n, n + len, wsize, Sym(d, len - 3));
  }

  lemma {:induction false} ToldMore(toks: seq<Sym>, input: seq<nat>, input': seq<nat>, n: nat, wsize: nat)
    requires Told(toks, input, n, wsize) && input <= input'
    ensures Told(toks, input', n, wsize)
  {
    assert input'[..n] == input[..n];
  }

  /** The symbols since an earlier point stand for the bytes since then. */
  lemma {:induction false} ToldSince(done: seq<Sym>, syms: seq<Sym>, input: seq<nat>, m: nat, n: nat, wsize: nat)
    requires Told(done, input, m, wsize) && Told(done + syms, input, n, wsize)
    ensures InReach(m, syms) && Expand(input[..m], syms) == input[..n]
  {
    ReachSplit([], done, syms);
    ReachJoin(0, done, syms, []);
  }
}
