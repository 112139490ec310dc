/**
 `longest_match` of deflate.c: the search along a hash chain for the longest string equal
 to the current one.
 */
module LongestMatch {
  import opened Bits
  import opened HashChains

  const MIN_MATCH := 3
  const MAX_MATCH := 258
  const MIN_LOOKAHEAD := 262

  function MaxDist(wsize: nat): int { wsize - MIN_LOOKAHEAD }

  /** The window holds the input from position base on, up to the end of the lookahead. */
  ghost predicate Window(window: seq<nat>, input: seq<nat>, base: nat, strstart: nat, lookahead: nat)
  {
    && base + strstart + lookahead == |input| && strstart + lookahead <= |window|
    && (forall i: nat :: i < strstart + lookahead ==> window[i] == input[base + i])
    && (forall i :: 0 <= i < |input| ==> input[i] < 256)
  }

  ghost predicate SameAt(s: seq<nat>, a: nat, b: nat, i: nat)
  {
    a + i < |s| && b + i < |s| && s[a + i] == s[b + i]
  }

  /** n bytes at a and at b agree. */
  ghost predicate Same(s: seq<nat>, a: nat, b: nat, n: nat)
  {
    forall i: nat :: i < n ==> SameAt(s, a, b, i)
  }

  /** Up to eight comparisons; stops at the first difference. */
  method EightMore(window: array<nat>, cur: nat, strstart: nat, scan0: nat) returns (scan: nat, differ: bool)
    requires cur < strstart && strstart <= scan0 && scan0 + 8 < window.Length
    requires Same(window[..], cur, strstart, scan0 - strstart + 1)
    ensures scan0 < scan <= scan0 + 8 && Same(window[..], cur, strstart, scan - strstart)
    ensures !differ ==> scan == scan0 + 8 && Same(window[..], cur, strstart, scan - strstart + 1)
    ensures differ ==> !SameAt(window[..], cur, strstart, scan - strstart)
  {
    scan := scan0;
    var k: nat := 0;
    differ := false;
    while k < 8 && !differ
      invariant k <= 8 && scan == scan0 + k && (k == 0 ==> !differ)
      invariant Same(window[..], cur, strstart, scan - strstart)
      invariant if differ then !SameAt(window[..], cur, strstart, scan - strstart)
                else Same(window[..], cur, strstart, scan - strstart + 1)
      decreases 8 - k
    {
      scan := scan + 1;
      differ := window[scan] != window[cur + (scan - strstart)];
      assert !differ ==> SameAt(window[..], cur, strstart, scan - strstart);
      k := k + 1;
    }
  }

  /** The comparison loop: the length of the match, given that its first three bytes agree. */
  method MatchLen(window: array<nat>, cur: nat, strstart: nat) returns (len: nat)
    requires cur < strstart && strstart + MAX_MATCH < window.Length && Same(window[..], cur, strstart, 3)
    ensures 3 <= len <= MAX_MATCH && Same(window[..], cur, strstart, len)
    ensures len < MAX_MATCH ==> !SameAt(window[..], cur, strstart, len)
  {
    var strend := strstart + MAX_MATCH;
    var scan: nat := strstart + 2;
    var differ := false;
    while !differ && scan < strend
      invariant strstart + 2 <= scan <= strend && (!differ ==> (scan - strstart) % 8 == 2)
      invariant Same(window[..], cur, strstart, scan - strstart)
      invariant if differ then !SameAt(window[..], cur, strstart, scan - strstart)
                else Same(window[..], cur, strstart, scan - strstart + 1)
      invariant scan == strstart + 2 ==> !differ
      decreases strend - scan, if differ then 0 else 1
    {
      scan, differ := EightMore(window, cur, strstart, scan);
    }
    len := MAX_MATCH - (strend - scan);
  }

  /** A 32-bit field. */
  type Word = m: int | 0 <= m < 0x1_0000_0000

  /** A distance as the 32-bit subtraction of two window indices. */
  function Back(at: nat, m: Word): nat { if m <= at then at - m else at - m + 0x1_0000_0000 }

  /** A match of length len for the string at index `at`, at a distance within the limit. */
  ghost predicate GoodMatch(input: seq<nat>, base: nat, at: nat, m: Word, len: nat, wsize: nat)
  {
    && 1 <= Back(at, m) <= MaxDist(wsize) && Back(at, m) <= base + at
    && Same(input, base + at - Back(at, m), base + at, len)
  }

  /** What is known when the chain is followed. */
  ghost predicate Searching(hb: nat, input: seq<nat>, ins: set<nat>, base: nat, head: seq<nat>, prev: seq<nat>,
                            window: seq<nat>, strstart: nat, lookahead: nat)
  {
    && hb >= 8 && Chains(hb, input, ins, base, head, prev, base + strstart) && MIN_LOOKAHEAD < |prev|
    && Window(window, input, base, strstart, lookahead) && |window| == 2 * |prev| && strstart + MIN_LOOKAHEAD <= |window|
    && lookahead >= MIN_MATCH && Aligned(base, |prev|)
  }

  /** A candidate: an earlier inserted string with the hash of the current one. */
  ghost predicate Candidate(hb: nat, input: seq<nat>, ins: set<nat>, base: nat, wsize: nat, strstart: nat, cur: nat)
  {
    && 0 < cur < strstart && strstart - cur <= MaxDist(wsize) && base + strstart + 2 < |input|
    && Link(hb, input, ins, base, cur, HashAt(hb, input, base + strstart))
  }

  /** Equal hashes and equal first bytes: the third byte need not be compared. */
  lemma {:induction false} ThirdAgrees(hb: nat, input: seq<nat>, ins: set<nat>, base: nat, wsize: nat, strstart: nat, cur: nat)
    requires hb >= 8 && Candidate(hb, input, ins, base, wsize, strstart, cur) && forall i :: 0 <= i < |input| ==> input[i] < 256
    requires input[base + cur] == input[base + strstart] && input[base + cur + 1] == input[base + strstart + 1]
    ensures input[base + cur + 2] == input[base + strstart + 2]
  {
    var a, b := base + cur, base + strstart;
    ValInjective(Hash3(hb, input[a], input[a + 1], input[a + 2]), Hash3(hb, input[b], input[b + 1], input[b + 2]));
    ThirdByte(hb, input[a], input[a + 1], input[a + 2], input[b + 2]);
  }

  /** base has gone up from 0 by n at a time. */
  ghost predicate Aligned(base: nat, n: nat)
    decreases base
  {
    n > 0 && (base == 0 || (base >= n && Aligned(base - n, n)))
  }

  lemma {:induction false} SlotOfIndex(base: nat, i: nat, n: nat)
    requires Aligned(base, n)
    ensures Slot(base + i, n) == Slot(i, n)
    decreases base
  {
    if base > 0 {
      SlotOfIndex(base - n, i, n);
    }
  }

  /** The next string of the chain, if it is not too far back, is a candidate too. */
  lemma {:induction false} NextCandidate(hb: nat, input: seq<nat>, ins: set<nat>, base: nat, head: seq<nat>, prev: seq<nat>,
                                         window: seq<nat>, strstart: nat, lookahead: nat, cur: nat, limit: nat)
    requires Searching(hb, input, ins, base, head, prev, window, strstart, lookahead)
    requires Candidate(hb, input, ins, base, |prev|, strstart, cur)
    requires limit == Limit(strstart, |prev|)
    ensures var next := prev[Slot(cur, |prev|)];
            next < cur && (next > limit ==> Candidate(hb, input, ins, base, |prev|, strstart, next))
  {
    SlotOfIndex(base, cur, |prev|);
    assert PrevOk(hb, input, ins, base, prev, base + cur);
  }

  /** Agreement in the window up to the end of the lookahead is agreement in the input. */
  lemma {:induction false} SameInInput(window: seq<nat>, input: seq<nat>, base: nat, strstart: nat, lookahead: nat, cur: nat, n: nat, m: nat)
    requires Window(window, input, base, strstart, lookahead) && cur < strstart
    requires Same(window, cur, strstart, n) && m <= n && m <= lookahead
    ensures Same(input, base + cur, base + strstart, m)
  {
    var a, b := base + cur, base + strstart;
    forall i: nat | i < m ensures SameAt(input, a, b, i) {
      assert SameAt(window, cur, strstart, i);
      assert window[cur + i] == input[base + (cur + i)] && window[strstart + i] == input[base + (strstart + i)];
    }
  }

  // ----- the search -----

  /** A string worth comparing: it starts before the current one, near enough, its third byte
      agrees when the first two do, and the chain goes on to an earlier one. */
  ghost predicate Worth(window: seq<nat>, prev: seq<nat>, strstart: nat, limit: nat, cands: iset<nat>, c: nat)
  {
    && c < strstart && |prev| > 0 && strstart + MAX_MATCH < |window| && strstart - c <= MaxDist(|prev|)
    && (window[c] == window[strstart] && window[c + 1] == window[strstart + 1] ==> window[c + 2] == window[strstart + 2])
    && prev[Slot(c, |prev|)] < c && (prev[Slot(c, |prev|)] > limit ==> prev[Slot(c, |prev|)] in cands)
  }

  ghost predicate Chained(window: seq<nat>, prev: seq<nat>, strstart: nat, limit: nat, cands: iset<nat>)
  {
    forall c: nat :: c in cands ==> Worth(window, prev, strstart, limit, cands, c)
  }

  lemma {:induction false} CandidateWorth(hb: nat, input: seq<nat>, ins: set<nat>, base: nat, head: seq<nat>, prev: seq<nat>,
                                          window: seq<nat>, strstart: nat, lookahead: nat, limit: nat, cands: iset<nat>, cur: nat)
    requires Searching(hb, input, ins, base, head, prev, window, strstart, lookahead)
    requires cands == iset c: nat | Candidate(hb, input, ins, base, |prev|, strstart, c)
    requires limit == Limit(strstart, |prev|) && cur in cands
    ensures Worth(window, prev, strstart, limit, cands, cur)
  {
    NextCandidate(hb, input, ins, base, head, prev, window, strstart, lookahead, cur, limit);
    assert window[cur] == input[base + cur] && window[cur + 1] == input[base + (cur + 1)] && window[cur + 2] == input[base + (cur + 2)];
    assert window[strstart + 1] == input[base + (strstart + 1)] && window[strstart + 2] == input[base + (strstart + 2)];
    if window[cur] == window[strstart] && window[cur + 1] == window[strstart + 1] {
      ThirdAgrees(hb, input, ins, base, |prev|, strstart, cur);
    }
  }

  /** The strings that the chains can lead to are all worth comparing. */
  lemma {:induction false} AllWorth(hb: nat, input: seq<nat>, ins: set<nat>, base: nat, head: seq<nat>, prev: seq<nat>,
                                    window: seq<nat>, strstart: nat, lookahead: nat, limit: nat, cands: iset<nat>)
    requires Searching(hb, input, ins, base, head, prev, window, strstart, lookahead)
    requires cands == iset c: nat | Candidate(hb, input, ins, base, |prev|, strstart, c)
    requires limit == Limit(strstart, |prev|)
    ensures Chained(window, prev, strstart, limit, cands)
  {
    forall c: nat | c in cands ensures Worth(window, prev, strstart, limit, cands, c) {
      CandidateWorth(hb, input, ins, base, head, prev, window, strstart, lookahead, limit, cands, c);
    }
  }

  /** The best match so far: it is in the window, perhaps beyond the lookahead. */
  ghost predicate BestSoFar(window: seq<nat>, strstart: nat, wsize: nat, prev_length: nat, m: Word, best: nat)
  {
    && prev_length <= best <= MAX_MATCH
    && (best > prev_length ==> m < strstart && strstart - m <= MaxDist(wsize) && Same(window, m, strstart, best))
  }

  /** At least one of the first best + 1 bytes differs, unless no match can be longer than best. */
  ghost predicate NoLonger(window: seq<nat>, strstart: nat, c: nat, best: nat)
  {
    best < MAX_MATCH ==> !Same(window, c, strstart, best + 1)
  }

  /** One candidate: quick tests at the end of the best match and at the start, then the full comparison. */
  method TryCandidate(window: array<nat>, ghost prev: seq<nat>, strstart: nat, ghost limit: nat, ghost cands: iset<nat>, cur: nat, best: nat)
    returns (len: nat)
    requires Worth(window[..], prev, strstart, limit, cands, cur) && 2 <= best <= MAX_MATCH
    ensures len <= MAX_MATCH && (len > best ==> Same(window[..], cur, strstart, len))
    ensures NoLonger(window[..], strstart, cur, if len > best then len else best)
  {
    if window[cur + best] != window[strstart + best] || window[cur + best - 1] != window[strstart + best - 1]
       || window[cur] != window[strstart] || window[cur + 1] != window[strstart + 1] {
      NotSame(window[..], cur, strstart, best);
      return 0;
    }
    assert SameAt(window[..], cur, strstart, 0) && SameAt(window[..], cur, strstart, 1) && SameAt(window[..], cur, strstart, 2);
    len := MatchLen(window, cur, strstart);
    assert len < MAX_MATCH ==> NoLonger(window[..], strstart, cur, len);
  }

  lemma {:induction false} NotSame(window: seq<nat>, cur: nat, strstart: nat, best: nat)
    requires 2 <= best && (!SameAt(window, cur, strstart, best) || !SameAt(window, cur, strstart, best - 1)
                           || !SameAt(window, cur, strstart, 0) || !SameAt(window, cur, strstart, 1))
    ensures NoLonger(window, strstart, cur, best)
  {
  }

  /** The j-th string of the chain that starts at cur. */
  ghost function Nth(prev: seq<nat>, cur: nat, j: nat): nat
  {
    if j == 0 then cur else var c := Nth(prev, cur, j - 1); if |prev| > 0 then prev[Slot(c, |prev|)] else 0
  }

  /** None of the first n strings of the chain matches for longer than best. */
  ghost predicate NoneLonger(window: seq<nat>, prev: seq<nat>, strstart: nat, cur: nat, n: nat, best: nat)
  {
    forall j: nat :: j < n ==> NoLonger(window, strstart, Nth(prev, cur, j), best)
  }

  lemma {:induction false} OneMore(window: seq<nat>, prev: seq<nat>, strstart: nat, cur: nat, n: nat, best: nat, best': nat)
    requires NoneLonger(window, prev, strstart, cur, n, best) && best <= best' && NoLonger(window, strstart, Nth(prev, cur, n), best')
    ensures NoneLonger(window, prev, strstart, cur, n + 1, best')
  {
    forall j: nat | j < n + 1 ensures NoLonger(window, strstart, Nth(prev, cur, j), best') {
      if j < n {
        assert NoLonger(window, strstart, Nth(prev, cur, j), best);
      }
    }
  }

  /** Why the search stopped after n strings. */
  ghost predicate Stopped(prev: seq<nat>, cur: nat, limit: nat, n: nat, chain: nat, best: nat, nice: nat)
  {
    1 <= n && (n == chain || best >= nice || Nth(prev, cur, n) <= limit)
  }

  /** The chain, from cur_match on, for at most chain0 strings. */
  method FollowChain(window: array<nat>, prev: array<nat>, strstart: nat, limit: nat, ghost cands: iset<nat>, cur_match: nat,
                     prev_length: nat, match_start0: Word, chain0: nat, nice: nat)
    returns (best: nat, match_start: Word, ghost n: nat)
    requires Chained(window[..], prev[..], strstart, limit, cands) && cur_match in cands && strstart < 0x1_0000_0000 && 2 <= prev_length <= MAX_MATCH && chain0 >= 1
    ensures BestSoFar(window[..], strstart, prev.Length, prev_length, match_start, best)
    ensures NoneLonger(window[..], prev[..], strstart, cur_match, n, best) && Stopped(prev[..], cur_match, limit, n, chain0, best, nice)
  {
    var chain := chain0;
    n := 0;
    best, match_start := prev_length, match_start0;
    var cur := cur_match;
    var more := true;
    while more
      invariant more ==> chain >= 1 && cur in cands && n + chain == chain0 && cur == Nth(prev[..], cur_match, n)
      invariant !more ==> Stopped(prev[..], cur_match, limit, n, chain0, best, nice)
      invariant NoneLonger(window[..], prev[..], strstart, cur_match, n, best)
      invariant BestSoFar(window[..], strstart, prev.Length, prev_length, match_start, best)
      decreases chain, if more then 1 else 0
    {
      assert Worth(window[..], prev[..], strstart, limit, cands, cur);
      var len := TryCandidate(window, prev[..], strstart, limit, cands, cur, best);
      OneMore(window[..], prev[..], strstart, cur_match, n, best, if len > best then len else best);
      n := n + 1;
      if len > best {
        match_start, best := cur, len;
        if len >= nice {
          break;
        }
      }
      SlotIsMod(cur, prev.Length);
      cur := prev[cur % prev.Length];
      more := cur > limit;
      if more {
        chain := chain - 1;
        more := chain != 0;
      }
    }
  }

  /** A match in the window, cut to the lookahead, is a match in the input. */
  lemma {:induction false} FoundIsGood(window: seq<nat>, input: seq<nat>, base: nat, strstart: nat, lookahead: nat, wsize: nat, prev_length: nat,
                                       m: Word, best: nat, len: nat)
    requires Window(window, input, base, strstart, lookahead) && strstart < 0x1_0000_0000 && wsize > MIN_LOOKAHEAD
    requires BestSoFar(window, strstart, wsize, prev_length, m, best) && best > prev_length
    requires len == if best <= lookahead then best else lookahead
    ensures GoodMatch(input, base, strstart, m, len, wsize)
  {
    SameInInput(window, input, base, strstart, lookahead, m, best, len);
    assert Back(strstart, m) == strstart - m;
  }

  function Limit(strstart: nat, wsize: nat): nat
    requires wsize > MIN_LOOKAHEAD
  {
    if strstart > MaxDist(wsize) then strstart - MaxDist(wsize) else 0
  }

  /**
   `longest_match`: follows the chain from cur_match. The length is within the lookahead,
   and when it is better than prev_length the input really holds that many equal bytes at
   match_start, at a distance within the limit. None of the n strings visited matches for
   longer; the visit ends only with the chain, when its budget is spent or when the match is
   nice enough.
   */
  method Longest(ghost hb: nat, ghost input: seq<nat>, ghost ins: set<nat>, ghost base: nat, ghost head: seq<nat>, prev: array<nat>,
                      window: array<nat>, strstart: nat, lookahead: nat, cur_match: nat, prev_length: nat, match_start0: Word,
                      max_chain: nat, good_match: nat, nice_match: nat) returns (len: nat, match_start: Word, ghost best: nat, ghost n: nat)
    requires Searching(hb, input, ins, base, head, prev[..], window[..], strstart, lookahead) && strstart < 0x1_0000_0000
    requires Candidate(hb, input, ins, base, prev.Length, strstart, cur_match) && 2 <= prev_length <= MAX_MATCH && max_chain >= 4
    ensures 2 <= len <= MAX_MATCH && len <= lookahead && len == (if best <= lookahead then best else lookahead) && prev_length <= best
    ensures len > prev_length ==> GoodMatch(input, base, strstart, match_start, len, prev.Length)
    ensures NoneLonger(window[..], prev[..], strstart, cur_match, n, best)
    ensures Stopped(prev[..], cur_match, Limit(strstart, prev.Length), n, if prev_length >= good_match then max_chain / 4 else max_chain,
                    best, if nice_match > lookahead then lookahead else nice_match)
  {
    var chain := if prev_length >= good_match then max_chain / 4 else max_chain;
    var nice := if nice_match > lookahead then lookahead else nice_match;
    var limit := Limit(strstart, prev.Length);
    ghost var cands := iset c: nat | Candidate(hb, input, ins, base, prev.Length, strstart, c);
    AllWorth(hb, input, ins, base, head, prev[..], window[..], strstart, lookahead, limit, cands);
    var found;
    found, match_start, n := FollowChain(window, prev, strstart, limit, cands, cur_match, prev_length, match_start0, chain, nice);
    best := found;
    len := if found <= lookahead then found else lookahead;
    if found > prev_length {
      FoundIsGood(window[..], input, base, strstart, lookahead, prev.Length, prev_length, match_start, found, len);
    }
  }
}
