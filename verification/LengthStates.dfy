/**
 The states LENLENS and CODELENS of inflate.c: the code lengths of a block with dynamic
 codes, read into `lens`, and the decoding tables built from them.
 */
module LengthStates {
  import opened Bits
  import opened Huffman
  import opened InflateTable
  import opened RunCoding
  import opened Decoding
  import opened StreamDecoding
  import opened Inflating
  import opened StreamStates

  // ----- LENLENS -----

  lemma {:induction false} OrderRank(i: nat)
    requires i < BL_CODES
    ensures BlRank(BlOrder(i)) == i
  {
  }

  lemma {:induction false} OneMoreInOrder(lens0: seq<nat>, got: seq<nat>, v: nat)
    requires InSendingOrder(lens0, got) && |got| < BL_CODES
    ensures InSendingOrder(lens0[BlOrder(|got|) := v], got + [v])
  {
    OrderRank(|got|);
    forall i: nat | i < |got| ensures BlOrder(i) != BlOrder(|got|) {
      OrderRank(i);
    }
  }

  /** One length of the code-length code. */
  method OrderState(g: Regs, lens: array<nat>, input: seq<nat>, next0: nat, hold0: nat, bits0: nat,
                    ghost q: Spot, ghost out: seq<nat>, ghost u: BitString, ghost o: Result)
    returns (ok: bool, g': Regs, next: nat, hold: nat, bits: nat, ghost q': Spot)
    requires AreBytes(input) && Whole(|u|) && lens.Length == LENS_SIZE && g.have < g.ncode
    requires q.LenLens? && Shows(g, lens[..], q) && Flowing(q, out, hold0, bits0, input, next0, u, o)
    modifies lens
    ensures next0 <= next && Flowing(q', out, hold, bits, input, next, u, o) && q'.LenLens? && Shows(g', lens[..], q')
    ensures g'.ncode == g.ncode && Left(bits, input, next) <= Left(bits0, input, next0)
    ensures if ok then g'.have == g.have + 1 else g'.have == g.have && Dry(q', hold, bits, input, next)
  {
    g', q' := g, q;
    ok, next, hold, bits := NeedBits(3, input, next0, hold0, bits0, u);
    SameLeft(hold, bits, hold0, bits0, input, next, next0, u);
    if ok {
      ghost var hold1, bits1 := hold, bits;
      var v := Low(hold, 3);
      hold, bits := DropBits(3, hold, bits);
      OneMoreInOrder(lens[..], q.sent, v);
      lens[BlOrder(g.have)] := v;
      g', q' := g.(have := g.have + 1), q.(sent := q.sent + [v]);
      Stepped(q, out, hold1, bits1, q', out, hold, bits, input, next, u, o);
    }
  }

  /** The lengths that were not sent are 0. */
  method FillZeros(lens: array<nat>, have0: nat, ghost got: seq<nat>)
    requires lens.Length == LENS_SIZE && have0 == |got| && InSendingOrder(lens[..], got)
    modifies lens
    ensures lens[..BL_CODES] == ClLens(got)
  {
    var have := have0;
    ghost var all := got;
    while have < BL_CODES
      invariant have0 <= have <= BL_CODES && InSendingOrder(lens[..], all) && |all| == have
      invariant got <= all && forall i :: |got| <= i < |all| ==> all[i] == 0
    {
      OneMoreInOrder(lens[..], all, 0);
      lens[BlOrder(have)] := 0;
      all := all + [0];
      have := have + 1;
    }
    forall c | 0 <= c < BL_CODES ensures lens[c] == ClLens(got)[c] {
      assert lens[..][BlOrder(BlRank(c))] == all[BlRank(c)];
    }
  }

  /** The code-length code is built, or refused. */
  method BuildCodeLens(g: Regs, lens: array<nat>, ghost q: Spot) returns (g': Regs, ghost q': Spot)
    requires lens.Length == LENS_SIZE && q.LenLens? && SpotOk(q) && Shows(g, lens[..], q) && |q.sent| == q.ncode
    modifies lens
    ensures q' == AfterLenLens(q.last, q.nlen, q.ndist, q.sent) && Shows(g', lens[..], q')
  {
    FillZeros(lens, g.have, q.sent);
    q' := AfterLenLens(q.last, q.nlen, q.ndist, q.sent);
    var table := new Code[128];
    assert Capacity(CODES, 7) == 128 by { Pow2Values(); }
    var ret, used, root := Build(CODES, lens[..BL_CODES], table, 7);
    if ret != 0 {
      g' := g.(at := g.at.(mode := BAD));
    } else {
      g' := g.(at := g.at.(mode := CODELENS), have := 0, tabs := g.tabs.(lens := table[..used], lenBits := root));
      assert Plain(g'.tabs, ClLens(q.sent));
    }
  }

  method LenLensState(g: Regs, lens: array<nat>, input: seq<nat>, next0: nat, hold0: nat, bits0: nat,
                      ghost q: Spot, ghost out: seq<nat>, ghost u: BitString, ghost o: Result)
    returns (stop: bool, g': Regs, next: nat, hold: nat, bits: nat, ghost q': Spot)
    requires AreBytes(input) && Whole(|u|) && lens.Length == LENS_SIZE
    requires q.LenLens? && Shows(g, lens[..], q) && Flowing(q, out, hold0, bits0, input, next0, u, o)
    modifies lens
    ensures next0 <= next && Flowing(q', out, hold, bits, input, next, u, o) && Shows(g', lens[..], q')
    ensures stop ==> Dry(q', hold, bits, input, next)
    ensures !stop ==> MovesOn(q, Left(bits0, input, next0), q', Left(bits, input, next))
  {
    g', next, hold, bits, q' := g, next0, hold0, bits0, q;
    var ok := true;
    while ok && g'.have < g'.ncode
      invariant next0 <= next && Flowing(q', out, hold, bits, input, next, u, o) && q'.LenLens? && Shows(g', lens[..], q')
      invariant g'.ncode == g.ncode && Left(bits, input, next) <= Left(bits0, input, next0)
      invariant !ok ==> Dry(q', hold, bits, input, next)
      decreases g.ncode - g'.have, ok
    {
      ok, g', next, hold, bits, q' := OrderState(g', lens, input, next, hold, bits, q', out, u, o);
    }
    stop := !ok;
    if ok {
      ghost var q1 := q';
      g', q' := BuildCodeLens(g', lens, q');
      Stepped(q1, out, hold, bits, q', out, hold, bits, input, next, u, o);
    }
  }

  // ----- CODELENS -----

  /** What the code-length code says. */
  ghost function LookOf(cl: seq<nat>): BitString -> Code { s => CanonCode(CODES, cl, s) }

  /** The table with its reader. */
  ghost predicate PlainReads(tabs: Tables, cl: seq<nat>)
  {
    var read := Reads(tabs.lens, tabs.lenBits, LookOf(cl)) && OneLevel(tabs.lens);
    read && forall s: BitString, u: BitString :: SteadyAt(LookOf(cl), s, u)
  }

  lemma {:induction false} PlainIsRead(tabs: Tables, cl: seq<nat>)
    requires Plain(tabs, cl)
    ensures PlainReads(tabs, cl)
  {
    GoodReads(tabs.lens, tabs.lenBits, CODES, cl, LookOf(cl));
    CanonSteady(CODES, cl, LookOf(cl));
  }

  /** The loop that reads a code-length code: no second level. */
  method ReadPlain(tabs: Tables, input: seq<nat>, next0: nat, hold0: nat, bits0: nat, ghost cl: seq<nat>, ghost u: BitString)
    returns (ok: bool, next: nat, hold: nat, bits: nat, here: Code)
    requires PlainReads(tabs, cl) && AreBytes(input) && next0 <= |input| && hold0 < Pow2(bits0)
    ensures next0 <= next <= |input| && hold < Pow2(bits)
    ensures Ahead(hold, bits, input, next, u) == Ahead(hold0, bits0, input, next0, u)
    ensures ok ==> here == LookOf(cl)(Held(hold, bits)) && here.bits <= bits
    ensures !ok ==> next == |input| && LookOf(cl)(Held(hold, bits)).bits > bits
    ensures JustEnough(LookOf(cl), hold0, bits0, hold, bits)
  {
    ghost var look := LookOf(cl);
    next, hold, bits, ok := next0, hold0, bits0, false;
    while true
      invariant next0 <= next <= |input| && hold < Pow2(bits) && !ok
      invariant Ahead(hold, bits, input, next, u) == Ahead(hold0, bits0, input, next0, u)
      invariant JustEnough(look, hold0, bits0, hold, bits)
      decreases |input| - next
    {
      assert Indexed(tabs.lens, tabs.lenBits, look, hold, bits);
      here := tabs.lens[Low(hold, tabs.lenBits)];
      if here.bits <= bits { break; }
      TooFew(tabs.lens, tabs.lenBits, look, hold, bits);
      if next == |input| { return; }
      ghost var hold1, bits1 := hold, bits;
      next, hold, bits := PullByte(input, next, hold, bits, u);
      JustPulled(look, hold0, bits0, hold1, bits1, hold, bits);
    }
    ok := true;
  }

  /** Pulling bytes keeps what a code says. */
  lemma {:induction false} SameCode(cl: seq<nat>, hold0: nat, bits0: nat, hold: nat, bits: nat)
    requires bits0 <= bits && SteadyAt(LookOf(cl), Held(hold0, bits0), Held(hold, bits)[bits0..])
    requires Held(hold0, bits0) <= Held(hold, bits) && LookOf(cl)(Held(hold0, bits0)).bits <= bits0
    ensures CanonCode(CODES, cl, Held(hold, bits)) == CanonCode(CODES, cl, Held(hold0, bits0))
  {
    assert Held(hold0, bits0) + Held(hold, bits)[bits0..] == Held(hold, bits);
  }

  lemma {:induction false} HeldPrefix(hold0: nat, bits0: nat, next0: nat, hold: nat, bits: nat, next: nat, input: seq<nat>, u: BitString)
    requires next0 <= |input| && next <= |input| && bits0 <= bits
    requires Ahead(hold, bits, input, next, u) == Ahead(hold0, bits0, input, next0, u)
    ensures Held(hold0, bits0) <= Held(hold, bits)
  {
    assert Held(hold, bits) == Ahead(hold, bits, input, next, u)[..bits];
    assert Held(hold0, bits0) == Ahead(hold0, bits0, input, next0, u)[..bits0];
    assert Held(hold, bits)[..bits0] == Ahead(hold, bits, input, next, u)[..bits0];
  }

  /** A code-length code, and the extra bits of a repeat. */
  method ReadLength(tabs: Tables, input: seq<nat>, next0: nat, hold0: nat, bits0: nat, ghost cl: seq<nat>, ghost u: BitString)
    returns (ok: bool, next: nat, hold: nat, bits: nat, here: Code)
    requires PlainReads(tabs, cl) && AreBytes(input) && next0 <= |input| && hold0 < Pow2(bits0)
    requires bits0 < 8 || ItemSize(cl, Held(hold0, bits0)) > bits0
    ensures next0 <= next <= |input| && hold < Pow2(bits)
    ensures Ahead(hold, bits, input, next, u) == Ahead(hold0, bits0, input, next0, u)
    ensures ok ==> here == CanonCode(CODES, cl, Held(hold, bits)) && here.bits + ExtraOf(here.val) <= bits < here.bits + ExtraOf(here.val) + 8
    ensures !ok ==> next == |input| && ItemSize(cl, Held(hold, bits)) > bits
  {
    ghost var look := LookOf(cl);
    assert SteadyAt(look, Held(hold0, bits0), []);
    ok, next, hold, bits, here := ReadPlain(tabs, input, next0, hold0, bits0, cl, u);
    if !ok { return; }
    ghost var hold1, bits1 := hold, bits;
    NotTooMany(cl, hold0, bits0, hold, bits);
    if here.val >= 16 {
      ok, next, hold, bits := ReadExtra(here, input, next, hold, bits, cl, u);
    }
  }

  /** NEEDBITS for a repeat that has been looked up. */
  method ReadExtra(here: Code, input: seq<nat>, next0: nat, hold0: nat, bits0: nat, ghost cl: seq<nat>, ghost u: BitString)
    returns (ok: bool, next: nat, hold: nat, bits: nat)
    requires AreBytes(input) && next0 <= |input| && hold0 < Pow2(bits0) && forall s: BitString, u: BitString :: SteadyAt(LookOf(cl), s, u)
    requires here == CanonCode(CODES, cl, Held(hold0, bits0)) && here.bits <= bits0
    requires bits0 < here.bits + 8 || bits0 < here.bits + ExtraOf(here.val)
    ensures next0 <= next <= |input| && hold < Pow2(bits)
    ensures Ahead(hold, bits, input, next, u) == Ahead(hold0, bits0, input, next0, u)
    ensures here == CanonCode(CODES, cl, Held(hold, bits))
    ensures if ok then here.bits + ExtraOf(here.val) <= bits < here.bits + ExtraOf(here.val) + 8
            else next == |input| && here.bits + ExtraOf(here.val) > bits
  {
    var n := here.bits + ExtraOf(here.val);
    ok, next, hold, bits := NeedBits(n, input, next0, hold0, bits0, u);
    SameLeft(hold, bits, hold0, bits0, input, next, next0, u);
    HeldPrefix(hold0, bits0, next0, hold, bits, next, input, u);
    assert SteadyAt(LookOf(cl), Held(hold0, bits0), Held(hold, bits)[bits0..]);
    SameCode(cl, hold0, bits0, hold, bits);
  }

  /** After a code was read, either it was all in the bits held before, which were short of
      its extra bits, or few bits are held beyond it. */
  lemma {:induction false} NotTooMany(cl: seq<nat>, hold0: nat, bits0: nat, hold: nat, bits: nat)
    requires JustEnough(LookOf(cl), hold0, bits0, hold, bits) && LookOf(cl)(Held(hold, bits)).bits <= bits
    requires bits0 < 8 || ItemSize(cl, Held(hold0, bits0)) > bits0
    requires forall s: BitString, u: BitString :: SteadyAt(LookOf(cl), s, u)
    ensures bits < CanonCode(CODES, cl, Held(hold, bits)).bits + 8 || bits < ItemSize(cl, Held(hold, bits))
  {
    if bits >= 8 && LookOf(cl)(Held(hold, bits)[..bits - 8]).bits > bits - 8 {
      var s, u := Held(hold, bits)[..bits - 8], Held(hold, bits)[bits - 8..];
      assert Held(hold, bits) == s + u;
      assert SteadyAt(LookOf(cl), s, u);
    }
  }

  method Fill(lens: array<nat>, have: nat, copy: nat, len: nat)
    requires have + copy <= lens.Length
    modifies lens
    ensures lens[..have + copy] == old(lens[..have]) + seq(copy, _ => len)
  {
    var k := 0;
    while k < copy
      invariant 0 <= k <= copy && lens[..have] == old(lens[..have])
      invariant forall i :: have <= i < have + k ==> lens[i] == len
    {
      lens[have + k] := len;
      k := k + 1;
    }
  }

  /** The next symbol can be read from what is held. */
  ghost predicate ItemHeld(q: Spot, here: Code, hold: nat, bits: nat)
  {
    var read := q.CodeLens? && hold < Pow2(bits) && here == CanonCode(CODES, q.cl, Held(hold, bits));
    read && here.bits + ExtraOf(here.val) <= bits < here.bits + ExtraOf(here.val) + 8
  }

  /** The symbol was acted on. */
  ghost predicate ItemDone(q: Spot, out: seq<nat>, hold0: nat, bits0: nat, g: Regs, lens: seq<nat>, hold: nat, bits: nat, q': Spot)
    requires q.CodeLens? && ItemSize(q.cl, Held(hold0, bits0)) <= bits0
  {
    var lean := hold < Pow2(bits) && SpotLean(q', hold, bits) && bits < bits0;
    var shown := Shows(g, lens, q') && (q'.CodeLens? || q'.Failed?);
    lean && shown && OneItem(q, out, Held(hold0, bits0)) == Result(out, q', Held(hold, bits))
  }

  lemma {:induction false} ItemAtIs(here: Code, s: BitString, value: nat)
    requires here.bits + ExtraOf(here.val) <= |s| && value == Val(s[here.bits..][..ExtraOf(here.val)])
    ensures ItemAt(here, s) == Item(here.val, value)
  {
    TwoDrops(s, here.bits, ExtraOf(here.val));
  }

  lemma {:induction false} ItemIs(q: Spot, out: seq<nat>, here: Code, s: BitString, value: nat, rest: BitString)
    requires q.CodeLens? && here == CanonCode(CODES, q.cl, s) && here.bits + ExtraOf(here.val) <= |s|
    requires value == Val(s[here.bits..][..ExtraOf(here.val)]) && rest == s[here.bits..][ItemBitsUsed(q.got, here.val)..]
    ensures OneItem(q, out, s) == Result(out, AfterItem(q, Item(here.val, value)), rest)
  {
    var used := ItemBitsUsed(q.got, here.val);
    ItemAtIs(here, s, value);
    TwoDrops(s, here.bits, used);
    ItemFrom(q, here, out, s);
    assert rest == s[here.bits + used..];
  }

  /** A length as such. */
  method OneLength(g: Regs, lens: array<nat>, here: Code, hold0: nat, bits0: nat, ghost q: Spot, ghost out: seq<nat>)
    returns (g': Regs, hold: nat, bits: nat, ghost q': Spot)
    requires ItemHeld(q, here, hold0, bits0) && here.val < 16 && g.have < lens.Length && Shows(g, lens[..], q)
    modifies lens
    ensures ItemDone(q, out, hold0, bits0, g', lens[..], hold, bits, q')
  {
    hold, bits := DropBits(here.bits, hold0, bits0);
    ItemIs(q, out, here, Held(hold0, bits0), 0, Held(hold, bits));
    g', q' := PutLength(g, lens, here.val, q);
  }

  method PutLength(g: Regs, lens: array<nat>, val: nat, ghost q: Spot) returns (g': Regs, ghost q': Spot)
    requires q.CodeLens? && val < 16 && g.have < lens.Length && Shows(g, lens[..], q)
    modifies lens
    ensures q' == AfterItem(q, Item(val, 0)) && q'.CodeLens? && Shows(g', lens[..], q')
  {
    lens[g.have] := val;
    g', q' := g.(have := g.have + 1), q.(got := q.got + [val]);
    assert lens[..g.have + 1] == q.got + [val];
  }

  /** A repeat: its symbol and then its extra bits are dropped. */
  method Repeated(g: Regs, lens: array<nat>, here: Code, hold0: nat, bits0: nat, ghost q: Spot, ghost out: seq<nat>)
    returns (g': Regs, hold: nat, bits: nat, ghost q': Spot)
    requires ItemHeld(q, here, hold0, bits0) && here.val >= 16 && g.nlen + g.ndist <= lens.Length && g.have <= lens.Length && Shows(g, lens[..], q)
    modifies lens
    ensures ItemDone(q, out, hold0, bits0, g', lens[..], hold, bits, q')
  {
    if here.val == 16 && g.have == 0 {
      g', hold, bits, q' := NothingToRepeat(g, lens[..], here, hold0, bits0, q, out);
    } else {
      var value;
      value, hold, bits := RepeatBits(here, hold0, bits0, q, out);
      CodeVal(q.cl, Held(hold0, bits0));
      g', q' := PutRepeat(g, lens, here.val, value, q);
    }
  }

  method NothingToRepeat(g: Regs, ghost lens: seq<nat>, here: Code, hold0: nat, bits0: nat, ghost q: Spot, ghost out: seq<nat>)
    returns (g': Regs, hold: nat, bits: nat, ghost q': Spot)
    requires ItemHeld(q, here, hold0, bits0) && here.val == 16 && q.got == []
    ensures ItemDone(q, out, hold0, bits0, g', lens, hold, bits, q')
  {
    hold, bits := DropBits(here.bits, hold0, bits0);
    ghost var value := Val(Held(hold, bits)[..2]);
    ItemIs(q, out, here, Held(hold0, bits0), value, Held(hold, bits));
    assert AfterItem(q, Item(16, value)) == Failed;
    g', q' := g.(at := g.at.(mode := BAD)), Failed;
  }

  method RepeatBits(here: Code, hold0: nat, bits0: nat, ghost q: Spot, ghost out: seq<nat>) returns (value: nat, hold: nat, bits: nat)
    requires ItemHeld(q, here, hold0, bits0) && !(here.val == 16 && q.got == [])
    ensures hold < Pow2(bits) && bits < 8 && bits < bits0
    ensures OneItem(q, out, Held(hold0, bits0)) == Result(out, AfterItem(q, Item(here.val, value)), Held(hold, bits))
  {
    var x := ExtraOf(here.val);
    hold, bits := DropBits(here.bits, hold0, bits0);
    value := Low(hold, x);
    hold, bits := DropBits(x, hold, bits);
    ItemIs(q, out, here, Held(hold0, bits0), value, Held(hold, bits));
  }

  /** Only the 19 code-length symbols have codes. */
  lemma {:induction false} CodeVal(cl: seq<nat>, s: BitString)
    ensures CanonCode(CODES, cl, s).val < BL_CODES
  {
  }

  /** The length to repeat. */
  ghost predicate Repeats(got: seq<nat>, val: nat, len: nat)
  {
    16 <= val <= 18 && if val == 16 then got != [] && len == got[|got| - 1] else len == 0
  }

  lemma {:induction false} RepeatIs(q: Spot, val: nat, value: nat, len: nat, copy: nat, run: seq<nat>)
    requires q.CodeLens? && Repeats(q.got, val, len) && copy == (if val <= 17 then 3 else 11) + value
    requires |run| == copy && forall i :: 0 <= i < copy ==> run[i] == len
    ensures AfterItem(q, Item(val, value)) == if |q.got| + copy > q.nlen + q.ndist then Failed else q.(got := q.got + run)
  {
    var was := if val == 16 then q.got[|q.got| - 1] else 0;
    assert run == seq(copy, _ => was);
  }

  lemma {:induction false} ShowsMore(g: Regs, lens0: seq<nat>, q: Spot, lens: seq<nat>, run: seq<nat>)
    requires q.CodeLens? && Shows(g, lens0, q) && g.have + |run| <= |lens| && lens[..g.have + |run|] == lens0[..g.have] + run
    ensures Shows(g.(have := g.have + |run|), lens, q.(got := q.got + run))
  {
    assert lens0[..g.have] == q.got;
  }

  method PutRepeat(g: Regs, lens: array<nat>, val: nat, value: nat, ghost q: Spot) returns (g': Regs, ghost q': Spot)
    requires q.CodeLens? && 16 <= val <= 18 && g.nlen + g.ndist <= lens.Length && g.have <= lens.Length && Shows(g, lens[..], q)
    requires val == 16 ==> g.have != 0
    modifies lens
    ensures q' == AfterItem(q, Item(val, value)) && (q'.CodeLens? || q'.Failed?) && Shows(g', lens[..], q')
  {
    var len := if val == 16 then lens[g.have - 1] else 0;
    assert Repeats(q.got, val, len);
    var copy := (if val <= 17 then 3 else 11) + value;
    ghost var run := seq(copy, _ => len);
    RepeatIs(q, val, value, len, copy, run);
    if g.have + copy > g.nlen + g.ndist {
      g', q' := g.(at := g.at.(mode := BAD)), Failed;
    } else {
      ghost var lens0 := lens[..];
      Fill(lens, g.have, copy, len);
      ShowsMore(g, lens0, q, lens[..], run);
      g', q' := g.(have := g.have + copy), q.(got := q.got + run);
    }
  }

  /** One pass of the loop of CODELENS. */
  method ItemState(g: Regs, lens: array<nat>, input: seq<nat>, next0: nat, hold0: nat, bits0: nat,
                   ghost q: Spot, ghost out: seq<nat>, ghost u: BitString, ghost o: Result)
    returns (ok: bool, g': Regs, next: nat, hold: nat, bits: nat, ghost q': Spot)
    requires AreBytes(input) && Whole(|u|) && lens.Length == LENS_SIZE && g.have < g.nlen + g.ndist
    requires q.CodeLens? && Shows(g, lens[..], q) && Flowing(q, out, hold0, bits0, input, next0, u, o)
    modifies lens
    ensures next0 <= next && Flowing(q', out, hold, bits, input, next, u, o) && Shows(g', lens[..], q')
    ensures if ok then (q'.CodeLens? || q'.Failed?) && Left(bits, input, next) < Left(bits0, input, next0)
            else q' == q && Dry(q', hold, bits, input, next) && Left(bits, input, next) == Left(bits0, input, next0)
  {
    g', q' := g, q;
    PlainIsRead(g.tabs, q.cl);
    var here;
    ok, next, hold, bits, here := ReadLength(g.tabs, input, next0, hold0, bits0, q.cl, u);
    SameLeft(hold, bits, hold0, bits0, input, next, next0, u);
    if ok {
      ghost var hold1, bits1 := hold, bits;
      assert ItemHeld(q, here, hold, bits);
      if here.val < 16 {
        g', hold, bits, q' := OneLength(g, lens, here, hold, bits, q, out);
      } else {
        g', hold, bits, q' := Repeated(g, lens, here, hold, bits, q, out);
      }
      ItemStepped(q, out, hold1, bits1, g', lens[..], q', hold, bits, input, next, u, o);
    }
  }

  lemma {:induction false} ItemStepped(q: Spot, out: seq<nat>, hold0: nat, bits0: nat, g: Regs, lens: seq<nat>, q': Spot, hold: nat, bits: nat,
                                       input: seq<nat>, next: nat, u: BitString, o: Result)
    requires next <= |input| && Whole(|u|) && SpotOk(q) && q.CodeLens? && |q.got| < q.nlen + q.ndist
    requires Flow(q, out, Ahead(hold0, bits0, input, next, u)) == o
    requires ItemSize(q.cl, Held(hold0, bits0)) <= bits0 && ItemDone(q, out, hold0, bits0, g, lens, hold, bits, q')
    ensures Flowing(q', out, hold, bits, input, next, u, o)
  {
    Stepped(q, out, hold0, bits0, q', out, hold, bits, input, next, u, o);
  }

  /** Both codes of the block are built, or refused.  There is always room for the tables. */
  method BuildBlock(g: Regs, lens: array<nat>, ghost q: Spot) returns (g': Regs, ghost q': Spot)
    requires lens.Length == LENS_SIZE && q.CodeLens? && SpotOk(q) && Shows(g, lens[..], q) && |q.got| == q.nlen + q.ndist
    ensures q' == AfterCodeLens(q.last, q.nlen, q.ndist, q.got) && Shows(g', lens[..], q')
  {
    q' := AfterCodeLens(q.last, q.nlen, q.ndist, q.got);
    assert lens[..g.nlen] == q.got[..g.nlen] && lens[g.nlen..g.nlen + g.ndist] == q.got[g.nlen..] && lens[256] == q.got[256];
    if lens[256] == 0 {
      g' := g.(at := g.at.(mode := BAD));
    } else {
      var ok, tabs := BuildTables(lens[..g.nlen], lens[g.nlen..g.nlen + g.ndist]);
      if ok {
        g' := g.(at := START, tabs := tabs);
      } else {
        g' := g.(at := g.at.(mode := BAD));
      }
    }
  }

  method BuildTables(llens: seq<nat>, dlens: seq<nat>) returns (ok: bool, tabs: Tables)
    requires ValidLens(llens) && ValidLens(dlens) && |llens| <= 286 && |dlens| <= 30
    ensures ok <==> !Refused(LENS, llens) && !Refused(DISTS, dlens)
    ensures ok ==> GoodTables(tabs, llens, dlens)
  {
    tabs := Tables([], 1, [], 1);
    var table := new Code[ENOUGH_LENS];
    var ret, used, root := Build(LENS, llens, table, 9);
    ok := ret == 0;
    if !ok { return; }
    tabs := tabs.(lens := table[..used], lenBits := root);
    var dtable := new Code[ENOUGH_DISTS];
    ret, used, root := Build(DISTS, dlens, dtable, 6);
    ok := ret == 0;
    if !ok { return; }
    tabs := tabs.(dists := dtable[..used], distBits := root);
  }

  /** The loop of CODELENS. */
  method ItemLoop(g: Regs, lens: array<nat>, input: seq<nat>, next0: nat, hold0: nat, bits0: nat,
                  ghost q: Spot, ghost out: seq<nat>, ghost u: BitString, ghost o: Result)
    returns (ok: bool, g': Regs, next: nat, hold: nat, bits: nat, ghost q': Spot)
    requires AreBytes(input) && Whole(|u|) && lens.Length == LENS_SIZE
    requires q.CodeLens? && Shows(g, lens[..], q) && Flowing(q, out, hold0, bits0, input, next0, u, o)
    modifies lens
    ensures next0 <= next && Flowing(q', out, hold, bits, input, next, u, o) && Shows(g', lens[..], q') && (q'.CodeLens? || q'.Failed?)
    ensures Left(bits, input, next) <= Left(bits0, input, next0)
    ensures if ok then q'.Failed? || |q'.got| == q'.nlen + q'.ndist else Dry(q', hold, bits, input, next)
  {
    ok, g', next, hold, bits, q' := true, g, next0, hold0, bits0, q;
    while ok && g'.at.mode != BAD && g'.have < g'.nlen + g'.ndist
      invariant next0 <= next && Flowing(q', out, hold, bits, input, next, u, o) && Shows(g', lens[..], q') && (q'.CodeLens? || q'.Failed?)
      invariant Left(bits, input, next) <= Left(bits0, input, next0)
      invariant !ok ==> Dry(q', hold, bits, input, next)
      decreases Left(bits, input, next), ok
    {
      ok, g', next, hold, bits, q' := ItemState(g', lens, input, next, hold, bits, q', out, u, o);
    }
  }

  method CodeLensState(g: Regs, lens: array<nat>, input: seq<nat>, next0: nat, hold0: nat, bits0: nat,
                       ghost q: Spot, ghost out: seq<nat>, ghost u: BitString, ghost o: Result)
    returns (stop: bool, g': Regs, next: nat, hold: nat, bits: nat, ghost q': Spot)
    requires AreBytes(input) && Whole(|u|) && lens.Length == LENS_SIZE
    requires q.CodeLens? && Shows(g, lens[..], q) && Flowing(q, out, hold0, bits0, input, next0, u, o)
    modifies lens
    ensures next0 <= next && Flowing(q', out, hold, bits, input, next, u, o) && Shows(g', lens[..], q')
    ensures stop ==> Dry(q', hold, bits, input, next)
    ensures !stop ==> MovesOn(q, Left(bits0, input, next0), q', Left(bits, input, next))
  {
    var ok;
    ok, g', next, hold, bits, q' := ItemLoop(g, lens, input, next0, hold0, bits0, q, out, u, o);
    stop := !ok;
    if ok && g'.at.mode != BAD {
      ghost var q1 := q';
      g', q' := BuildBlock(g', lens, q');
      Stepped(q1, out, hold, bits, q', out, hold, bits, input, next, u, o);
    }
  }

  lemma {:induction false} TwoDrops(s: BitString, a: nat, b: nat)
    requires a + b <= |s|
    ensures s[a..][..b] == s[a..a + b] && s[a..][b..] == s[a + b..]
  {
  }
}
