/**
 What inflate decodes from a raw deflate stream of any number of blocks, as a function of
 the bits still to come: the reference for the whole of its state machine.

 A stream is made of whole bytes, so that the place of the next byte boundary is known from
 the number of bits still to come.
 */
module StreamDecoding {
  import opened Bits
  import opened Huffman
  import opened InflateTable
  import opened RunCoding
  import opened FixedCodes
  import opened Decoding

  /** Where decoding stands: the state, and what has been read of a header. */
  datatype Spot =
    | TypeDo(last: bool)
    | Stored(last: bool)
    | Copying(last: bool, length: nat)
    | Table(last: bool)
    | LenLens(last: bool, nlen: nat, ndist: nat, ncode: nat, sent: seq<nat>)
    | CodeLens(last: bool, nlen: nat, ndist: nat, cl: seq<nat>, got: seq<nat>)
    | Block(last: bool, llens: seq<nat>, dlens: seq<nat>, p: Point)
    | Done
    | Failed

  /** All output so far, where decoding stands, and the bits not used. */
  datatype Result = Result(out: seq<nat>, at: Spot, rest: BitString)

  const START := Point(LEN, 0, 0, 0)

  /** How many bits there are beyond whole bytes. */
  function Over(n: nat): (r: nat)
    ensures r < 8 && r <= n
  {
    if n < 8 then n else Over(n - 8)
  }

  predicate Whole(n: nat) { Over(n) == 0 }

  lemma {:induction false} OverIsMod(n: nat)
    ensures Over(n) == n % 8
  {
    if n >= 8 {
      OverIsMod(n - 8);
    }
  }

  lemma {:induction false} OverMore(a: nat, b: nat)
    requires Whole(b)
    ensures Over(a + b) == Over(a)
    decreases b
  {
    if b >= 8 {
      OverMore(a, b - 8);
    }
  }

  lemma {:induction false} OverRest(n: nat)
    ensures Whole(n - Over(n))
    decreases n
  {
    if n >= 8 {
      OverRest(n - 8);
    }
  }

  lemma {:induction false} WholeBits(k: nat)
    ensures Whole(8 * k)
  {
    if k > 0 {
      WholeBits(k - 1);
    }
  }

  /** From the next byte boundary on. */
  function Aligned(s: BitString): BitString { s[Over(|s|)..] }

  /** The lengths of the code-length code, from those sent. */
  function ClLens(got: seq<nat>): (lens: seq<nat>)
    ensures |lens| == BL_CODES
  {
    seq(BL_CODES, c requires 0 <= c < BL_CODES => if BlRank(c) < |got| then got[BlRank(c)] else 0)
  }

  /** A code-length symbol and its extra bits take so many bits. */
  ghost function ItemSize(cl: seq<nat>, s: BitString): nat
  {
    var e := CanonCode(CODES, cl, s);
    e.bits + ExtraOf(e.val)
  }

  /** Extra bits that CODELENS reads: a value of 16 or more is a repeat. */
  function ExtraOf(val: nat): nat { if val < 16 then 0 else if val == 16 then 2 else if val == 17 then 3 else 7 }

  /** Not enough bits for the state to go on.  Inside a block this is for `Run` to say. */
  ghost predicate Waits(q: Spot, s: BitString)
  {
    match q
    case TypeDo(last) => !last && |s| < 3
    case Stored(_) => |Aligned(s)| < 32
    case Copying(_, n) => n > 0 && |s| < 8
    case Table(_) => |s| < 14
    case LenLens(_, _, _, ncode, got) => |got| < ncode && |s| < 3
    case CodeLens(_, nlen, ndist, cl, got) => |got| < nlen + ndist && ItemSize(cl, s) > |s|
    case Block(_, _, _, _) => false
    case Done => true
    case Failed => true
  }

  /** Bits that are left alone while waiting. */
  function Kept(q: Spot, s: BitString): BitString { if q.Stored? then Aligned(s) else s }

  /** Three bits: whether this is the last block, and its type. */
  ghost function AfterType(last: bool, s: BitString): Spot
    requires |s| >= 3
  {
    var last := s[0];
    var kind := Val(s[1..3]);
    if kind == 0 then Stored(last)
    else if kind == 1 then Block(last, StaticL(), StaticD(), START)
    else if kind == 2 then Table(last)
    else Failed
  }

  /** The length of a stored block and its complement. */
  ghost function AfterStored(last: bool, out: seq<nat>, t: BitString): Result
    requires |t| >= 32
  {
    if Val(t[..16]) + Val(t[16..32]) != 0xffff then Result(out, Failed, t)
    else Result(out, Copying(last, Val(t[..16])), t[32..])
  }

  /** The three counts; more symbols than these are refused. */
  ghost function AfterTable(last: bool, s: BitString): Spot
    requires |s| >= 14
  {
    var nlen, ndist, ncode := Val(s[..5]) + 257, Val(s[5..10]) + 1, Val(s[10..14]) + 4;
    if nlen > 286 || ndist > 30 then Failed else LenLens(last, nlen, ndist, ncode, [])
  }

  /** All lengths of the code-length code have been read. */
  ghost function AfterLenLens(last: bool, nlen: nat, ndist: nat, got: seq<nat>): Spot
  {
    if Refused(CODES, ClLens(got)) then Failed else CodeLens(last, nlen, ndist, ClLens(got), [])
  }

  /** What a code-length symbol and its extra bits lead to. */
  ghost function AfterItem(q: Spot, it: Item): Spot
    requires q.CodeLens?
  {
    var more := ReadItem(q.got, it, q.nlen + q.ndist);
    if more.Lens? then q.(got := more.lens) else Failed
  }

  /** The extra bits are not read for a repeat with nothing to repeat. */
  function ItemBitsUsed(got: seq<nat>, val: nat): nat { if val == 16 && got == [] then 0 else ExtraOf(val) }

  /** One code-length symbol. */
  ghost function OneItem(q: Spot, out: seq<nat>, s: BitString): Result
    requires q.CodeLens? && ItemSize(q.cl, s) <= |s|
  {
    var e := CanonCode(CODES, q.cl, s);
    Result(out, AfterItem(q, ItemAt(e, s)), s[e.bits + ItemBitsUsed(q.got, e.val)..])
  }

  ghost function ItemAt(e: Code, s: BitString): Item
    requires e.bits + ExtraOf(e.val) <= |s|
  {
    Item(e.val, Val(s[e.bits..e.bits + ExtraOf(e.val)]))
  }

  /** All lengths have been read: there must be an end-of-block code, and both codes must be
      acceptable. */
  ghost function AfterCodeLens(last: bool, nlen: nat, ndist: nat, got: seq<nat>): Spot
    requires nlen <= |got|
  {
    if |got| <= 256 || got[256] == 0 || Refused(LENS, got[..nlen]) || Refused(DISTS, got[nlen..]) then Failed
    else Block(last, got[..nlen], got[nlen..], START)
  }

  /** One step outside the codes of a block. */
  ghost function Next(q: Spot, out: seq<nat>, s: BitString): Result
    requires !Waits(q, s) && !q.Block?
  {
    match q
    case TypeDo(last) => if last then Result(out, Done, Aligned(s)) else Result(out, AfterType(last, s), s[3..])
    case Stored(last) => AfterStored(last, out, Aligned(s))
    case Copying(last, n) => if n == 0 then Result(out, TypeDo(last), s) else Result(out + [Val(s[..8])], Copying(last, n - 1), s[8..])
    case Table(last) => Result(out, AfterTable(last, s), s[14..])
    case LenLens(last, nlen, ndist, ncode, got) =>
      if |got| < ncode then Result(out, LenLens(last, nlen, ndist, ncode, got + [Val(s[..3])]), s[3..])
      else Result(out, AfterLenLens(last, nlen, ndist, got), s)
    case CodeLens(last, nlen, ndist, cl, got) =>
      if |got| < nlen + ndist then OneItem(q, out, s)
      else Result(out, AfterCodeLens(last, nlen, ndist, got), s)
  }

  /** Steps that use no bits go down. */
  function Tier(q: Spot): nat
  {
    match q
    case LenLens(_, _, _, _, _) => 5
    case CodeLens(_, _, _, _, _) => 4
    case Block(_, _, _, _) => 3
    case Copying(_, _) => 2
    case Done => 0
    case Failed => 0
    case _ => 1
  }

  /** The spot that a point inside or at the end of a block is. */
  function AtPoint(q: Spot, p: Point): Spot
    requires q.Block?
  {
    if p.mode == TYPE then TypeDo(q.last) else if p.mode == BAD then Failed else q.(p := p)
  }

  lemma {:induction false} RunShrinks(r: Reader, p: Point, out: seq<nat>, s: BitString)
    ensures |Run(r, p, out, s).rest| <= |s|
    decreases |s|, Height(p.mode), p.length
  {
    if !Stuck(r, p, s) {
      var o := Step(r, p, out, s);
      RunShrinks(r, o.at, o.out, o.rest);
    }
  }

  /** Fewer bits, or as many and a lower tier. */
  ghost predicate Shrinks(q: Spot, s: BitString, q': Spot, s': BitString)
  {
    |s'| < |s| || (|s'| == |s| && Tier(q') < Tier(q))
  }

  lemma {:induction false} ItemShrinks(q: Spot, out: seq<nat>, s: BitString)
    requires q.CodeLens? && ItemSize(q.cl, s) <= |s|
    ensures |OneItem(q, out, s).rest| < |s|
  {
  }

  lemma {:induction false} StoredShrinks(last: bool, out: seq<nat>, s: BitString)
    requires |Aligned(s)| >= 32
    ensures var n := AfterStored(last, out, Aligned(s)); |n.rest| < |s| || (|n.rest| == |s| && n.at.Failed?)
  {
    AlignedShrinks(s);
  }

  lemma {:induction false} NextShrinks(q: Spot, out: seq<nat>, s: BitString)
    requires !Waits(q, s) && !q.Block?
    ensures Shrinks(q, s, Next(q, out, s).at, Next(q, out, s).rest)
  {
    match q
    case TypeDo(last) =>
      AlignedShrinks(s);
    case Stored(last) =>
      StoredShrinks(last, out, s);
    case CodeLens(_, nlen, ndist, _, got) =>
      if |got| < nlen + ndist { ItemShrinks(q, out, s); }
    case _ =>
  }

  lemma {:induction false} AlignedShrinks(s: BitString)
    ensures |Aligned(s)| <= |s|
  {
  }

  /** Decode as far as the bits go. */
  ghost function Flow(q: Spot, out: seq<nat>, s: BitString): Result
    decreases |s|, Tier(q)
  {
    if q.Block? then
      var o := Run(Canonical(q.llens, q.dlens), q.p, out, s);
      RunShrinks(Canonical(q.llens, q.dlens), q.p, out, s);
      if o.at.mode == TYPE then Flow(TypeDo(q.last), o.out, o.rest) else Result(o.out, AtPoint(q, o.at), o.rest)
    else if Waits(q, s) then Result(out, q, Kept(q, s))
    else
      var n := Next(q, out, s);
      NextShrinks(q, out, s);
      Flow(n.at, n.out, n.rest)
  }

  /** Output only grows. */
  lemma {:induction false} FlowGrows(q: Spot, out: seq<nat>, s: BitString)
    ensures out <= Flow(q, out, s).out
    decreases |s|, Tier(q)
  {
    if q.Block? {
      var r := Canonical(q.llens, q.dlens);
      var o := Run(r, q.p, out, s);
      RunGrows(r, q.p, out, s);
      RunShrinks(r, q.p, out, s);
      if o.at.mode == TYPE {
        FlowGrows(TypeDo(q.last), o.out, o.rest);
      }
    } else if !Waits(q, s) {
      var n := Next(q, out, s);
      NextShrinks(q, out, s);
      assert out <= n.out;
      FlowGrows(n.at, n.out, n.rest);
    }
  }

  // ----- what is kept -----

  /** What has been read of a header is what its fields can say. */
  ghost predicate SpotOk(q: Spot)
  {
    match q
    case LenLens(_, nlen, ndist, ncode, got) =>
      257 <= nlen <= 286 && 1 <= ndist <= 30 && 4 <= ncode <= BL_CODES && |got| <= ncode && AllAtMost(got, 7)
    case CodeLens(_, nlen, ndist, cl, got) =>
      257 <= nlen <= 286 && 1 <= ndist <= 30 && |got| <= nlen + ndist && ValidLens(got) && |cl| == BL_CODES && Accepted(CODES, cl)
    case Block(_, llens, dlens, p) => Accepted(LENS, llens) && Accepted(DISTS, dlens) && PointOk(p) && InBlock(p.mode)
    case _ => true
  }

  ghost predicate AllAtMost(vs: seq<nat>, max: nat) { forall i :: 0 <= i < |vs| ==> vs[i] <= max }

  lemma {:induction false} FieldBounds(s: BitString)
    ensures |s| == 3 ==> Val(s) <= 7
    ensures |s| == 4 ==> Val(s) <= 15
    ensures |s| == 5 ==> Val(s) <= 31
    ensures |s| == 8 ==> Val(s) <= 255
  {
    ValBound(s);
    PowersTo13();
  }

  lemma {:induction false} FixedAccepted()
    ensures Accepted(LENS, StaticL()) && Accepted(DISTS, StaticD())
  {
    StaticLComplete();
    StaticDComplete();
  }

  /** A repeat writes lengths that can be. */
  lemma {:induction false} ItemValid(got: seq<nat>, it: Item, total: nat)
    requires ValidLens(got) && |got| <= total && ReadItem(got, it, total).Lens? && |got| < total
    ensures ValidLens(ReadItem(got, it, total).lens) && |ReadItem(got, it, total).lens| <= total
  {
  }

  lemma {:induction false} TypeOk(last: bool, s: BitString)
    requires |s| >= 3
    ensures SpotOk(AfterType(last, s))
  {
    FixedAccepted();
  }

  lemma {:induction false} TableOk(last: bool, s: BitString)
    requires |s| >= 14
    ensures SpotOk(AfterTable(last, s))
  {
    FieldBounds(s[10..14]);
  }

  lemma {:induction false} LenLensOk(q: Spot)
    requires SpotOk(q) && q.LenLens?
    ensures SpotOk(AfterLenLens(q.last, q.nlen, q.ndist, q.sent))
  {
  }

  lemma {:induction false} ItemLeads(q: Spot, out: seq<nat>, s: BitString)
    requires SpotOk(q) && q.CodeLens? && |q.got| < q.nlen + q.ndist && ItemSize(q.cl, s) <= |s|
    ensures SpotOk(OneItem(q, out, s).at)
  {
    var it := ItemAt(CanonCode(CODES, q.cl, s), s);
    if ReadItem(q.got, it, q.nlen + q.ndist).Lens? {
      ItemValid(q.got, it, q.nlen + q.ndist);
    }
  }

  lemma {:induction false} CodeLensOk(q: Spot)
    requires SpotOk(q) && q.CodeLens? && |q.got| >= q.nlen + q.ndist
    ensures SpotOk(AfterCodeLens(q.last, q.nlen, q.ndist, q.got))
  {
  }

  lemma {:induction false} NextOk(q: Spot, out: seq<nat>, s: BitString)
    requires SpotOk(q) && !Waits(q, s) && !q.Block?
    ensures SpotOk(Next(q, out, s).at)
  {
    match q
    case TypeDo(last) =>
      if !last { TypeOk(last, s); }
    case Table(last) =>
      TableOk(last, s);
    case LenLens(_, nlen, ndist, ncode, got) =>
      if |got| < ncode { FieldBounds(s[..3]); } else { LenLensOk(q); }
    case CodeLens(_, nlen, ndist, cl, got) =>
      if |got| < nlen + ndist { ItemLeads(q, out, s); } else { CodeLensOk(q); }
    case _ =>
  }

  // ----- what is read from enough bits stays -----

  lemma {:induction false} AlignedMore(s: BitString, u: BitString)
    requires Whole(|u|)
    ensures Aligned(s + u) == Aligned(s) + u
  {
    OverMore(|s|, |u|);
  }

  lemma {:induction false} SameItem(q: Spot, e: Code, out: seq<nat>, s: BitString, u: BitString)
    requires q.CodeLens? && e.bits + ExtraOf(e.val) <= |s|
    ensures ItemAt(e, s + u) == ItemAt(e, s)
    ensures (s + u)[e.bits + ItemBitsUsed(q.got, e.val)..] == s[e.bits + ItemBitsUsed(q.got, e.val)..] + u
  {
    FieldsStable(s, u, e.bits, e.bits + ItemBitsUsed(q.got, e.val));
    FieldsStable(s, u, e.bits, e.bits + ExtraOf(e.val));
  }

  lemma {:induction false} ItemFrom(q: Spot, e: Code, out: seq<nat>, s: BitString)
    requires q.CodeLens? && e == CanonCode(CODES, q.cl, s) && e.bits + ExtraOf(e.val) <= |s|
    ensures ItemSize(q.cl, s) <= |s|
    ensures OneItem(q, out, s) == Result(out, AfterItem(q, ItemAt(e, s)), s[e.bits + ItemBitsUsed(q.got, e.val)..])
  {
  }

  lemma {:induction false} ItemStable(q: Spot, out: seq<nat>, s: BitString, u: BitString)
    requires SpotOk(q) && q.CodeLens? && |q.got| < q.nlen + q.ndist && ItemSize(q.cl, s) <= |s|
    ensures ItemSize(q.cl, s + u) <= |s + u|
    ensures OneItem(q, out, s + u) == More(OneItem(q, out, s), u)
  {
    var e := CanonCode(CODES, q.cl, s);
    CanonStable(CODES, q.cl, s, u);
    ItemFrom(q, e, out, s);
    ItemFrom(q, e, out, s + u);
    SameItem(q, e, out, s, u);
  }

  /** The same, with more bits left over. */
  function More(n: Result, u: BitString): Result { n.(rest := n.rest + u) }

  lemma {:induction false} FieldsStable(s: BitString, u: BitString, a: nat, b: nat)
    requires a <= b <= |s|
    ensures (s + u)[a..b] == s[a..b] && (s + u)[b..] == s[b..] + u
  {
  }

  /** More bits after enough bits change nothing but what is left over. */
  lemma {:induction false} NextStable(q: Spot, out: seq<nat>, s: BitString, u: BitString)
    requires SpotOk(q) && !Waits(q, s) && !q.Block? && Whole(|u|)
    ensures !Waits(q, s + u)
    ensures Next(q, out, s + u) == More(Next(q, out, s), u)
  {
    match q
    case TypeDo(last) =>
      if last { AlignedMore(s, u); } else { FieldsStable(s, u, 1, 3); }
    case Stored(_) =>
      AlignedMore(s, u);
      FieldsStable(Aligned(s), u, 0, 16);
      FieldsStable(Aligned(s), u, 16, 32);
    case Copying(_, n) =>
      if n > 0 { FieldsStable(s, u, 0, 8); }
    case Table(_) =>
      FieldsStable(s, u, 0, 5);
      FieldsStable(s, u, 5, 10);
      FieldsStable(s, u, 10, 14);
    case LenLens(_, nlen, ndist, ncode, got) =>
      if |got| < ncode { FieldsStable(s, u, 0, 3); }
    case CodeLens(_, nlen, ndist, cl, got) =>
      if |got| < nlen + ndist { ItemStable(q, out, s, u); }
  }

  /** A step taken on the bits at hand is a step of the whole flow. */
  lemma {:induction false} FlowStep(q: Spot, out: seq<nat>, s: BitString, u: BitString)
    requires SpotOk(q) && !Waits(q, s) && !q.Block? && Whole(|u|)
    ensures var n := Next(q, out, s); Flow(q, out, s + u) == Flow(n.at, n.out, n.rest + u)
  {
    NextStable(q, out, s, u);
  }

  /** Dropping to a byte boundary first changes nothing. */
  lemma {:induction false} FlowAligned(last: bool, out: seq<nat>, s: BitString)
    ensures Flow(Stored(last), out, Aligned(s)) == Flow(Stored(last), out, s)
  {
    OverRest(|s|);
    assert Aligned(Aligned(s)) == Aligned(s);
  }

  /** What is the same to the run of a block is the same to the flow. */
  lemma {:induction false} FlowBlock(q: Spot, p: Point, out: seq<nat>, s: BitString, p': Point, out': seq<nat>, s': BitString)
    requires q.Block? && Run(Canonical(q.llens, q.dlens), p', out', s') == Run(Canonical(q.llens, q.dlens), p, out, s)
    ensures Flow(AtPoint(q, p'), out', s') == Flow(q.(p := p), out, s)
  {
  }
}
