/**
 The bit output of trees.c: `send_bits` with its 16-bit buffer, `bi_flush`, `bi_windup`.
 */
module BitWriter {
  import opened Bits
  import opened Inflating

  const BUF_SIZE := 16

  lemma {:induction false} OneByte(b: nat)
    ensures ByteBits([b]) == LowBits(b, 8)
  {
    assert [b][1..] == [];
  }

  lemma {:induction false} LowBitsSplit(w: nat, m: nat, n: nat, s: BitString)
    requires w < Pow2(m + n) && s == LowBits(w, m + n)
    ensures LowBits(Low(w, m), m) == s[..m] && LowBits(Shifted(w, Pow2(m)), n) == s[m..]
  {
    ValLowBits(w, m + n);
    ValSplit(s, m);
    ValBound(s[..m]);
    ValBound(s[m..]);
    ValLowBits(Low(w, m), m);
    ValInjective(LowBits(Low(w, m), m), s[..m]);
    ValLowBits(Shifted(w, Pow2(m)), n);
    ValInjective(LowBits(Shifted(w, Pow2(m)), n), s[m..]);
  }

  /** A 16-bit value as two bytes; n is 8. */
  lemma {:induction false} ShortBits(w: nat, n: nat)
    requires n == 8 && w < Pow2(n + n)
    ensures Low(w, n) < 256 && Shifted(w, Pow2(n)) < 256
    ensures ByteBits([Low(w, n), Shifted(w, Pow2(n))]) == LowBits(w, n + n)
  {
    var s := LowBits(w, n + n);
    LowBitsSplit(w, n, n, s);
    TakeBits(w, n + n, n);
    ValBound(s[..n]);
    var lo, hi := Low(w, n), Shifted(w, Pow2(n));
    assert lo < Pow2(n) && hi < Pow2(n) && Pow2(n) == 256 by { Pow2Values(); }
    assert [lo, hi] == [lo] + [hi];
    ByteBitsAppend([lo], [hi]);
    OneByteOf(lo, n);
    OneByteOf(hi, n);
  }

  lemma {:induction false} OneByteOf(b: nat, n: nat)
    requires n == 8
    ensures ByteBits([b]) == LowBits(b, n)
  {
    OneByte(b);
  }

  /** The buffer with the value shifted in above its bits. */
  lemma {:induction false} Joined(buf: nat, valid: nat, value: nat, len: nat)
    requires buf < Pow2(valid) && value < Pow2(len)
    ensures Val(Held(buf, valid) + LowBits(value, len)) == buf + value * Pow2(valid)
    ensures buf + value * Pow2(valid) < Pow2(valid + len)
    ensures Held(buf + value * Pow2(valid), valid + len) == Held(buf, valid) + LowBits(value, len)
  {
    var s := Held(buf, valid) + LowBits(value, len);
    ValConcat(Held(buf, valid), LowBits(value, len));
    ValLowBits(buf, valid);
    ValLowBits(value, len);
    Commute(value, Pow2(valid));
    ValBound(s);
    ValLowBits(buf + value * Pow2(valid), valid + len);
    ValInjective(Held(buf + value * Pow2(valid), valid + len), s);
  }

  /** What goes out first and what stays when the buffer overflows; n is 8. */
  lemma {:induction false} Overflowed(buf: nat, valid: nat, value: nat, len: nat, v: nat, n: nat, s: BitString)
    requires n == 8 && buf < Pow2(valid) && value < Pow2(len) && valid <= n + n <= valid + len
    requires v == buf + value * Pow2(valid) && s == Held(buf, valid) + LowBits(value, len)
    ensures Low(v, n + n) < Pow2(n + n) && LowBits(Low(v, n + n), n + n) == s[..n + n]
    ensures var rest := Shifted(value, Pow2(n + n - valid));
            rest < Pow2(valid + len - (n + n)) && Held(rest, valid + len - (n + n)) == s[n + n..]
  {
    Joined(buf, valid, value, len);
    ValSplit(s, n + n);
    ValBound(s[..n + n]);
    ValLowBits(Low(v, n + n), n + n);
    ValInjective(LowBits(Low(v, n + n), n + n), s[..n + n]);
    TakeBits(value, len, n + n - valid);
    assert s[n + n..] == LowBits(value, len)[n + n - valid..];
  }

  /** All bits sent: whole bytes and the buffer. */
  ghost function Stream(pending: seq<nat>, buf: nat, valid: nat): BitString
  {
    ByteBits(pending) + Held(buf, valid)
  }

  /** put_short: the low n = 8 bits and then the rest. */
  function Short(w: nat, n: nat): seq<nat> { [Low(w, n), Shifted(w, Pow2(n))] }

  lemma {:induction false} StreamShort(pending: seq<nat>, w: nat, n: nat)
    requires n == 8 && w < Pow2(n + n) && AreBytes(pending)
    ensures AreBytes(pending + Short(w, n)) && ByteBits(pending + Short(w, n)) == ByteBits(pending) + LowBits(w, n + n)
  {
    ShortBits(w, n);
    ByteBitsAppend(pending, Short(w, n));
  }

  lemma {:induction false} StreamByte(pending: seq<nat>, b: nat, n: nat)
    requires n == 8 && b < Pow2(n) && AreBytes(pending)
    ensures AreBytes(pending + [b]) && ByteBits(pending + [b]) == ByteBits(pending) + LowBits(b, n)
  {
    assert Pow2(n) == 256 by { Pow2Values(); }
    OneByteOf(b, n);
    ByteBitsAppend(pending, [b]);
  }

  lemma {:induction false} SendOver(pending: seq<nat>, buf: nat, valid: nat, value: nat, len: nat, n: nat, all: nat, rest: nat)
    requires n == 8 && AreBytes(pending) && buf < Pow2(valid) && value < Pow2(len) && valid <= n + n <= valid + len
    requires all == buf + value * Pow2(valid) && rest == Shifted(value, Pow2(n + n - valid))
    ensures var pending' := pending + Short(Low(all, n + n), n);
            && AreBytes(pending') && rest < Pow2(valid + len - (n + n))
            && Stream(pending', rest, valid + len - (n + n)) == Stream(pending, buf, valid) + LowBits(value, len)
  {
    var s := Held(buf, valid) + LowBits(value, len);
    Overflowed(buf, valid, value, len, all, n, s);
    StreamShort(pending, Low(all, n + n), n);
    Regrouped(ByteBits(pending), s, n + n, Held(buf, valid), LowBits(value, len));
  }

  lemma {:induction false} Regrouped(a: BitString, s: BitString, n: nat, h: BitString, v: BitString)
    requires n <= |s| && s == h + v
    ensures (a + s[..n]) + s[n..] == (a + h) + v
  {
  }

  /** The buffer with the bits of value above those it holds; two bytes go out when it overflows. */
  method Packed(pending: seq<nat>, buf: nat, valid: nat, value: nat, length: nat, n: nat) returns (pending': seq<nat>, buf': nat, valid': nat)
    requires n == 8 && AreBytes(pending) && valid <= n + n && buf < Pow2(valid) && length <= n + n && value < Pow2(length)
    ensures AreBytes(pending') && valid' <= n + n && buf' < Pow2(valid')
    ensures Stream(pending', buf', valid') == Stream(pending, buf, valid) + LowBits(value, length)
  {
    var all := buf + value * Pow2(valid);
    if valid > n + n - length {
      var rest := Shifted(value, Pow2(n + n - valid));
      SendOver(pending, buf, valid, value, length, n, all, rest);
      pending' := pending + Short(Low(all, n + n), n);
      buf', valid' := rest, valid + length - (n + n);
    } else {
      SendWithin(pending, buf, valid, value, length, all);
      pending', buf', valid' := pending, all, valid + length;
    }
  }

  lemma {:induction false} SendWithin(pending: seq<nat>, buf: nat, valid: nat, value: nat, len: nat, all: nat)
    requires buf < Pow2(valid) && value < Pow2(len) && all == buf + value * Pow2(valid)
    ensures all < Pow2(valid + len) && Stream(pending, all, valid + len) == Stream(pending, buf, valid) + LowBits(value, len)
  {
    Joined(buf, valid, value, len);
  }

  class Writer {
    /** pending_buf[0..pending] */
    var pending: seq<nat>
    var bi_buf: nat
    var bi_valid: nat
    var bi_used: nat

    ghost predicate Valid()
      reads this
    {
      AreBytes(pending) && bi_valid <= BUF_SIZE && bi_buf < Pow2(bi_valid)
    }

    /** All bits sent so far. */
    ghost function Sent(): BitString
      reads this
    {
      Stream(pending, bi_buf, bi_valid)
    }

    constructor ()
      ensures Valid() && Sent() == [] && pending == [] && bi_valid == 0
    {
      pending, bi_buf, bi_valid, bi_used := [], 0, 0, 0;
    }

    /** send_bits. */
    method SendBits(value: nat, length: nat)
      requires Valid() && length <= BUF_SIZE && value < Pow2(length)
      modifies this
      ensures Valid() && Sent() == old(Sent()) + LowBits(value, length)
    {
      SendIn(value, length, 8);
    }

    /** The body of send_bits, for a buffer of twice n bits. */
    method SendIn(value: nat, length: nat, n: nat)
      requires n == 8 && Valid() && length <= n + n && value < Pow2(length)
      modifies this
      ensures Valid() && Sent() == old(Sent()) + LowBits(value, length)
    {
      pending, bi_buf, bi_valid := Packed(pending, bi_buf, bi_valid, value, length, n);
    }

    /** bi_flush: keeps at most 7 bits in the buffer. */
    method Flush()
      requires Valid()
      modifies this
      ensures Valid() && Sent() == old(Sent()) && bi_valid < 8 && bi_valid <= old(bi_valid)
    {
      FlushIn(8);
    }

    method FlushIn(n: nat)
      requires n == 8 && Valid()
      modifies this
      ensures Valid() && Sent() == old(Sent()) && bi_valid < n && bi_valid <= old(bi_valid)
    {
      if bi_valid == n + n {
        StreamShort(pending, bi_buf, n);
        pending := pending + Short(bi_buf, n);
        bi_buf, bi_valid := 0, 0;
      } else if bi_valid >= n {
        FlushOne(pending, bi_buf, bi_valid, n);
        pending := pending + [Low(bi_buf, n)];
        bi_buf, bi_valid := Shifted(bi_buf, Pow2(n)), bi_valid - n;
      }
    }

    /** bi_windup: zero bits up to a byte boundary. */
    method Windup()
      requires Valid()
      modifies this
      ensures Valid() && bi_valid == 0 && Sent() == ByteBits(pending)
      ensures exists pad: nat :: pad < 8 && Sent() == old(Sent()) + Zeros(pad)
      ensures 1 <= bi_used <= 8
    {
      ghost var pad := WindupIn(8);
    }

    method WindupIn(n: nat) returns (ghost pad: nat)
      requires n == 8 && Valid()
      modifies this
      ensures Valid() && bi_valid == 0 && Sent() == ByteBits(pending)
      ensures pad < n && Sent() == old(Sent()) + Zeros(pad)
      ensures 1 <= bi_used <= n
    {
      pad := if bi_valid > n then n + n - bi_valid else if bi_valid > 0 then n - bi_valid else 0;
      if bi_valid > n {
        Padded(bi_buf, bi_valid, n + n);
        StreamShort(pending, bi_buf, n);
        pending := pending + Short(bi_buf, n);
      } else if bi_valid > 0 {
        Padded(bi_buf, bi_valid, n);
        StreamByte(pending, bi_buf, n);
        pending := pending + [bi_buf];
      }
      bi_used := (bi_valid + n - 1) % n + 1;
      bi_buf, bi_valid := 0, 0;
    }

    /** put_short, on a byte boundary. */
    method PutShort(v: nat)
      requires Valid() && bi_valid == 0 && v < 0x10000
      modifies this
      ensures Valid() && bi_valid == 0 && Sent() == old(Sent()) + LowBits(v, 16)
    {
      PutShortIn(v, 8);
    }

    method PutShortIn(v: nat, n: nat)
      requires n == 8 && Valid() && bi_valid == 0 && v < 0x10000
      modifies this
      ensures Valid() && bi_valid == 0 && Sent() == old(Sent()) + LowBits(v, n + n)
    {
      assert Pow2(n + n) == 0x10000 by { Pow2Values(); }
      StreamShort(pending, v, n);
      NoneHeld(pending, bi_buf);
      NoneHeld(pending + Short(v, n), bi_buf);
      pending := pending + Short(v, n);
    }

    /** Bytes copied as they are, on a byte boundary. */
    method PutBytes(bytes: seq<nat>)
      requires Valid() && bi_valid == 0 && AreBytes(bytes)
      modifies this
      ensures Valid() && bi_valid == 0 && Sent() == old(Sent()) + ByteBits(bytes)
    {
      ByteBitsAppend(pending, bytes);
      NoneHeld(pending, bi_buf);
      NoneHeld(pending + bytes, bi_buf);
      pending := pending + bytes;
    }
  }

  lemma {:induction false} NoneHeld(pending: seq<nat>, buf: nat)
    ensures Stream(pending, buf, 0) == ByteBits(pending)
  {
    assert ByteBits(pending) + [] == ByteBits(pending);
  }

  lemma {:induction false} FlushOne(pending: seq<nat>, buf: nat, valid: nat, n: nat)
    requires n == 8 && AreBytes(pending) && n <= valid && buf < Pow2(valid)
    ensures AreBytes(pending + [Low(buf, n)]) && Shifted(buf, Pow2(n)) < Pow2(valid - n)
    ensures Stream(pending + [Low(buf, n)], Shifted(buf, Pow2(n)), valid - n) == Stream(pending, buf, valid)
  {
    var s := Held(buf, valid);
    FlushByte(buf, valid, n, s);
    StreamByte(pending, Low(buf, n), n);
    Regrouped(ByteBits(pending), s, n, s, []);
    assert s == s + [];
    assert (ByteBits(pending) + s) + [] == ByteBits(pending) + s;
  }

  lemma {:induction false} FlushByte(buf: nat, valid: nat, n: nat, s: BitString)
    requires n <= valid && buf < Pow2(valid) && s == Held(buf, valid)
    ensures Low(buf, n) < Pow2(n) && LowBits(Low(buf, n), n) == s[..n]
    ensures Shifted(buf, Pow2(n)) < Pow2(valid - n) && Held(Shifted(buf, Pow2(n)), valid - n) == s[n..]
  {
    TakeBits(buf, valid, n);
    ValBound(s[..n]);
    ValLowBits(Low(buf, n), n);
    ValInjective(LowBits(Low(buf, n), n), s[..n]);
  }

  lemma {:induction false} Padded(buf: nat, valid: nat, n: nat)
    requires valid <= n && buf < Pow2(valid)
    ensures buf < Pow2(n) && LowBits(buf, n) == Held(buf, valid) + Zeros(n - valid)
  {
    Pow2Mono(valid, n);
    var s, z := Held(buf, valid), Zeros(n - valid);
    ValConcat(s, z);
    ZerosAreZero(n - valid);
    ValLowBits(buf, valid);
    ValLowBits(buf, n);
    ValInjective(LowBits(buf, n), s + z);
  }
}
