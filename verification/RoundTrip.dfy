/**
 Deflate and inflate together: whatever is given to deflate, in whatever chunks, comes back
 from inflate, in whatever pieces.
 */
module RoundTrip {
  import opened Bits
  import opened BitWriter
  import opened StreamDecoding
  import opened Inflating
  import BlockWriter
  import StreamWriter
  import D = DeflateSlow
  import I = Inflater

  function Joined(chunks: seq<seq<nat>>): seq<nat>
  {
    if chunks == [] then [] else Joined(chunks[..|chunks| - 1]) + chunks[|chunks| - 1]
  }

  /** A stream that has ended is decoded to its bytes, and what follows it is left. */
  lemma {:induction false} EndedStream(pending: seq<nat>, data: seq<nat>, more: seq<nat>)
    requires StreamWriter.Coded(ByteBits(pending), data, true)
    ensures I.Decoded(pending + more) == Result(data, Done, ByteBits(more))
  {
    ByteBitsAppend(pending, more);
    WholeBits(|pending| + |more|);
    assert |ByteBits(pending)| + |ByteBits(more)| == 8 * (|pending| + |more|);
    assert StreamWriter.CodedAt(ByteBits(pending), data, true, ByteBits(more));
  }

  ghost predicate AllBytes(chunks: seq<seq<nat>>) { forall i :: 0 <= i < |chunks| ==> AreBytes(chunks[i]) }

  /** One chunk more. */
  method Feed(d: D.DeflateState, chunk: seq<nat>, full: nat -> bool)
    requires d.Valid() && !d.ended && AreBytes(chunk)
    modifies d, d.window, d.head, d.prev, d.w
    ensures d.Valid() && !d.ended && d.Supplied() == old(d.Supplied()) + chunk
  {
    d.Give(chunk);
    var ret := d.Deflate(D.NoFlush, full);
  }

  /** The end of the input, with room enough for what is left. */
  method Conclude(d: D.DeflateState) returns (stream: seq<nat>)
    requires d.Valid() && !d.ended
    modifies d, d.window, d.head, d.prev, d.w
    ensures AreBytes(stream) && StreamWriter.Coded(ByteBits(stream), old(d.Supplied()), true)
  {
    var ret := d.Deflate(D.Finish, n => false);
    stream := d.w.pending;
    NoneHeld(d.w.pending, d.w.bi_buf);
  }

  /** All chunks, one after another. */
  method FeedAll(d: D.DeflateState, chunks: seq<seq<nat>>, full: nat -> bool)
    requires d.Valid() && !d.ended && AllBytes(chunks) && d.Supplied() == []
    modifies d, d.window, d.head, d.prev, d.w
    ensures d.Valid() && !d.ended && d.Supplied() == Joined(chunks)
  {
    var k: nat := 0;
    while k < |chunks|
      invariant k <= |chunks| && d.Valid() && !d.ended && d.Supplied() == Joined(chunks[..k])
    {
      assert AreBytes(chunks[k]);
      assert chunks[..k + 1][..k] == chunks[..k];
      Feed(d, chunks[k], full);
      k := k + 1;
    }
    assert chunks[..k] == chunks;
  }

  /** All chunks and then the end of the input.  `full` says when the output buffer is full. */
  method Compress(chunks: seq<seq<nat>>, hb: nat, wsize: nat, config: D.Config, full: nat -> bool) returns (stream: seq<nat>)
    requires AllBytes(chunks) && hb >= 8 && 512 <= wsize <= 32768 && config.max_chain >= 4
    ensures AreBytes(stream) && StreamWriter.Coded(ByteBits(stream), Joined(chunks), true)
  {
    var coding := BlockWriter.InitCoding();
    var d := new D.DeflateState(hb, wsize, config.(coding := coding));
    FeedAll(d, chunks, full);
    stream := Conclude(d);
  }

  /**
   What deflate makes of any input, supplied in any chunks, inflate gives back, however the
   stream and the room are cut: never anything but the start of the input, and all of it
   when the end of the stream is reached, with no byte of the stream left.  It is reached
   once all of the stream has been taken and the last call had room left.
   */
  method ThereAndBack(chunks: seq<seq<nat>>, hb: nat, wsize: nat, config: D.Config, full: nat -> bool, pieces: seq<I.Piece>)
    returns (stream: seq<nat>, out: seq<nat>, used: nat, ret: I.Ret, roomLeft: bool)
    requires AllBytes(chunks) && hb >= 8 && 512 <= wsize <= 32768 && config.max_chain >= 4
    ensures used <= |stream| && out <= Joined(chunks) && ret != I.DataError
    ensures ret == I.StreamEnd ==> out == Joined(chunks) && used == |stream|
    ensures used == |stream| && roomLeft ==> ret == I.StreamEnd
  {
    stream := Compress(chunks, hb, wsize, config, full);
    out, used, ret, roomLeft := I.InflatePieces(stream, pieces);
    EndedStream(stream, Joined(chunks), []);
    assert stream + [] == stream;
  }
}
