/**
 `CdCompressor::read_data` of cd_shim.cpp: the compressor asks for any stretch of the disc,
 and the tracks are laid out from their files: own data, padding, data split off into the
 next track's file, byte order, and padding to whole groups of frames.
 */
module CdImage {
  import opened Wrappers

  const FRAME_SIZE := 2448
  const SWAPPED := 2352
  const TRACK_PADDING := 4

  /** A track of the table of contents. */
  datatype Track = Track(frames: nat, extraframes: nat, padframes: nat, splitframes: nat, datasize: nat, subsize: nat)
  {
    function BytesPerFrame(): nat { datasize + subsize }
    function Total(): nat { frames + extraframes }
  }

  /** Where its data is. */
  datatype Source = Source(fname: string, offset: nat, swap: bool)

  const UINT64_MAX := 0xffff_ffff_ffff_ffff

  /** Fields are 32 bits wide. */
  ghost predicate ValidTrack(t: Track)
  {
    t.padframes + t.splitframes <= t.frames && t.BytesPerFrame() <= FRAME_SIZE && t.Total() < 0x1_0000_0000
  }

  /** What the compressor is given: a source for each track, and one more after a split track. */
  ghost predicate ValidToc(tracks: seq<Track>, sources: seq<Source>)
  {
    && |tracks| <= |sources| && (forall k :: 0 <= k < |sources| ==> sources[k].offset < 0x1_0000_0000)
    && (forall k :: 0 <= k < |tracks| ==> ValidTrack(tracks[k]) && (tracks[k].splitframes > 0 ==> k + 1 < |sources|))
  }

  // ----- the disc -----

  /** A byte of a file; nothing is read after its end. */
  function FileByte(content: seq<nat>, p: nat): nat { if p < |content| then content[p] else 0 }

  function Contents(fs: map<string, seq<nat>>, name: string): seq<nat> { if name in fs then fs[name] else [] }

  function Position(f: nat, b: nat): nat { f * b }

  function NextName(sources: seq<Source>, k: nat): string { if k + 1 < |sources| then sources[k + 1].fname else "" }

  /** Byte i of frame f of track k before its bytes are swapped. */
  function RawByte(fs: map<string, seq<nat>>, tracks: seq<Track>, sources: seq<Source>, k: nat, f: nat, i: nat): nat
    requires ValidToc(tracks, sources) && k < |tracks|
  {
    var t, s := tracks[k], sources[k];
    if i >= t.BytesPerFrame() then 0
    else if f < t.frames - t.splitframes - t.padframes then FileByte(Contents(fs, s.fname), s.offset + Position(f, t.BytesPerFrame()) + i)
    else if f < t.frames - t.splitframes then 0
    else FileByte(Contents(fs, NextName(sources, k)), Position(f - (t.frames - t.splitframes), t.BytesPerFrame()) + i)
  }

  /** The other byte of a pair. */
  function Partner(i: nat): nat { if i % 2 == 0 then i + 1 else i - 1 }

  /** Byte i of frame f of track k. */
  function TrackByte(fs: map<string, seq<nat>>, tracks: seq<Track>, sources: seq<Source>, k: nat, f: nat, i: nat): nat
    requires ValidToc(tracks, sources) && k < |tracks|
  {
    if f >= tracks[k].frames then 0
    else RawByte(fs, tracks, sources, k, f, if sources[k].swap && i < SWAPPED then Partner(i) else i)
  }

  /** First frame of track k, counting the frames of the tracks before it. */
  function Start(tracks: seq<Track>, k: nat): nat
    requires k <= |tracks|
  {
    if k == 0 then 0 else Start(tracks, k - 1) + tracks[k - 1].Total()
  }

  function TotalFrames(tracks: seq<Track>): nat { Start(tracks, |tracks|) }

  /** The track that frame n of the disc is in, looking from track k on. */
  function TrackOf(tracks: seq<Track>, k: nat, n: nat): (r: nat)
    requires k < |tracks| && Start(tracks, k) <= n < TotalFrames(tracks)
    ensures k <= r < |tracks| && Start(tracks, r) <= n < Start(tracks, r + 1)
    decreases |tracks| - k
  {
    if n < Start(tracks, k + 1) then k else TrackOf(tracks, k + 1, n)
  }

  /** Byte b of the disc. */
  function DiscByte(fs: map<string, seq<nat>>, tracks: seq<Track>, sources: seq<Source>, b: nat): nat
    requires ValidToc(tracks, sources)
  {
    var n := b / FRAME_SIZE;
    if n >= TotalFrames(tracks) then 0
    else var k := TrackOf(tracks, 0, n); TrackByte(fs, tracks, sources, k, n - Start(tracks, k), b % FRAME_SIZE)
  }

  lemma {:induction false} StartMono(tracks: seq<Track>, j: nat, k: nat)
    requires j <= k <= |tracks|
    ensures Start(tracks, j) <= Start(tracks, k)
  {
    if j < k {
      StartMono(tracks, j, k - 1);
    }
  }

  /** A frame is in one track only. */
  lemma {:induction false} OneTrack(tracks: seq<Track>, j: nat, k: nat, n: nat)
    requires j < |tracks| && k < |tracks| && Start(tracks, j) <= n < Start(tracks, j + 1) && Start(tracks, k) <= n < Start(tracks, k + 1)
    ensures j == k
  {
    if j < k {
      StartMono(tracks, j + 1, k);
    } else if k < j {
      StartMono(tracks, k + 1, j);
    }
  }

  lemma {:induction false} DiscByteIs(fs: map<string, seq<nat>>, tracks: seq<Track>, sources: seq<Source>, k: nat, f: nat, i: nat)
    requires ValidToc(tracks, sources) && k < |tracks| && f < tracks[k].Total() && i < FRAME_SIZE
    ensures DiscByte(fs, tracks, sources, FRAME_SIZE * (Start(tracks, k) + f) + i) == TrackByte(fs, tracks, sources, k, f, i)
  {
    var n := Start(tracks, k) + f;
    var b := FRAME_SIZE * n + i;
    assert b / FRAME_SIZE == n && b % FRAME_SIZE == i;
    StartMono(tracks, k + 1, |tracks|);
    OneTrack(tracks, k, TrackOf(tracks, 0, n), n);
  }

  // ----- comparing positions is comparing frames -----

  lemma {:induction false} Compare(f: nat, g: nat, b: nat)
    requires b > 0
    ensures f * b < g * b <==> f < g
  {
    if f < g {
      assert (f + 1) * b <= g * b;
    } else {
      assert g * b <= f * b;
    }
  }

  lemma {:induction false} Less(f: nat, g: nat, b: nat)
    requires g <= f
    ensures (f - g) * b == f * b - g * b
  {
  }

  /** Where a frame is, as read_data finds out by comparing positions in the file. */
  datatype Region = Region(inside: bool, split: bool, pad: bool, seek: nat)

  function RegionOf(t: Track, offset: nat, f: nat): Region
  {
    var b := t.BytesPerFrame();
    var src_track_end := offset + b * t.frames;
    var split_start := src_track_end - t.splitframes * b;
    var pad_track_start := split_start - t.padframes * b;
    var split_track_start := if t.splitframes == 0 then UINT64_MAX else split_start;
    var src_frame_start := offset + f * b;
    Region(src_frame_start < src_track_end,
           src_frame_start >= split_track_start && src_frame_start < src_track_end,
           src_frame_start >= pad_track_start && src_frame_start < split_track_start,
           if src_frame_start >= split_track_start then src_frame_start - split_track_start else src_frame_start)
  }

  lemma {:induction false} PositionFits(f: nat, b: nat, offset: nat)
    requires f < 0x1_0000_0000 && b <= FRAME_SIZE && offset < 0x1_0000_0000
    ensures offset + f * b < UINT64_MAX
  {
    assert f * b <= f * FRAME_SIZE;
  }

  /** Positions tell the same as frame numbers. */
  lemma {:induction false} RegionIs(t: Track, offset: nat, f: nat)
    requires ValidTrack(t) && offset < 0x1_0000_0000 && f < t.Total()
    ensures var r, b, last := RegionOf(t, offset, f), t.BytesPerFrame(), t.frames - t.splitframes;
            && (r.inside <==> b > 0 && f < t.frames)
            && (r.inside ==> (r.split <==> f >= last))
            && (r.inside && !r.split ==> (r.pad <==> f >= last - t.padframes) && r.seek == offset + Position(f, b))
            && (r.inside && r.split ==> !r.pad && r.seek == Position(f - last, b))
  {
    var b, last := t.BytesPerFrame(), t.frames - t.splitframes;
    PositionFits(f, b, offset);
    Less(t.frames, t.splitframes, b);
    Less(last, t.padframes, b);
    if b > 0 {
      Compare(f, t.frames, b);
      Compare(f, last, b);
      Compare(f, last - t.padframes, b);
      if f >= last {
        Less(f, last, b);
      }
    }
  }

  // ----- writing a frame into the buffer -----

  /** util::read: the bytes of the file from pos on, as far as it goes, over zeros. */
  method ReadInto(dest: array<nat>, at: nat, content: seq<nat>, pos: nat, n: nat)
    requires at + n <= dest.Length && forall i :: at <= i < at + n ==> dest[i] == 0
    modifies dest
    ensures forall x :: at <= x < at + n ==> dest[x] == FileByte(content, pos + (x - at))
    ensures forall i :: 0 <= i < dest.Length && !(at <= i < at + n) ==> dest[i] == old(dest[i])
  {
    var count: nat := if pos >= |content| then 0 else if pos + n <= |content| then n else |content| - pos;
    forall x | at <= x < at + count {
      dest[x] := content[pos + (x - at)];
    }
  }

  /** The swap loop over the first 2352 bytes. */
  method SwapBytes(dest: array<nat>, at: nat)
    requires at + FRAME_SIZE <= dest.Length
    modifies dest
    ensures forall x :: at <= x < at + SWAPPED ==> dest[x] == old(dest[at + Partner(x - at)])
    ensures forall i :: 0 <= i < dest.Length && !(at <= i < at + SWAPPED) ==> dest[i] == old(dest[i])
  {
    var swapindex: nat := 0;
    while swapindex < SWAPPED
      invariant swapindex <= SWAPPED && swapindex % 2 == 0
      invariant forall x :: at <= x < at + swapindex ==> dest[x] == old(dest[at + Partner(x - at)])
      invariant forall i :: 0 <= i < dest.Length && !(at <= i < at + swapindex) ==> dest[i] == old(dest[i])
    {
      dest[at + swapindex], dest[at + swapindex + 1] := dest[at + swapindex + 1], dest[at + swapindex];
      swapindex := swapindex + 2;
    }
  }

  class CdCompressor {
    const tracks: seq<Track>
    const sources: seq<Source>
    const fs: map<string, seq<nat>>
    var file: Option<seq<nat>>
    var lastfile: string

    /** An open file is the last one opened. */
    ghost predicate Valid()
      reads this
    {
      ValidToc(tracks, sources) && (file.Some? ==> lastfile in fs && file.value == fs[lastfile])
    }

    constructor (tracks: seq<Track>, sources: seq<Source>, fs: map<string, seq<nat>>)
      requires ValidToc(tracks, sources)
      ensures Valid() && this.tracks == tracks && this.sources == sources && this.fs == fs
    {
      this.tracks, this.sources, this.fs := tracks, sources, fs;
      file, lastfile := None, "";
    }

    /** Closes the file and opens another. */
    method Open(name: string) returns (ok: bool)
      requires Valid()
      modifies this
      ensures Valid() && lastfile == name && ok == (name in fs) && (ok ==> file == Some(fs[name]))
    {
      lastfile := name;
      ok := name in fs;
      file := if ok then Some(fs[name]) else None;
    }

    /** The open file is the right one for frame f of track k and those after it. */
    ghost predicate Ready(k: nat, f: nat)
      reads this
    {
      && Valid() && k < |tracks| && file.Some?
      && (lastfile == sources[k].fname || (f >= tracks[k].frames - tracks[k].splitframes && lastfile == NextName(sources, k)))
    }

    /** The bytes of a frame before swapping. */
    method PutRaw(dest: array<nat>, at: nat, k: nat, f: nat) returns (ok: bool)
      requires Ready(k, f) && f < tracks[k].frames && tracks[k].BytesPerFrame() > 0
      requires at + FRAME_SIZE <= dest.Length && forall i :: at <= i < at + FRAME_SIZE ==> dest[i] == 0
      modifies this, dest
      ensures Valid() && (!ok ==> NextName(sources, k) !in fs && tracks[k].splitframes > 0)
      ensures ok ==> Ready(k, f + 1) && forall x :: at <= x < at + FRAME_SIZE ==> dest[x] == RawByte(fs, tracks, sources, k, f, x - at)
      ensures !ok ==> forall i :: 0 <= i < dest.Length ==> dest[i] == old(dest[i])
      ensures forall i :: 0 <= i < dest.Length && !(at <= i < at + FRAME_SIZE) ==> dest[i] == old(dest[i])
    {
      var t := tracks[k];
      var region := RegionOf(t, sources[k].offset, f);
      RegionIs(t, sources[k].offset, f);
      if region.split && lastfile != sources[k + 1].fname {
        ok := Open(sources[k + 1].fname);
        if !ok {
          return;
        }
      }
      ok := true;
      if !region.pad {
        ReadInto(dest, at, file.value, region.seek, t.BytesPerFrame());
      }
    }

    /** One frame of a track. */
    method PutFrame(dest: array<nat>, at: nat, k: nat, f: nat) returns (ok: bool)
      requires Ready(k, f) && f < tracks[k].Total()
      requires at + FRAME_SIZE <= dest.Length && forall i :: at <= i < at + FRAME_SIZE ==> dest[i] == 0
      modifies this, dest
      ensures Valid() && (!ok ==> NextName(sources, k) !in fs && tracks[k].splitframes > 0)
      ensures ok ==> Ready(k, f + 1) && forall x :: at <= x < at + FRAME_SIZE ==> dest[x] == TrackByte(fs, tracks, sources, k, f, x - at)
      ensures !ok ==> forall i :: 0 <= i < dest.Length ==> dest[i] == old(dest[i])
      ensures forall i :: 0 <= i < dest.Length && !(at <= i < at + FRAME_SIZE) ==> dest[i] == old(dest[i])
    {
      var region := RegionOf(tracks[k], sources[k].offset, f);
      RegionIs(tracks[k], sources[k].offset, f);
      ok := true;
      if region.inside {
        ok := PutRaw(dest, at, k, f);
        if ok && sources[k].swap {
          SwapBytes(dest, at);
        }
      }
    }

    /** Every file that a track needs is there. */
    ghost predicate AllFiles()
    {
      forall k :: 0 <= k < |tracks| <= |sources| ==> sources[k].fname in fs && (tracks[k].splitframes > 0 ==> NextName(sources, k) in fs)
    }

    /** The buffer holds what the disc has from offset0 on, up to `at`, and zeros after that. */
    ghost predicate Filled(dest: array<nat>, offset0: nat, at: nat, length: nat)
      reads this, dest
      requires ValidToc(tracks, sources)
    {
      && at <= length <= dest.Length
      && (forall x :: 0 <= x < at ==> dest[x] == DiscByte(fs, tracks, sources, offset0 + x))
      && (forall x :: at <= x < length ==> dest[x] == 0)
    }

    /** One frame, as a part of the disc. */
    method PutDiscFrame(dest: array<nat>, offset0: nat, at: nat, length: nat, k: nat, f: nat) returns (ok: bool)
      requires Ready(k, f) && f < tracks[k].Total() && Filled(dest, offset0, at, length) && at + FRAME_SIZE <= length
      requires offset0 + at == FRAME_SIZE * (Start(tracks, k) + f)
      modifies this, dest
      ensures Valid() && Filled(dest, offset0, if ok then at + FRAME_SIZE else at, length) && (ok ==> Ready(k, f + 1))
      ensures !ok ==> NextName(sources, k) !in fs && tracks[k].splitframes > 0
      ensures forall x :: length <= x < dest.Length ==> dest[x] == old(dest[x])
    {
      ok := PutFrame(dest, at, k, f);
      if ok {
        forall x | at <= x < at + FRAME_SIZE ensures dest[x] == DiscByte(fs, tracks, sources, offset0 + x) {
          DiscByteIs(fs, tracks, sources, k, f, x - at);
        }
      }
    }

    /** The frames of one track, from `offset` on. */
    method ReadTrack(dest: array<nat>, offset0: nat, at0: nat, length: nat, k: nat, startoffs: nat, endoffs: nat) returns (at: nat, ok: bool)
      requires Valid() && k < |tracks| && Filled(dest, offset0, at0, length) && offset0 % FRAME_SIZE == 0 && at0 % FRAME_SIZE == 0 && length % FRAME_SIZE == 0
      requires startoffs == FRAME_SIZE * Start(tracks, k) && endoffs == FRAME_SIZE * Start(tracks, k + 1) && startoffs <= offset0 + at0 < endoffs
      modifies this, dest
      ensures Valid() && Filled(dest, offset0, at, length) && at0 <= at && at % FRAME_SIZE == 0 && offset0 + at <= endoffs
      ensures ok ==> at == length || offset0 + at == endoffs
      ensures !ok ==> !AllFiles()
      ensures forall x :: length <= x < dest.Length ==> dest[x] == old(dest[x])
    {
      at, ok := at0, true;
      if file.None? || lastfile != sources[k].fname {
        ok := Open(sources[k].fname);
        if !ok {
          return;
        }
      }
      var f: nat := (offset0 + at - startoffs) / FRAME_SIZE;
      while at < length && offset0 + at < endoffs
        invariant Ready(k, f) && Filled(dest, offset0, at, length) && at0 <= at && at % FRAME_SIZE == 0
        invariant offset0 + at == FRAME_SIZE * (Start(tracks, k) + f) && offset0 + at <= endoffs
        invariant forall x :: length <= x < dest.Length ==> dest[x] == old(dest[x])
        decreases length - at
      {
        ok := PutDiscFrame(dest, offset0, at, length, k, f);
        if !ok {
          return;
        }
        at, f := at + FRAME_SIZE, f + 1;
      }
    }

    /**
     read_data: whatever file was left open and wherever the stretch lies, the bytes are
     those of the disc, and unless a file is missing all that is on the disc is delivered.
     */
    method ReadData(dest: array<nat>, offset: nat, length: nat) returns (r: nat)
      requires Valid() && length <= dest.Length
      modifies this, dest
      ensures Valid() && r <= length
      ensures offset % FRAME_SIZE != 0 || length % FRAME_SIZE != 0 ==> r == 0 && forall x :: 0 <= x < dest.Length ==> dest[x] == old(dest[x])
      ensures offset % FRAME_SIZE == 0 && length % FRAME_SIZE == 0 ==> Filled(dest, offset, r, length)
      ensures AllFiles() && offset % FRAME_SIZE == 0 && length % FRAME_SIZE == 0 ==>
                r == Available(FRAME_SIZE * TotalFrames(tracks), offset, length)
      ensures forall x :: length <= x < dest.Length ==> dest[x] == old(dest[x])
    {
      r := 0;
      if offset % FRAME_SIZE != 0 || length % FRAME_SIZE != 0 {
        return;
      }
      forall x | 0 <= x < length {
        dest[x] := 0;
      }
      r := ReadTracks(dest, offset, length);
    }

    /** All tracks before k have been passed. */
    ghost predicate Passed(offset: nat, r: nat, length: nat, k: nat)
    {
      && k <= |tracks| && r % FRAME_SIZE == 0 && (r == length || offset + r >= FRAME_SIZE * Start(tracks, k))
      && (r > 0 ==> offset + r <= FRAME_SIZE * TotalFrames(tracks))
    }

    /** One track, if the stretch has come to it. */
    method PassTrack(dest: array<nat>, offset: nat, r0: nat, length: nat, k: nat, startoffs: nat) returns (r: nat, endoffs: nat, ok: bool)
      requires Valid() && k < |tracks| && Filled(dest, offset, r0, length) && Passed(offset, r0, length, k)
      requires offset % FRAME_SIZE == 0 && length % FRAME_SIZE == 0 && startoffs == FRAME_SIZE * Start(tracks, k)
      modifies this, dest
      ensures Valid() && Filled(dest, offset, r, length) && endoffs == FRAME_SIZE * Start(tracks, k + 1)
      ensures if ok then Passed(offset, r, length, k + 1) else !AllFiles()
      ensures forall x :: length <= x < dest.Length ==> dest[x] == old(dest[x])
    {
      r, ok := r0, true;
      endoffs := startoffs + tracks[k].Total() * FRAME_SIZE;
      StartMono(tracks, k + 1, |tracks|);
      if startoffs <= offset + r < endoffs {
        r, ok := ReadTrack(dest, offset, r, length, k, startoffs, endoffs);
      }
    }

    method ReadTracks(dest: array<nat>, offset: nat, length: nat) returns (r: nat)
      requires Valid() && Filled(dest, offset, 0, length) && offset % FRAME_SIZE == 0 && length % FRAME_SIZE == 0
      modifies this, dest
      ensures Valid() && Filled(dest, offset, r, length)
      ensures AllFiles() ==> r == Available(FRAME_SIZE * TotalFrames(tracks), offset, length)
      ensures forall x :: length <= x < dest.Length ==> dest[x] == old(dest[x])
    {
      r := 0;
      var startoffs: nat := 0;
      var k: nat := 0;
      while k < |tracks|
        invariant Valid() && Filled(dest, offset, r, length) && Passed(offset, r, length, k) && startoffs == FRAME_SIZE * Start(tracks, k)
        invariant forall x :: length <= x < dest.Length ==> dest[x] == old(dest[x])
      {
        var ok;
        r, startoffs, ok := PassTrack(dest, offset, r, length, k, startoffs);
        if !ok {
          return;
        }
        k := k + 1;
      }
    }
  }

  /** How much of a stretch lies on a disc of so many bytes. */
  function Available(total: nat, offset: nat, length: nat): nat
  {
    if offset >= total then 0 else if offset + length <= total then length else total - offset
  }

  // ----- padding and size -----

  /** The fewest extra frames that make a whole number of groups. */
  ghost predicate Padded(t: Track, t': Track)
  {
    t' == t.(extraframes := t'.extraframes) && t'.Total() % TRACK_PADDING == 0 && t'.extraframes < TRACK_PADDING
  }

  /** chd_shim_toc_pad_tracks */
  method PadTracks(tracks: seq<Track>) returns (tracks': seq<Track>)
    ensures |tracks'| == |tracks| && forall k :: 0 <= k < |tracks| ==> Padded(tracks[k], tracks'[k])
  {
    tracks' := [];
    var k: nat := 0;
    while k < |tracks|
      invariant k <= |tracks| && |tracks'| == k && forall j :: 0 <= j < k ==> Padded(tracks[j], tracks'[j])
    {
      var t := tracks[k];
      var padded := (t.frames + TRACK_PADDING - 1) / TRACK_PADDING;
      tracks' := tracks' + [t.(extraframes := padded * TRACK_PADDING - t.frames)];
      k := k + 1;
    }
  }

  /** Every track then starts a group. */
  lemma {:induction false} PaddedStarts(tracks: seq<Track>, tracks': seq<Track>, k: nat)
    requires |tracks'| == |tracks| && (forall j :: 0 <= j < |tracks| ==> Padded(tracks[j], tracks'[j])) && k <= |tracks|
    ensures Start(tracks', k) % TRACK_PADDING == 0
  {
    if k > 0 {
      PaddedStarts(tracks, tracks', k - 1);
      assert Padded(tracks[k - 1], tracks'[k - 1]);
    }
  }

  /** chd_shim_toc_logical_bytes: exactly what read_data can deliver. */
  method LogicalBytes(tracks: seq<Track>) returns (total: nat)
    ensures total == FRAME_SIZE * TotalFrames(tracks)
  {
    total := 0;
    var i: nat := 0;
    while i < |tracks|
      invariant i <= |tracks| && total == FRAME_SIZE * Start(tracks, i)
    {
      total := total + tracks[i].Total() * FRAME_SIZE;
      i := i + 1;
    }
  }
}
