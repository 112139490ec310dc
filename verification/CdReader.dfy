/**
 The reading side of cd.rs: `DiscLayout`, the frame loop of `extract_to_cue`, and
 `CdAudioReader`, which reads the same bytes without extracting them.
 */
module CdReader {
  import opened Wrappers

  const RAW_SECTOR_SIZE := 2352
  const U32 := 0x1_0000_0000
  const U64 := 0x1_0000_0000_0000_0000
  const AUDIO := 7

  datatype Error = InvalidData | UnsupportedFormat | InvalidInput

  datatype Track = Track(trktype: nat, datasize: nat, frames: nat, padframes: nat, splitframes: nat)

  /** A physical frame, read as a track type: a sector buffer. */
  type Disc = (nat, nat) -> seq<nat>

  // ----- DiscLayout -----

  function SaturatingSub(a: nat, b: nat): nat { if a >= b then a - b else 0 }

  function SaturatingAdd(a: nat, b: nat): nat { if a + b < U32 then a + b else U32 - 1 }

  function WrappingSub(a: nat, b: nat): int { if a >= b then a - b else a - b + U32 }

  function WrappingAdd(a: int, b: int): int { if a + b < U32 then a + b else a + b - U32 }

  datatype Layout = Layout(tracks: seq<Track>, phys: seq<nat>)
  {
    ghost predicate Valid()
    {
      && |tracks| == |phys| >= 1
      && (forall t :: 0 <= t < |tracks| ==> tracks[t].datasize <= RAW_SECTOR_SIZE && tracks[t].frames < U32 && tracks[t].splitframes < U32 && phys[t] < U32)
    }

    /** Frames a track emits on extraction. */
    function EmittedFrames(t: nat): (n: nat)
      requires t < |tracks|
    {
      SaturatingAdd(SaturatingSub(tracks[t].frames, tracks[t].padframes), tracks[t].splitframes)
    }

    /** The track that holds a frame, and its physical place. */
    function Locate(t: nat, frame: nat): (r: (nat, int))
      requires t < |tracks| == |phys|
      ensures r.0 < |tracks|
    {
      var split := tracks[t].splitframes;
      if t > 0 && frame < split then (t - 1, WrappingAdd(phys[t - 1], WrappingAdd(WrappingSub(tracks[t - 1].frames, split), frame)))
      else (t, WrappingAdd(phys[t], WrappingSub(frame, split)))
    }

    predicate IsRaw(t: nat)
      requires t < |tracks|
    {
      tracks[t].datasize == RAW_SECTOR_SIZE && (t == 0 || tracks[t].splitframes == 0 || tracks[t - 1].datasize == RAW_SECTOR_SIZE)
    }
  }

  /** Without split frames a track's frames follow each other from its physical start. */
  lemma {:induction false} Straight(l: Layout, t: nat, frame: nat)
    requires l.Valid() && t < |l.tracks| && l.tracks[t].splitframes == 0 && l.tracks[t].padframes <= l.tracks[t].frames
    requires frame < l.EmittedFrames(t) && l.phys[t] + l.tracks[t].frames <= U32
    ensures l.Locate(t, frame) == (t, l.phys[t] + frame) && l.EmittedFrames(t) == l.tracks[t].frames - l.tracks[t].padframes
  {
  }

  /** The two bytes of every pair exchanged. */
  function SwapPairs(s: seq<nat>): (r: seq<nat>)
    ensures |r| == |s|
  {
    seq(|s|, i requires 0 <= i < |s| => if i % 2 == 1 then s[i - 1] else if i + 1 < |s| then s[i + 1] else s[i])
  }

  function Clamp(x: int): nat { if x < 0 then 0 else x }

  /** What a track emits as its frame: the data of the sector, audio in little-endian order. */
  function Sector(l: Layout, disc: Disc, t: nat, frame: nat): seq<nat>
    requires l.Valid() && t < |l.tracks|
  {
    var (src, lba) := l.Locate(t, frame);
    var n := l.tracks[src].datasize;
    var buf := disc(Clamp(lba), l.tracks[src].trktype);
    var data := if n <= |buf| then buf[..n] else buf + seq(n - |buf|, _ => 0);
    if l.tracks[src].trktype == AUDIO then SwapPairs(data) else data
  }

  lemma {:induction false} SectorSize(l: Layout, disc: Disc, t: nat, frame: nat)
    requires l.Valid() && t < |l.tracks|
    ensures |Sector(l, disc, t, frame)| <= RAW_SECTOR_SIZE
    ensures l.IsRaw(t) ==> |Sector(l, disc, t, frame)| == RAW_SECTOR_SIZE
  {
  }

  // ----- read_frame and the frame loop of extract_to_cue -----

  method SwapLoop(data: seq<nat>) returns (r: seq<nat>)
    ensures r == SwapPairs(data)
  {
    r := data;
    var i: nat := 0;
    while i + 1 < |data|
      invariant i % 2 == 0 && i <= |data| == |r|
      invariant forall j :: 0 <= j < i ==> r[j] == SwapPairs(data)[j]
      invariant forall j :: i <= j < |data| ==> r[j] == data[j]
    {
      r := r[i := r[i + 1]][i + 1 := r[i]];
      i := i + 2;
    }
  }

  /** read_frame; ok says whether the device could read the frame. */
  method ReadFrame(l: Layout, disc: Disc, t: nat, frame: nat, ok: bool) returns (r: Result<seq<nat>, Error>)
    requires l.Valid() && t < |l.tracks|
    ensures r == if ok then Ok(Sector(l, disc, t, frame)) else Err(InvalidData)
  {
    if !ok {
      return Err(InvalidData);
    }
    var (src, lba) := l.Locate(t, frame);
    var n := l.tracks[src].datasize;
    var buf := disc(Clamp(lba), l.tracks[src].trktype);
    var data := if n <= |buf| then buf[..n] else buf + seq(n - |buf|, _ => 0);
    if l.tracks[src].trktype == AUDIO {
      data := SwapLoop(data);
    }
    r := Ok(data);
  }

  /** The first n frames of a track, and the first k tracks. */
  ghost function TrackBin(l: Layout, disc: Disc, t: nat, n: nat): seq<nat>
    requires l.Valid() && t < |l.tracks|
  {
    if n == 0 then [] else TrackBin(l, disc, t, n - 1) + Sector(l, disc, t, n - 1)
  }

  ghost function Bin(l: Layout, disc: Disc, k: nat): seq<nat>
    requires l.Valid() && k <= |l.tracks|
  {
    if k == 0 then [] else Bin(l, disc, k - 1) + TrackBin(l, disc, k - 1, l.EmittedFrames(k - 1))
  }

  method ExtractTrack(l: Layout, disc: Disc, bin0: seq<nat>, t: nat, ok: nat -> bool) returns (r: Result<seq<nat>, Error>)
    requires l.Valid() && t < |l.tracks|
    ensures r == Ok(bin0 + TrackBin(l, disc, t, l.EmittedFrames(t))) || (r == Err(InvalidData) && exists f: nat :: f < l.EmittedFrames(t) && !ok(f))
  {
    var bin := bin0;
    var frame: nat := 0;
    assert bin0 + [] == bin0;
    while frame < l.EmittedFrames(t)
      invariant frame <= l.EmittedFrames(t) && bin == bin0 + TrackBin(l, disc, t, frame)
    {
      r := ExtractFrame(l, disc, bin, bin0, t, frame, ok(frame));
      if r.Err? {
        return;
      }
      bin := r.value;
      frame := frame + 1;
    }
    r := Ok(bin);
  }

  method ExtractFrame(l: Layout, disc: Disc, bin: seq<nat>, ghost bin0: seq<nat>, t: nat, frame: nat, ok: bool) returns (r: Result<seq<nat>, Error>)
    requires l.Valid() && t < |l.tracks| && bin == bin0 + TrackBin(l, disc, t, frame)
    ensures r == if ok then Ok(bin0 + TrackBin(l, disc, t, frame + 1)) else Err(InvalidData)
  {
    var sector := ReadFrame(l, disc, t, frame, ok);
    if sector.Err? {
      return Err(InvalidData);
    }
    Joined(bin0, TrackBin(l, disc, t, frame), sector.value);
    r := Ok(bin + sector.value);
  }

  lemma {:induction false} Joined(a: seq<nat>, b: seq<nat>, c: seq<nat>)
    ensures (a + b) + c == a + (b + c)
  {
  }

  /** The frame loop: the whole BIN, unless a frame cannot be read. */
  method ExtractBin(l: Layout, disc: Disc, ok: nat -> nat -> bool) returns (r: Result<seq<nat>, Error>)
    requires l.Valid()
    ensures r == Ok(Bin(l, disc, |l.tracks|)) || (r == Err(InvalidData) && exists t: nat, f: nat :: t < |l.tracks| && f < l.EmittedFrames(t) && !ok(t)(f))
  {
    var bin: seq<nat> := [];
    var t: nat := 0;
    while t < |l.tracks|
      invariant t <= |l.tracks| && bin == Bin(l, disc, t)
    {
      var next := ExtractTrack(l, disc, bin, t, ok(t));
      if next.Err? {
        return Err(InvalidData);
      }
      bin := next.value;
      t := t + 1;
    }
    r := Ok(bin);
  }

  // ----- views -----

  /** A track and the sector of the view it starts at. */
  datatype Span = Span(track: nat, first: nat)

  /** Raw tracks, one after another from sector 0. */
  ghost predicate ValidSpans(l: Layout, spans: seq<Span>, count: nat)
  {
    && l.Valid() && |spans| >= 1 && spans[0].first == 0 && count < U32
    && (forall i :: 0 <= i < |spans| ==> spans[i].track < |l.tracks| && l.IsRaw(spans[i].track))
    && (forall i: nat :: i < |spans| ==> EndOf(l, spans, i) == if i + 1 < |spans| then spans[i + 1].first else count)
  }

  ghost function EndOf(l: Layout, spans: seq<Span>, i: nat): nat
    requires i < |spans|
  {
    if spans[i].track < |l.tracks| then spans[i].first + l.EmittedFrames(spans[i].track) else 0
  }

  /** The bytes of the first k spans. */
  ghost function ViewBin(l: Layout, disc: Disc, spans: seq<Span>, k: nat): seq<nat>
    requires l.Valid() && k <= |spans| && forall i :: 0 <= i < |spans| ==> spans[i].track < |l.tracks|
  {
    if k == 0 then [] else ViewBin(l, disc, spans, k - 1) + TrackBin(l, disc, spans[k - 1].track, l.EmittedFrames(spans[k - 1].track))
  }

  lemma {:induction false} TrackBinSize(l: Layout, disc: Disc, t: nat, n: nat)
    requires l.Valid() && t < |l.tracks| && l.IsRaw(t)
    ensures |TrackBin(l, disc, t, n)| == RAW_SECTOR_SIZE * n
  {
    if n > 0 {
      TrackBinSize(l, disc, t, n - 1);
      SectorSize(l, disc, t, n - 1);
    }
  }

  lemma {:induction false} TrackSector(l: Layout, disc: Disc, t: nat, n: nat, f: nat)
    requires l.Valid() && t < |l.tracks| && l.IsRaw(t) && f < n
    ensures |TrackBin(l, disc, t, n)| == RAW_SECTOR_SIZE * n
    ensures TrackBin(l, disc, t, n)[RAW_SECTOR_SIZE * f..RAW_SECTOR_SIZE * f + RAW_SECTOR_SIZE] == Sector(l, disc, t, f)
    decreases n
  {
    TrackBinSize(l, disc, t, n);
    TrackBinSize(l, disc, t, n - 1);
    SectorSize(l, disc, t, f);
    if f < n - 1 {
      TrackSector(l, disc, t, n - 1, f);
    }
  }

  ghost function StartOf(spans: seq<Span>, count: nat, k: nat): nat
    requires k <= |spans|
  {
    if k < |spans| then spans[k].first else count
  }

  lemma {:induction false} ViewSize(l: Layout, disc: Disc, spans: seq<Span>, count: nat, k: nat)
    requires ValidSpans(l, spans, count) && k <= |spans|
    ensures |ViewBin(l, disc, spans, k)| == RAW_SECTOR_SIZE * StartOf(spans, count, k)
  {
    if k > 0 {
      ViewSize(l, disc, spans, count, k - 1);
      TrackBinSize(l, disc, spans[k - 1].track, l.EmittedFrames(spans[k - 1].track));
      assert EndOf(l, spans, k - 1) == StartOf(spans, count, k);
    }
  }

  lemma {:induction false} SliceLeft(a: seq<nat>, b: seq<nat>, s: nat, e: nat)
    requires s <= e <= |a|
    ensures (a + b)[s..e] == a[s..e]
  {
  }

  lemma {:induction false} SliceRight(a: seq<nat>, b: seq<nat>, s: nat, e: nat)
    requires s <= e <= |b|
    ensures (a + b)[|a| + s..|a| + e] == b[s..e]
  {
  }

  /** Sector s of the view is the given sector. */
  ghost predicate HasSector(view: seq<nat>, s: nat, sector: seq<nat>)
  {
    RAW_SECTOR_SIZE * s + RAW_SECTOR_SIZE <= |view| && view[RAW_SECTOR_SIZE * s..RAW_SECTOR_SIZE * s + RAW_SECTOR_SIZE] == sector
  }

  lemma {:induction false} HasLeft(a: seq<nat>, b: seq<nat>, s: nat, sector: seq<nat>)
    requires HasSector(a, s, sector)
    ensures HasSector(a + b, s, sector)
  {
    SliceLeft(a, b, RAW_SECTOR_SIZE * s, RAW_SECTOR_SIZE * s + RAW_SECTOR_SIZE);
  }

  lemma {:induction false} HasRight(a: seq<nat>, b: seq<nat>, n: nat, s: nat, sector: seq<nat>)
    requires HasSector(b, s, sector) && |a| == RAW_SECTOR_SIZE * n
    ensures HasSector(a + b, n + s, sector)
  {
    SliceRight(a, b, RAW_SECTOR_SIZE * s, RAW_SECTOR_SIZE * s + RAW_SECTOR_SIZE);
    assert RAW_SECTOR_SIZE * (n + s) == |a| + RAW_SECTOR_SIZE * s;
  }

  /** Sectors of the last span. */
  lemma {:induction false} LastSpanSector(l: Layout, disc: Disc, spans: seq<Span>, count: nat, k: nat, f: nat)
    requires ValidSpans(l, spans, count) && k < |spans| && f < l.EmittedFrames(spans[k].track)
    ensures HasSector(ViewBin(l, disc, spans, k + 1), spans[k].first + f, Sector(l, disc, spans[k].track, f))
  {
    var t := spans[k].track;
    var n := l.EmittedFrames(t);
    ViewSize(l, disc, spans, count, k);
    TrackSector(l, disc, t, n, f);
    HasRight(ViewBin(l, disc, spans, k), TrackBin(l, disc, t, n), spans[k].first, f, Sector(l, disc, t, f));
  }

  /** A sector of a span is where the view says. */
  lemma {:induction false} ViewSector(l: Layout, disc: Disc, spans: seq<Span>, count: nat, k: nat, i: nat, f: nat)
    requires ValidSpans(l, spans, count) && i < k <= |spans| && f < l.EmittedFrames(spans[i].track)
    ensures HasSector(ViewBin(l, disc, spans, k), spans[i].first + f, Sector(l, disc, spans[i].track, f))
    decreases k
  {
    if i < k - 1 {
      var t := spans[k - 1].track;
      ViewSector(l, disc, spans, count, k - 1, i, f);
      HasLeft(ViewBin(l, disc, spans, k - 1), TrackBin(l, disc, t, l.EmittedFrames(t)), spans[i].first + f, Sector(l, disc, spans[i].track, f));
    } else {
      LastSpanSector(l, disc, spans, count, i, f);
    }
  }

  // ----- finding the span of a sector -----

  lemma {:induction false} FirstsSorted(l: Layout, spans: seq<Span>, count: nat, i: nat, j: nat)
    requires ValidSpans(l, spans, count) && i <= j < |spans|
    ensures spans[i].first <= spans[j].first <= count
    decreases j - i
  {
    if i < j {
      FirstsSorted(l, spans, count, i, j - 1);
      assert EndOf(l, spans, j - 1) == spans[j].first;
    }
    LastFits(l, spans, count, j);
  }

  lemma {:induction false} LastFits(l: Layout, spans: seq<Span>, count: nat, j: nat)
    requires ValidSpans(l, spans, count) && j < |spans|
    ensures spans[j].first <= count
    decreases |spans| - j
  {
    assert EndOf(l, spans, j) == if j + 1 < |spans| then spans[j + 1].first else count;
    if j + 1 < |spans| {
      LastFits(l, spans, count, j + 1);
    }
  }

  /** partition_point: how many spans start at or before the sector. */
  method PartitionPoint(spans: seq<Span>, sector: nat, ghost l: Layout, ghost count: nat) returns (n: nat)
    requires ValidSpans(l, spans, count)
    ensures n <= |spans| && (forall i :: 0 <= i < n ==> spans[i].first <= sector) && forall i :: n <= i < |spans| ==> spans[i].first > sector
  {
    var lo: nat, hi: nat := 0, |spans|;
    while lo < hi
      invariant lo <= hi <= |spans|
      invariant (forall i :: 0 <= i < lo ==> spans[i].first <= sector) && forall i :: hi <= i < |spans| ==> spans[i].first > sector
    {
      var mid := (lo + hi) / 2;
      forall i: nat | i < |spans| ensures (i <= mid ==> spans[i].first <= spans[mid].first) && (i >= mid ==> spans[i].first >= spans[mid].first) {
        if i <= mid {
          FirstsSorted(l, spans, count, i, mid);
        } else {
          FirstsSorted(l, spans, count, mid, i);
        }
      }
      if spans[mid].first <= sector {
        lo := mid + 1;
      } else {
        hi := mid;
      }
    }
    n := lo;
  }

  /** The span found holds the sector: zero-length tracks are passed over. */
  lemma {:induction false} FoundSpan(l: Layout, spans: seq<Span>, count: nat, sector: nat, i: nat)
    requires ValidSpans(l, spans, count) && sector < count && i < |spans| && spans[i].first <= sector
    requires i + 1 < |spans| ==> spans[i + 1].first > sector
    ensures sector - spans[i].first < l.EmittedFrames(spans[i].track)
  {
    assert EndOf(l, spans, i) == if i + 1 < |spans| then spans[i + 1].first else count;
  }

  /** The sector of the span found is raw, and where the view says. */
  lemma {:induction false} FoundSector(l: Layout, disc: Disc, spans: seq<Span>, count: nat, n: nat, sector: nat, i: nat)
    requires ValidSpans(l, spans, count) && sector < count && i < n == |spans| && spans[i].first <= sector
    requires i + 1 < |spans| ==> spans[i + 1].first > sector
    ensures var s := Sector(l, disc, spans[i].track, sector - spans[i].first);
            |s| == RAW_SECTOR_SIZE && HasSector(ViewBin(l, disc, spans, n), sector, s)
  {
    FoundSpan(l, spans, count, sector, i);
    SectorSize(l, disc, spans[i].track, sector - spans[i].first);
    ViewSector(l, disc, spans, count, n, i, sector - spans[i].first);
  }

  // ----- CdAudioReader -----

  datatype SeekFrom = Start(at: nat) | End(delta: int) | Current(delta: int)

  class CdAudioReader {
    const layout: Layout
    const disc: Disc
    const spans: seq<Span>
    const sector_count: nat
    var pos: nat
    var cache_sector: Option<nat>
    var cache: seq<nat>

    /** The bytes this reader stands for. */
    ghost function View(): (v: seq<nat>)
      requires ValidSpans(layout, spans, sector_count)
    {
      ViewBin(layout, disc, spans, |spans|)
    }

    ghost predicate Valid()
      reads this
    {
      && ValidSpans(layout, spans, sector_count)
      && (cache_sector.Some? ==> HasSector(View(), cache_sector.value, cache))
    }

    constructor (layout: Layout, disc: Disc, spans: seq<Span>, sector_count: nat)
      requires ValidSpans(layout, spans, sector_count)
      ensures Valid() && pos == 0 && this.layout == layout && this.disc == disc && this.spans == spans && this.sector_count == sector_count
      ensures View() == ViewBin(layout, disc, spans, |spans|)
    {
      this.layout, this.disc, this.spans, this.sector_count := layout, disc, spans, sector_count;
      pos, cache_sector, cache := 0, None, [];
    }

    /** read_one */
    method ReadOne(sector: nat, ok: bool) returns (r: Result<seq<nat>, Error>)
      requires Valid() && sector < sector_count
      ensures if ok then r.Ok? && |r.value| == RAW_SECTOR_SIZE && HasSector(View(), sector, r.value) else r == Err(InvalidData)
    {
      var n := PartitionPoint(spans, sector, layout, sector_count);
      var i := n - 1;
      FoundSector(layout, disc, spans, sector_count, |spans|, sector, i);
      var span := spans[i];
      r := ReadFrame(layout, disc, span.track, sector - span.first, ok);
    }

    /** load_sector: after a failed read nothing is cached. */
    method LoadSector(sector: nat, ok: bool) returns (r: bool)
      requires Valid() && sector < sector_count
      modifies this`cache, this`cache_sector
      ensures Valid() && (r ==> cache_sector == Some(sector)) && (!r ==> !ok && cache_sector == None)
    {
      if cache_sector == Some(sector) {
        return true;
      }
      cache_sector := None;
      var data := ReadOne(sector, ok);
      if data.Err? {
        return false;
      }
      cache := data.value;
      cache_sector := Some(sector);
      r := true;
    }

    function Len(): nat { sector_count * RAW_SECTOR_SIZE }

    /** read: at most up to the end of a sector, and always the bytes of the view. */
    method Read(want: nat, ok: bool) returns (r: Result<seq<nat>, Error>)
      requires Valid()
      modifies this
      ensures Valid() && |View()| == Len()
      ensures r.Err? ==> !ok && pos == old(pos)
      ensures r.Ok? ==> pos == old(pos) + |r.value| && |r.value| <= want && (r.value == [] <==> old(pos) >= Len() || want == 0)
      ensures r.Ok? && r.value != [] ==> old(pos) + |r.value| <= |View()| && r.value == View()[old(pos)..old(pos) + |r.value|]
    {
      ViewSize(layout, disc, spans, sector_count, |spans|);
      if pos >= Len() || want == 0 {
        return Ok([]);
      }
      var remaining := Len() - pos;
      var some := if want < remaining then want else remaining;
      var sector, off := pos / RAW_SECTOR_SIZE, pos % RAW_SECTOR_SIZE;
      var n := if some < RAW_SECTOR_SIZE - off then some else RAW_SECTOR_SIZE - off;
      var loaded := LoadSector(sector, ok);
      if !loaded {
        return Err(InvalidData);
      }
      assert RAW_SECTOR_SIZE * sector + off == pos;
      InSector(View(), sector, cache, off, n);
      r := Ok(cache[off..off + n]);
      pos := pos + n;
    }

    /** seek: the position wraps around only when a relative seek passes 2^64. */
    method Seek(to: SeekFrom) returns (r: Result<nat, Error>)
      requires Valid()
      modifies this`pos
      ensures Valid()
      ensures var p := (match to case Start(at) => at case End(delta) => Len() + delta case Current(delta) => old(pos) + delta);
              if p < 0 then r == Err(InvalidInput) && pos == old(pos) else r == Ok(pos) && pos == p % U64 && (p < U64 ==> pos == p)
    {
      var p: int := match to case Start(at) => at case End(delta) => Len() + delta case Current(delta) => pos + delta;
      if p < 0 {
        return Err(InvalidInput);
      }
      pos := p % U64;
      r := Ok(pos);
    }

    /** One byte past the last position a u64 can hold is the beginning again. */
    method SeekPastEnd() returns (r: Result<nat, Error>)
      requires Valid()
      modifies this`pos
      ensures Valid() && r == Ok(0) && pos == 0
    {
      r := Seek(Start(U64 - 1));
      r := Seek(Current(1));
    }

    /** read_sectors: whole sectors, whatever the position and the cache. */
    method ReadSectors(start: nat, count: nat, buf: array<nat>, ok: nat -> bool) returns (r: Result<(), Error>)
      requires Valid()
      modifies buf
      ensures start + count > sector_count || buf.Length != RAW_SECTOR_SIZE * count ==> r == Err(InvalidData) && buf[..] == old(buf[..])
      ensures r.Ok? ==> |View()| == Len() && HasRun(View(), RAW_SECTOR_SIZE * start, buf[..]) && buf.Length == RAW_SECTOR_SIZE * count
      ensures r.Err? ==> start + count > sector_count || buf.Length != RAW_SECTOR_SIZE * count || exists i: nat :: i < count && !ok(i)
    {
      if start + count > sector_count || buf.Length != RAW_SECTOR_SIZE * count {
        return Err(InvalidData);
      }
      ViewSize(layout, disc, spans, sector_count, |spans|);
      var i: nat := 0;
      while i < count
        invariant i <= count && RAW_SECTOR_SIZE * i <= buf.Length && HasRun(View(), RAW_SECTOR_SIZE * start, buf[..RAW_SECTOR_SIZE * i])
      {
        var data := ReadOne(start + i, ok(i));
        if data.Err? {
          return Err(InvalidData);
        }
        RunGrows(View(), start, i, buf[..RAW_SECTOR_SIZE * i], data.value);
        Store(buf, RAW_SECTOR_SIZE * i, data.value);
        i := i + 1;
      }
      assert buf[..RAW_SECTOR_SIZE * count] == buf[..];
      r := Ok(());
    }
  }

  /** One sector into its place in the buffer. */
  method Store(buf: array<nat>, at: nat, data: seq<nat>)
    requires at + |data| <= buf.Length
    modifies buf
    ensures buf[..at + |data|] == old(buf[..at]) + data && buf[at + |data|..] == old(buf[at + |data|..])
  {
    forall k | 0 <= k < |data| {
      buf[at + k] := data[k];
    }
  }

  ghost predicate HasRun(view: seq<nat>, at: nat, buf: seq<nat>) { at + |buf| <= |view| && view[at..at + |buf|] == buf }

  lemma {:induction false} RunGrows(view: seq<nat>, start: nat, i: nat, buf: seq<nat>, sector: seq<nat>)
    requires |buf| == RAW_SECTOR_SIZE * i && |sector| == RAW_SECTOR_SIZE
    requires HasRun(view, RAW_SECTOR_SIZE * start, buf) && HasSector(view, start + i, sector)
    ensures HasRun(view, RAW_SECTOR_SIZE * start, buf + sector)
  {
    var a := RAW_SECTOR_SIZE * start;
    var b := a + |buf|;
    assert RAW_SECTOR_SIZE * (start + i) == b;
    assert view[a..b + |sector|] == view[a..b] + view[b..b + |sector|];
  }

  /** Part of a sector. */
  lemma {:induction false} InSector(view: seq<nat>, s: nat, sector: seq<nat>, off: nat, n: nat)
    requires HasSector(view, s, sector) && off + n <= RAW_SECTOR_SIZE
    ensures |sector| == RAW_SECTOR_SIZE && RAW_SECTOR_SIZE * s + off + n <= |view|
    ensures sector[off..off + n] == view[RAW_SECTOR_SIZE * s + off..RAW_SECTOR_SIZE * s + off + n]
  {
    SliceOfSlice(view, RAW_SECTOR_SIZE * s, RAW_SECTOR_SIZE, off, n);
  }

  lemma {:induction false} SliceOfSlice(view: seq<nat>, a: nat, m: nat, off: nat, n: nat)
    requires a + m <= |view| && off + n <= m
    ensures view[a..a + m][off..off + n] == view[a + off..a + off + n]
  {
    var l, r := view[a..a + m][off..off + n], view[a + off..a + off + n];
    assert |l| == |r|;
    forall i | 0 <= i < |l| ensures l[i] == r[i] {
      assert l[i] == view[a..a + m][off + i] == view[a + off + i];
    }
  }

  // ----- opening -----

  /** Sectors of the first k tracks. */
  ghost function Emitted(l: Layout, k: nat): nat
    requires k <= |l.tracks|
  {
    if k == 0 then 0 else Emitted(l, k - 1) + l.EmittedFrames(k - 1)
  }

  lemma {:induction false} EmittedMono(l: Layout, j: nat, k: nat)
    requires j <= k <= |l.tracks|
    ensures Emitted(l, j) <= Emitted(l, k)
  {
    if j < k {
      EmittedMono(l, j, k - 1);
    }
  }

  /** One span for each of the first k tracks. */
  ghost predicate TrackSpans(l: Layout, spans: seq<Span>, k: nat)
  {
    && k <= |l.tracks| && |spans| == k
    && forall i: nat :: i < k ==> spans[i] == Span(i, Emitted(l, i)) && l.IsRaw(i)
  }

  lemma {:induction false} WholeView(l: Layout, disc: Disc, spans: seq<Span>, k: nat)
    requires l.Valid() && TrackSpans(l, spans, |l.tracks|) && k <= |l.tracks|
    ensures ViewBin(l, disc, spans, k) == Bin(l, disc, k)
  {
    if k > 0 {
      WholeView(l, disc, spans, k - 1);
      assert spans[k - 1].track == k - 1;
    }
  }

  ghost predicate AllRaw(l: Layout) { forall t :: 0 <= t < |l.tracks| ==> l.IsRaw(t) }

  /** open: the whole disc, as extract_to_cue would write it. */
  method OpenDisc(l: Layout, disc: Disc) returns (r: Result<CdAudioReader, Error>)
    requires l.Valid()
    ensures r.Ok? <==> AllRaw(l) && Emitted(l, |l.tracks|) < U32
    ensures r.Ok? ==> fresh(r.value) && r.value.Valid() && r.value.pos == 0 && r.value.View() == Bin(l, disc, |l.tracks|)
  {
    var spans: seq<Span> := [];
    var start: nat := 0;
    var t: nat := 0;
    while t < |l.tracks|
      invariant t <= |l.tracks| && TrackSpans(l, spans, t) && start == Emitted(l, t) < U32
    {
      EmittedMono(l, t + 1, |l.tracks|);
      if !l.IsRaw(t) {
        return Err(UnsupportedFormat);
      }
      spans := spans + [Span(t, start)];
      if start + l.EmittedFrames(t) >= U32 {
        return Err(InvalidData);
      }
      start := start + l.EmittedFrames(t);
      t := t + 1;
    }
    SpansValid(l, spans);
    WholeView(l, disc, spans, |l.tracks|);
    var reader := new CdAudioReader(l, disc, spans, start);
    r := Ok(reader);
  }

  lemma {:induction false} SpansValid(l: Layout, spans: seq<Span>)
    requires l.Valid() && TrackSpans(l, spans, |l.tracks|) && Emitted(l, |l.tracks|) < U32
    ensures ValidSpans(l, spans, Emitted(l, |l.tracks|))
  {
    forall i: nat | i < |spans| ensures EndOf(l, spans, i) == if i + 1 < |spans| then spans[i + 1].first else Emitted(l, |l.tracks|) {
      assert Emitted(l, i + 1) == Emitted(l, i) + l.EmittedFrames(i);
    }
  }

  /** open_track: one track's slice of the same bytes. */
  method OpenTrack(l: Layout, disc: Disc, t: nat) returns (r: Result<CdAudioReader, Error>)
    requires l.Valid()
    ensures t >= |l.tracks| ==> r == Err(InvalidData)
    ensures t < |l.tracks| && !l.IsRaw(t) ==> r == Err(UnsupportedFormat)
    ensures t < |l.tracks| && l.IsRaw(t) ==>
              r.Ok? && fresh(r.value) && r.value.Valid() && r.value.pos == 0 && r.value.View() == TrackBin(l, disc, t, l.EmittedFrames(t))
  {
    if t >= |l.tracks| {
      return Err(InvalidData);
    }
    if !l.IsRaw(t) {
      return Err(UnsupportedFormat);
    }
    var spans := [Span(t, 0)];
    assert ViewBin(l, disc, spans, 1) == ViewBin(l, disc, spans, 0) + TrackBin(l, disc, t, l.EmittedFrames(t));
    assert [] + TrackBin(l, disc, t, l.EmittedFrames(t)) == TrackBin(l, disc, t, l.EmittedFrames(t));
    var reader := new CdAudioReader(l, disc, spans, l.EmittedFrames(t));
    r := Ok(reader);
  }
}
