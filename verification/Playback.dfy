/**
 * What a player learns from the headers of a recording or of the live stream's initialisation
 * segment: time scales, durations, picture size and the kind of track.
 */
module Playback {
  import opened Common
  import opened Bytes
  import opened Boxes
  import opened Moov
  import opened Recording
  import opened Demux
  import opened ParameterSets

  /** Times are in units of 1/scale s. */
  datatype Headers = Headers(
    movieScale: nat, movieTime: nat, enabled: bool, track: nat, trackTime: nat, w: nat, h: nat,
    scale: nat, time: nat, handler: nat)

  const TO_MVHD: seq<nat> := [MVHD]
  const TO_TKHD: seq<nat> := [TRAK, TKHD]
  const TO_MDHD: seq<nat> := [TRAK, MDIA, MDHD]
  const TO_HDLR: seq<nat> := [TRAK, MDIA, HDLR]

  const VIDEO: nat := 0x76696465

  /** The header fields, from version 0 boxes (sections 8.2.2, 8.3.2, 8.4.2 and 8.4.3 of ISO/IEC 14496-12). */
  function ReadHeaders(d: seq<Byte>): Option<Headers> {
    var moov := Descend(d, 0, |d|, [MOOV]);
    if moov.None? then None
    else
      var (at, end) := moov.value;
      var mvhd := Descend(d, at, end, TO_MVHD);
      var tkhd := Descend(d, at, end, TO_TKHD);
      var mdhd := Descend(d, at, end, TO_MDHD);
      var hdlr := Descend(d, at, end, TO_HDLR);
      if mvhd.None? || tkhd.None? || mdhd.None? || hdlr.None? then None
      else if mvhd.value.0 + 20 > |d| || tkhd.value.0 + 84 > |d| || mdhd.value.0 + 20 > |d| || hdlr.value.0 + 12 > |d|
      then None
      else
        Some(Headers(
          ReadBe32(d, mvhd.value.0 + 12), ReadBe32(d, mvhd.value.0 + 16),
          ReadBe32(d, tkhd.value.0) % 2 == 1, ReadBe32(d, tkhd.value.0 + 12), ReadBe32(d, tkhd.value.0 + 20),
          ReadBe32(d, tkhd.value.0 + 76) / TWO16, ReadBe32(d, tkhd.value.0 + 80) / TWO16,
          ReadBe32(d, mdhd.value.0 + 12), ReadBe32(d, mdhd.value.0 + 16),
          ReadBe32(d, hdlr.value.0 + 8)))
  }

  function MvhdWords(ms: nat): (ws: seq<nat>)
    ensures |ws| == 25 && ws[3] == 1000 && ws[4] == ms
  {
    [0, 0, 0, 1000, ms, 0x1_0000, 0x0100_0000, 0, 0] + MATRIX + [0, 0, 0, 0, 0, 0, 2]
  }

  function TkhdWords(duration: nat, w: nat, h: nat): (ws: seq<nat>)
    ensures |ws| == 21 && ws[0] == 7 && ws[3] == 1 && ws[5] == duration && ws[19] == w * TWO16 && ws[20] == h * TWO16
  {
    [7, 0, 0, 1, 0, duration, 0, 0, 0, 0x0100_0000] + MATRIX + [w * TWO16, h * TWO16]
  }

  const HDLR_WORDS: seq<nat> := [0, 0, VIDEO, 0, 0, 0, 0x56696465, 0x6F48616E, 0x646C6572, 0]

  /** Where the header boxes lie inside a movie box. */
  lemma HeadersLie(d: seq<Byte>, at: nat, end: nat, ms: nat, t: Track, tables: seq<Byte>)
    requires Lies(d, at, Mvhd(ms) + Trak(t, tables))
    requires |Trak(t, tables)| < TWO32 && at + 108 + |Trak(t, tables)| <= end <= |d|
    ensures Descend(d, at, end, TO_MVHD) == Some((at + 8, at + 108)) && Lies(d, at + 8, Words(MvhdWords(ms)))
    ensures Descend(d, at, end, TO_TKHD) == Some((at + 124, at + 208))
    ensures Lies(d, at + 124, Words(TkhdWords(t.duration, t.w, t.h)))
    ensures Descend(d, at, end, TO_MDHD) == Some((at + 224, at + 248))
    ensures Lies(d, at + 224, Words([0, 0, 0, 90000, t.duration, 0x55C4_0000]))
    ensures Descend(d, at, end, TO_HDLR) == Some((at + 256, at + 296)) && Lies(d, at + 256, Words(HDLR_WORDS))
  {
    var stsd := Stsd(t.w, t.h, t.sps, t.pps);
    var minf := Minf(Stbl(stsd, tables));
    var mdia := Mdia(t.duration, minf);
    var trak := Trak(t, tables);
    hide Header, Words, IsBox, Descend, Lies, Stsd, Minf, Stbl;
    BoxIsBox(MVHD, Words(MvhdWords(ms)));
    BoxIsBox(TKHD, Words(TkhdWords(t.duration, t.w, t.h)));
    BoxIsBox(MDHD, Words([0, 0, 0, 90000, t.duration, 0x55C4_0000]));
    BoxIsBox(HDLR, Words(HDLR_WORDS));
    BoxIsBox(TRAK, Tkhd(t.duration, t.w, t.h) + mdia);
    BoxIsBox(MDIA, Mdhd(t.duration) + (Hdlr() + minf));
    hide Box, Trak, Mdia, Mvhd, Tkhd, Mdhd, Hdlr;
    LiesSplit(d, at, Mvhd(ms), trak);
    DescendInto(d, at, end, Mvhd(ms), TO_MVHD);
    DescendEnd(d, at + 8, at + 108, TO_MVHD[1..]);
    ThroughOne(d, at, end, Mvhd(ms), MVHD, trak, TO_TKHD);
    ThroughOne(d, at, end, Mvhd(ms), MVHD, trak, TO_MDHD);
    ThroughOne(d, at, end, Mvhd(ms), MVHD, trak, TO_HDLR);
    InTrak(d, at + 108, t, trak, Tkhd(t.duration, t.w, t.h), mdia, Mdhd(t.duration), Hdlr(), minf);
  }

  lemma InTrak(d: seq<Byte>, at: nat, t: Track, trak: seq<Byte>, tkhd: seq<Byte>, mdia: seq<Byte>,
               mdhd: seq<Byte>, hdlr: seq<Byte>, minf: seq<Byte>)
    requires at + |trak| <= |d| && |trak| >= 8 && Lies(d, at + 8, tkhd + mdia) && |trak| == 8 + |tkhd| + |mdia|
    requires IsBox(tkhd, TKHD) && |tkhd| == 92 && IsBox(mdia, MDIA) && mdia[8..] == mdhd + (hdlr + minf)
    requires IsBox(mdhd, MDHD) && |mdhd| == 32 && IsBox(hdlr, HDLR) && |hdlr| == 48 && |mdia| == 88 + |minf|
    ensures Descend(d, at + 8, at + |trak|, [TKHD]) == Some((at + 16, at + 100)) && Lies(d, at + 16, tkhd[8..])
    ensures Descend(d, at + 8, at + |trak|, [MDIA, MDHD]) == Some((at + 116, at + 140)) && Lies(d, at + 116, mdhd[8..])
    ensures Descend(d, at + 8, at + |trak|, [MDIA, HDLR]) == Some((at + 148, at + 188)) && Lies(d, at + 148, hdlr[8..])
  {
    var end := at + |trak|;
    hide IsBox, Descend, Lies;
    LiesSplit(d, at + 8, tkhd, mdia);
    DescendInto(d, at + 8, end, tkhd, [TKHD]);
    DescendEnd(d, at + 16, at + 100, [TKHD][1..]);
    ThroughOne(d, at + 8, end, tkhd, TKHD, mdia, [MDIA, MDHD]);
    ThroughOne(d, at + 8, end, tkhd, TKHD, mdia, [MDIA, HDLR]);
    assert [MDIA, MDHD][1..] == [MDHD] && [MDIA, HDLR][1..] == [HDLR];
    InMdia(d, at + 108, end, mdhd, hdlr, minf);
  }

  lemma InMdia(d: seq<Byte>, at: nat, end: nat, mdhd: seq<Byte>, hdlr: seq<Byte>, minf: seq<Byte>)
    requires Lies(d, at, mdhd + (hdlr + minf)) && at + |mdhd| + |hdlr| <= end <= |d|
    requires IsBox(mdhd, MDHD) && |mdhd| == 32 && IsBox(hdlr, HDLR) && |hdlr| == 48
    ensures Descend(d, at, end, [MDHD]) == Some((at + 8, at + 32)) && Lies(d, at + 8, mdhd[8..])
    ensures Descend(d, at, end, [HDLR]) == Some((at + 40, at + 80)) && Lies(d, at + 40, hdlr[8..])
  {
    hide IsBox, Descend, Lies;
    LiesSplit(d, at, mdhd, hdlr + minf);
    LiesSplit(d, at + 32, hdlr, minf);
    DescendInto(d, at, end, mdhd, [MDHD]);
    DescendEnd(d, at + 8, at + 32, [MDHD][1..]);
    DescendPast(d, at, end, mdhd, MDHD, [HDLR]);
    DescendInto(d, at + 32, end, hdlr, [HDLR]);
    DescendEnd(d, at + 40, at + 80, [HDLR][1..]);
  }

  /** The headers of a movie box found under the given path, with fields cut to 32 and 16 bits. */
  function Announced(ms: nat, t: Track): Headers {
    Headers(1000, ms % TWO32, true, 1, t.duration % TWO32, t.w % TWO16, t.h % TWO16, 90000, t.duration % TWO32, VIDEO)
  }

  lemma HeadersRead(d: seq<Byte>, at: nat, end: nat, ms: nat, t: Track, tables: seq<Byte>)
    requires Descend(d, 0, |d|, [MOOV]) == Some((at, end))
    requires Lies(d, at, Mvhd(ms) + Trak(t, tables))
    requires |Trak(t, tables)| < TWO32 && at + 108 + |Trak(t, tables)| <= end <= |d|
    ensures ReadHeaders(d) == Some(Announced(ms, t))
  {
    hide Words, Descend, FindBox, Lies, Mvhd, Trak, ReadBe32, MvhdWords, TkhdWords;
    HeadersLie(d, at, end, ms, t, tables);
    WordLowAt(d, at + 8, MvhdWords(ms), 3);
    WordLowAt(d, at + 8, MvhdWords(ms), 4);
    WordLowAt(d, at + 124, TkhdWords(t.duration, t.w, t.h), 0);
    WordLowAt(d, at + 124, TkhdWords(t.duration, t.w, t.h), 3);
    WordLowAt(d, at + 124, TkhdWords(t.duration, t.w, t.h), 5);
    WordLowAt(d, at + 124, TkhdWords(t.duration, t.w, t.h), 19);
    WordLowAt(d, at + 124, TkhdWords(t.duration, t.w, t.h), 20);
    WordLowAt(d, at + 224, [0, 0, 0, 90000, t.duration, 0x55C4_0000], 3);
    WordLowAt(d, at + 224, [0, 0, 0, 90000, t.duration, 0x55C4_0000], 4);
    WordLowAt(d, at + 256, HDLR_WORDS, 2);
    HighHalf(t.w);
    HighHalf(t.h);
  }

  /** A 16.16 fixed point field keeps the low 16 bits of a whole number. */
  lemma HighHalf(v: nat)
    ensures v * TWO16 % TWO32 / TWO16 == v % TWO16
  {
    var q, r := v / TWO16, v % TWO16;
    assert v * TWO16 == q * TWO32 + r * TWO16 by { assert v == q * TWO16 + r; }
    DivModUnique(v * TWO16, TWO32, q, r * TWO16);
    DivModUnique(r * TWO16, TWO16, r, 0);
  }

  /** A field keeps the low 32 bits of its value. */
  lemma {:induction false} WordLowAt(d: seq<Byte>, at: nat, ws: seq<nat>, i: nat)
    requires Lies(d, at, Words(ws)) && i < |ws|
    ensures at + 4 * i + 4 <= |d| && ReadBe32(d, at + 4 * i) == ws[i] % TWO32
  {
    hide Be32, ReadBe32;
    var n := |ws| - 1;
    LiesSplit(d, at, Words(ws[..n]), Be32(ws[n]));
    if i == n {
      ReadBe32Slice(d, at + 4 * n, ws[n]);
    } else {
      WordLowAt(d, at, ws[..n], i);
    }
  }

  // ---------------------------------------------------------------- recordings

  lemma MovieAt(data: seq<Byte>, ms: nat, t: Track, tables: seq<Byte>)
    requires 8 + |data| < TWO32 && |Movie(ms, t, tables)| < TWO32
    ensures var d, at := Ftyp() + (Box(MDAT, data) + Movie(ms, t, tables)), 44 + |data|;
            && Descend(d, 0, |d|, [MOOV]) == Some((at, |d|)) && Lies(d, at, Mvhd(ms) + Trak(t, tables))
            && |d| == at + 108 + |Trak(t, tables)|
  {
    var mdat, movie := Box(MDAT, data), Movie(ms, t, tables);
    var d := Ftyp() + (mdat + movie);
    hide Descend, IsBox, Header, Words, Mvhd, Trak;
    FtypBox();
    BoxIsBox(MDAT, data);
    BoxIsBox(MOOV, Mvhd(ms) + Trak(t, tables));
    assert Lies(d, 0, Ftyp() + (mdat + movie));
    hide Box, Ftyp, Lies;
    LiesSplit(d, 0, Ftyp(), mdat + movie);
    LiesSplit(d, 28, mdat, movie);
    DescendPast(d, 0, |d|, Ftyp(), FTYP, [MOOV]);
    DescendPast(d, 28, |d|, mdat, MDAT, [MOOV]);
    DescendInto(d, 28 + |mdat|, |d|, movie, [MOOV]);
    DescendEnd(d, 36 + |mdat|, |d|, [MOOV][1..]);
  }

  lemma FileHeaders(d: seq<Byte>, s: Session, fs: seq<Frame>)
    requires 8 + |Data(fs)| < TWO32 && |MovieBox(s)| < TWO32
    requires d == Ftyp() + (Box(MDAT, Data(fs)) + MovieBox(s))
    ensures ReadHeaders(d) == Some(Announced(Span(s), SessionTrack(s)))
  {
    var t := SessionTrack(s);
    var tables := Tables(Delta(s), Sizes(s.samples), Offsets(s.samples), s.keys);
    hide Ftyp, Box, Movie, Data, Delta, Span, ReadHeaders, Tables, Lies, Descend, FindBox, Mvhd, Trak, Sizes, Offsets,
         Announced;
    MovieAt(Data(fs), Span(s), t, tables);
    HeadersRead(d, 44 + |Data(fs)|, |d|, Span(s), t, tables);
  }

  /**
   * A finished recording is announced as a video track of the size given at its start, counted in
   * units of 1/90000 s, whose duration is that of its samples together.
   */
  lemma RecordingHeaders(w: nat, h: nat, calls: seq<Call>)
    requires Leftover(w, h, calls) == 0 && Fits(w, h, calls)
    requires |MovieBox(Play(w, h, calls))| < TWO32 && w < TWO16 && h < TWO16
    ensures var s, fs := Play(w, h, calls), Accepted(w, h, calls);
            && |s.file| >= DATA_START
            && var time := Sum(Alike(|fs|, Delta(s))) % TWO32;
               ReadHeaders(Finalized(s))
               == Some(Headers(1000, Span(s) % TWO32, true, 1, time, w, h, 90000, time, VIDEO))
  {
    hide Play, Accepted, Laid, Leftover, Fits, Data, Delta, Span, ReadHeaders, MovieBox, Finalized, Sum, Total, Alike,
         Scaled, Box, Ftyp, Movie;
    var s, fs := Play(w, h, calls), Accepted(w, h, calls);
    RunLaid(w, h, calls);
    FinalLayout(s, fs);
    DataFits(w, h, calls);
    SumAlike(|fs|, Delta(s));
    FileHeaders(Finalized(s), s, fs);
  }

  lemma DataFits(w: nat, h: nat, calls: seq<Call>)
    requires Fits(w, h, calls) && Laid(Play(w, h, calls), Accepted(w, h, calls))
    ensures 8 + |Data(Accepted(w, h, calls))| < TWO32
    ensures |Play(w, h, calls).samples| == |Accepted(w, h, calls)|
  {
    hide Play, Accepted, Stored;
  }

  lemma {:induction false} SumAlike(n: nat, v: nat)
    ensures Sum(Alike(n, v)) == Scaled(v, n)
  {
    if n > 0 {
      SumAlike(n - 1, v);
      assert Alike(n, v)[..n - 1] == Alike(n - 1, v);
      assert v * n == v * (n - 1) + v;
    }
  }

  /**
   * A recording of frames of at most 2 MiB without midway failure plays: the headers announce a video
   * track of the given size in units of 1/90000 s, the description 4-byte length prefixes and the first
   * usable parameter sets, and the samples are the accepted frames, each for the average frame interval.
   */
  lemma RecordingPlays(w: nat, h: nat, calls: seq<Call>)
    requires Bounded(calls) && Leftover(w, h, calls) == 0 && KeysLost(w, h, calls) == 0 && w < TWO16 && h < TWO16
    ensures var s, fs, nals := Play(w, h, calls), Accepted(w, h, calls), Offered(w, h, calls);
            && |s.file| >= DATA_START
            && var d, times, sps := Finalized(s), Alike(|fs|, Delta(s)), FirstSet(7, nals);
               var time := Sum(times) % TWO32;
               && DemuxFile(d) == Some(Clip(UnitLists(fs), times, KeyNumbers(fs)))
               && ReadDescription(d) == Some(Description(w, h, ProfileOf(sps), 4, sps, FirstSet(8, nals)))
               && ReadHeaders(d) == Some(Headers(1000, Span(s) % TWO32, true, 1, time, w, h, 90000, time, VIDEO))
  {
    hide *;
    BoundedFits(w, h, calls);
    MovieFits(w, h, calls);
    DemuxBounded(w, h, calls);
    RecordingSetsBounded(w, h, calls);
    RecordingHeaders(w, h, calls);
  }

  // ---------------------------------------------------------------- live stream

  /** The track whose samples come in fragments, by the extension header (section 8.8.3). */
  function FragmentedTrack(d: seq<Byte>): Option<nat> {
    var trex := Descend(d, 0, |d|, [MOOV, MVEX, TREX]);
    if trex.None? || trex.value.0 + 8 > |d| then None else Some(ReadBe32(d, trex.value.0 + 4))
  }

  /** The initialisation segment is a file type box and a movie box. */
  lemma InitShape(t: Track) returns (moov: seq<Byte>)
    requires |t.sps| <= 64 && |t.pps| <= 64
    ensures InitSegment(t) == Ftyp() + moov && IsBox(moov, MOOV)
    ensures moov[8..] == Mvhd(0) + (Trak(t, EmptyTables()) + Mvex()) && |Trak(t, EmptyTables())| < TWO32
  {
    var body := Mvhd(0) + (Trak(t, EmptyTables()) + Mvex());
    hide IsBox, Header, Words, Mvhd, Trak, Ftyp, Mvex, EmptyTables;
    BoxIsBox(MOOV, body);
    moov := Box(MOOV, body);
  }

  /** Where the parts of its movie box lie. */
  lemma InitParts(d: seq<Byte>, t: Track, path: seq<nat>)
    requires d == InitSegment(t) && |t.sps| <= 64 && |t.pps| <= 64 && path != [] && path[0] == MOOV
    ensures var trak := Trak(t, EmptyTables());
            && |trak| < TWO32 && |d| == 200 + |trak| && Lies(d, 36, Mvhd(0) + trak) && Lies(d, 144 + |trak|, Mvex())
    ensures Descend(d, 0, |d|, path) == Descend(d, 36, |d|, path[1..])
  {
    var moov := InitShape(t);
    var trak := Trak(t, EmptyTables());
    BoxLength(moov, MOOV);
    hide Descend, FindBox, IsBox, Mvhd, Trak, Ftyp, Mvex, InitSegment, Lies;
    MoovAt(d, moov, path);
    Associative(Mvhd(0), trak, Mvex());
    LiesSplit(d, 36, Mvhd(0) + trak, Mvex());
  }

  lemma TrakBox(t: Track, tables: seq<Byte>)
    requires |Trak(t, tables)| < TWO32
    ensures IsBox(Trak(t, tables), TRAK)
  {
    hide IsBox, Header, Words, Tkhd, Mdia;
    BoxIsBox(TRAK, Tkhd(t.duration, t.w, t.h) + Mdia(t.duration, Minf(Stbl(Stsd(t.w, t.h, t.sps, t.pps), tables))));
  }

  lemma MvhdBox(ms: nat)
    ensures IsBox(Mvhd(ms), MVHD)
  {
    hide IsBox, Header, Words;
    BoxIsBox(MVHD, Words(MvhdWords(ms)));
  }

  lemma ExtensionRead(d: seq<Byte>, at: nat, end: nat)
    requires Lies(d, at, Mvex()) && at + 56 <= end <= |d|
    ensures Descend(d, at, end, [MVEX, TREX]) == Some((at + 32, at + 56)) && ReadBe32(d, at + 36) == 1
  {
    var mehd, trex := Box(MEHD, Words([0, 0])), Box(TREX, Words([0, 1, 1, 0, 0, 0]));
    hide Descend, FindBox, IsBox, Header, Words, Lies, ReadBe32;
    BoxIsBox(MVEX, mehd + trex);
    BoxIsBox(MEHD, Words([0, 0]));
    BoxIsBox(TREX, Words([0, 1, 1, 0, 0, 0]));
    hide Box;
    DescendInto(d, at, end, Mvex(), [MVEX, TREX]);
    assert [MVEX, TREX][1..] == [TREX];
    ThroughOne(d, at + 8, at + 56, mehd, MEHD, trex, [TREX]);
    DescendEnd(d, at + 32, at + 56, [TREX][1..]);
    WordAt(d, at + 32, [0, 1, 1, 0, 0, 0], 1);
  }

  /**
   * A live client is announced an endless video track of the given size in units of 1/90000 s, the
   * track of the fragments.
   */
  lemma InitSegmentHeaders(t: Track)
    requires |t.sps| <= 64 && |t.pps| <= 64
    ensures ReadHeaders(InitSegment(t)) == Some(Announced(0, t)) && FragmentedTrack(InitSegment(t)) == Some(1)
  {
    var d := InitSegment(t);
    var trak := Trak(t, EmptyTables());
    hide Descend, FindBox, IsBox, Mvhd, Trak, InitSegment, Mvex, ReadHeaders, Lies, ReadBe32, Announced, EmptyTables;
    InitParts(d, t, [MOOV]);
    InitParts(d, t, [MOOV, MVEX, TREX]);
    DescendEnd(d, 36, |d|, [MOOV][1..]);
    assert [MOOV, MVEX, TREX][1..] == [MVEX, TREX];
    HeadersRead(d, 36, |d|, 0, t, EmptyTables());
    MvhdBox(0);
    TrakBox(t, EmptyTables());
    LiesSplit(d, 36, Mvhd(0), trak);
    DescendPast(d, 36, |d|, Mvhd(0), MVHD, [MVEX, TREX]);
    DescendPast(d, 144, |d|, trak, TRAK, [MVEX, TREX]);
    ExtensionRead(d, 144 + |trak|, |d|);
  }
}
