/** Reading a live fragment back: the data offset in its header lands on the first sample byte. */
module Fragments {
  import opened Common
  import opened Bytes
  import opened Boxes
  import opened Moov
  import opened Recording
  import opened Demux

  /** What a player learns of one sample; times are in units of the track's scale. */
  datatype Piece = Piece(track: nat, number: nat, key: bool, time: nat, duration: nat, sample: seq<Byte>)

  const TO_RUN: seq<nat> := [MOOF, TRAF, TRUN]
  const TO_TIME: seq<nat> := [MOOF, TRAF, TFDT]
  const TO_TRACK: seq<nat> := [MOOF, TRAF, TFHD]
  const TO_NUMBER: seq<nat> := [MOOF, MFHD]

  predicate Has(flags: nat, bit: nat)
    requires bit > 0
  {
    flags / bit % 2 == 1
  }

  datatype Run = Run(offset: nat, flags: nat, duration: nat, size: nat)

  /**
   * A run of one sample: its flags say which of data offset, first sample's flags, duration, size,
   * flags and composition offset follow (section 8.8.8 of ISO/IEC 14496-12).
   */
  function ReadRun(d: seq<Byte>, at: nat, end: nat): Option<Run>
    requires at <= end <= |d|
  {
    if at + 8 > end then None
    else
      var has := ReadBe32(d, at);
      var first := if Has(has, 0x4) then 4 else 0;
      var size := 8 + (if Has(has, 0x400) then 4 else 0) + (if Has(has, 0x800) then 4 else 0);
      if ReadBe32(d, at + 4) != 1 || !Has(has, 0x1) || !Has(has, 0x100) || !Has(has, 0x200) then None
      else if Has(has, 0x4) == Has(has, 0x400) || at + 12 + first + size > end then None
      else
        Some(Run(ReadBe32(d, at + 8), if Has(has, 0x4) then ReadBe32(d, at + 12) else ReadBe32(d, at + 20),
                 ReadBe32(d, at + 12 + first), ReadBe32(d, at + 16 + first)))
  }

  /** The decode time, with 64 bits in version 1 and 32 bits in version 0 (section 8.8.12). */
  function ReadTime(d: seq<Byte>, at: nat, end: nat): Option<nat>
    requires at <= end <= |d|
  {
    if at + 12 > end then None
    else if Has(ReadBe32(d, at), 0x100_0000) then Some(ReadBe32(d, at + 4) * TWO32 + ReadBe32(d, at + 8))
    else Some(ReadBe32(d, at + 4))
  }

  /** The track, for headers whose data offsets count from the first byte of the fragment (section 8.8.7). */
  function ReadTrack(d: seq<Byte>, at: nat, end: nat): Option<nat>
    requires at <= end <= |d|
  {
    if at + 8 > end || !Has(ReadBe32(d, at), 0x2_0000) || Has(ReadBe32(d, at), 0x1) then None
    else Some(ReadBe32(d, at + 4))
  }

  /** What a player extracts from a fragment with one sample. */
  function ReadFragment(d: seq<Byte>): Option<Piece> {
    var atNumber := Descend(d, 0, |d|, TO_NUMBER);
    var atTrack := Descend(d, 0, |d|, TO_TRACK);
    var atTime := Descend(d, 0, |d|, TO_TIME);
    var atRun := Descend(d, 0, |d|, TO_RUN);
    if atNumber.None? || atNumber.value.0 + 8 > |d| || atTrack.None? || atTime.None? || atRun.None? then None
    else
      var track := ReadTrack(d, atTrack.value.0, atTrack.value.1);
      var time := ReadTime(d, atTime.value.0, atTime.value.1);
      var run := ReadRun(d, atRun.value.0, atRun.value.1);
      if track.None? || time.None? || run.None? || run.value.offset + run.value.size > |d| then None
      else
        var r := run.value;
        Some(Piece(track.value, ReadBe32(d, atNumber.value.0 + 4), !Has(r.flags, 0x1_0000), time.value, r.duration,
                   d[r.offset..r.offset + r.size]))
  }

  function RunWords(key: bool, duration: nat, size: nat): (ws: seq<nat>)
    ensures |ws| == 6
  {
    [0x305, 1, 108, if key then 0x0200_0000 else 0x0101_0000, duration, size]
  }

  function TimeWords(time: nat): (ws: seq<nat>)
    ensures |ws| == 3
  {
    [0x0100_0000, time / TWO32, time]
  }

  lemma FragmentIs(number: nat, key: bool, time: nat, duration: nat, sample: seq<Byte>)
    ensures var runs := Box(TFDT, Words(TimeWords(time))) + Box(TRUN, Words(RunWords(key, duration, |sample|)));
            Fragment(number, key, time, duration, sample)
            == Box(MOOF, Box(MFHD, Words([0, number])) + Box(TRAF, Box(TFHD, Words([0x20000, 1])) + runs))
               + Box(MDAT, sample)
  {
    hide Words, Box;
  }

  lemma LiesWhole(d: seq<Byte>)
    ensures Lies(d, 0, d)
  {
  }

  /** Where the parts of a fragment lie. */
  lemma Layout(d: seq<Byte>, number: nat, key: bool, time: nat, duration: nat, sample: seq<Byte>)
    requires d == Fragment(number, key, time, duration, sample) && |d| < TWO32
    ensures Descend(d, 0, |d|, TO_NUMBER) == Some((16, 24)) && Lies(d, 16, Words([0, number]))
    ensures Descend(d, 0, |d|, TO_TRACK) == Some((40, 48)) && Lies(d, 40, Words([0x20000, 1]))
    ensures Descend(d, 0, |d|, TO_TIME) == Some((56, 68)) && Lies(d, 56, Words(TimeWords(time)))
    ensures Descend(d, 0, |d|, TO_RUN) == Some((76, 100))
    ensures Lies(d, 76, Words(RunWords(key, duration, |sample|)))
    ensures FindBox(d, 0, |d|, MDAT) == Some((108, |d|)) && Lies(d, 108, sample)
  {
    var mfhd := Box(MFHD, Words([0, number]));
    var tfhd := Box(TFHD, Words([0x20000, 1]));
    var tfdt := Box(TFDT, Words(TimeWords(time)));
    var trun := Box(TRUN, Words(RunWords(key, duration, |sample|)));
    var traf := Box(TRAF, tfhd + (tfdt + trun));
    var moof := Box(MOOF, mfhd + traf);
    var mdat := Box(MDAT, sample);
    FragmentIs(number, key, time, duration, sample);
    hide *;
    BoxIsBox(MFHD, Words([0, number]));
    BoxIsBox(TFHD, Words([0x20000, 1]));
    BoxIsBox(TFDT, Words(TimeWords(time)));
    BoxIsBox(TRUN, Words(RunWords(key, duration, |sample|)));
    BoxIsBox(TRAF, tfhd + (tfdt + trun));
    BoxIsBox(MOOF, mfhd + traf);
    BoxIsBox(MDAT, sample);
    PartsLie(d, moof, mfhd, traf, tfhd, tfdt, trun, mdat);
  }

  lemma PartsLie(d: seq<Byte>, moof: seq<Byte>, mfhd: seq<Byte>, traf: seq<Byte>,
                 tfhd: seq<Byte>, tfdt: seq<Byte>, trun: seq<Byte>, mdat: seq<Byte>)
    requires d == moof + mdat && IsBox(moof, MOOF) && moof[8..] == mfhd + traf && |moof| == 100
    requires IsBox(mfhd, MFHD) && |mfhd| == 16 && IsBox(traf, TRAF) && traf[8..] == tfhd + (tfdt + trun)
    requires |traf| == 76 && |tfhd| == 16 && |tfdt| == 20 && |trun| == 32
    requires IsBox(tfhd, TFHD) && IsBox(tfdt, TFDT) && IsBox(trun, TRUN) && IsBox(mdat, MDAT)
    ensures Descend(d, 0, |d|, TO_NUMBER) == Some((16, 24)) && Lies(d, 16, mfhd[8..])
    ensures Descend(d, 0, |d|, TO_TRACK) == Some((40, 48)) && Lies(d, 40, tfhd[8..])
    ensures Descend(d, 0, |d|, TO_TIME) == Some((56, 68)) && Lies(d, 56, tfdt[8..])
    ensures Descend(d, 0, |d|, TO_RUN) == Some((76, 100)) && Lies(d, 76, trun[8..])
    ensures FindBox(d, 0, |d|, MDAT) == Some((108, |d|)) && Lies(d, 108, mdat[8..])
  {
    LiesWhole(d);
    hide IsBox, Descend, FindBox, Lies;
    LiesSplit(d, 0, moof, mdat);
    FindSkip(d, 0, |d|, moof, MOOF, MDAT);
    FindHit(d, 100, |d|, mdat, MDAT);
    IntoNumber(d, moof, mfhd, traf);
    IntoTraf(d, moof, mfhd, traf, tfhd, tfdt, trun);
  }

  lemma IntoNumber(d: seq<Byte>, moof: seq<Byte>, mfhd: seq<Byte>, traf: seq<Byte>)
    requires Lies(d, 0, moof) && IsBox(moof, MOOF) && moof[8..] == mfhd + traf && |moof| == 100 <= |d|
    requires IsBox(mfhd, MFHD) && |mfhd| == 16
    ensures Descend(d, 0, |d|, TO_NUMBER) == Some((16, 24)) && Lies(d, 16, mfhd[8..])
  {
    hide IsBox, Descend, Lies;
    DescendInto(d, 0, |d|, moof, TO_NUMBER);
    LiesSplit(d, 8, mfhd, traf);
    DescendInto(d, 8, |moof|, mfhd, TO_NUMBER[1..]);
    DescendEnd(d, 16, 24, TO_NUMBER[1..][1..]);
  }

  lemma IntoTraf(d: seq<Byte>, moof: seq<Byte>, mfhd: seq<Byte>, traf: seq<Byte>,
                 tfhd: seq<Byte>, tfdt: seq<Byte>, trun: seq<Byte>)
    requires Lies(d, 0, moof) && IsBox(moof, MOOF) && moof[8..] == mfhd + traf && |moof| == 100 <= |d|
    requires IsBox(mfhd, MFHD) && |mfhd| == 16 && IsBox(traf, TRAF) && traf[8..] == tfhd + (tfdt + trun)
    requires |traf| == 76 && |tfhd| == 16 && |tfdt| == 20 && |trun| == 32
    requires IsBox(tfhd, TFHD) && IsBox(tfdt, TFDT) && IsBox(trun, TRUN)
    ensures Descend(d, 0, |d|, TO_TRACK) == Some((40, 48)) && Lies(d, 40, tfhd[8..])
    ensures Descend(d, 0, |d|, TO_TIME) == Some((56, 68)) && Lies(d, 56, tfdt[8..])
    ensures Descend(d, 0, |d|, TO_RUN) == Some((76, 100)) && Lies(d, 76, trun[8..])
  {
    hide IsBox, Descend, Lies;
    DescendInto(d, 0, |d|, moof, TO_TRACK);
    DescendInto(d, 0, |d|, moof, TO_TIME);
    DescendInto(d, 0, |d|, moof, TO_RUN);
    ThroughOne(d, 8, 100, mfhd, MFHD, traf, TO_TRACK[1..]);
    ThroughOne(d, 8, 100, mfhd, MFHD, traf, TO_TIME[1..]);
    ThroughOne(d, 8, 100, mfhd, MFHD, traf, TO_RUN[1..]);
    LiesSplit(d, 32, tfhd, tfdt + trun);
    LiesSplit(d, 48, tfdt, trun);
    DescendInto(d, 32, 100, tfhd, TO_TRACK[1..][1..]);
    DescendEnd(d, 40, 48, TO_TRACK[1..][1..][1..]);
    DescendPast(d, 32, 100, tfhd, TFHD, TO_TIME[1..][1..]);
    DescendInto(d, 48, 100, tfdt, TO_TIME[1..][1..]);
    DescendEnd(d, 56, 68, TO_TIME[1..][1..][1..]);
    ThroughTwo(d, 32, 100, tfhd, TFHD, tfdt, TFDT, trun, TO_RUN[1..][1..]);
    DescendEnd(d, 76, 100, TO_RUN[1..][1..][1..]);
  }

  /** A reader gets back track, number, time, duration, key flag and the sample of every fragment built. */
  lemma FragmentRoundTrip(number: nat, key: bool, time: nat, duration: nat, sample: seq<Byte>)
    requires number < TWO32 && duration < TWO32 && time < TWO64 && 108 + |sample| < TWO32
    ensures ReadFragment(Fragment(number, key, time, duration, sample))
         == Some(Piece(1, number, key, time, duration, sample))
  {
    var d := Fragment(number, key, time, duration, sample);
    hide Words, Descend, Fragment, ReadBe32, ReadRun, ReadTime, ReadTrack, Lies;
    assert |d| == 108 + |sample| by { FragmentLength(number, key, time, duration, sample); }
    Layout(d, number, key, time, duration, sample);
    WordAt(d, 16, [0, number], 1);
    RunRead(d, key, duration, sample);
    TimeRead(d, time);
    TrackRead(d);
    SampleAt(d, sample);
  }

  lemma SampleAt(d: seq<Byte>, sample: seq<Byte>)
    requires Lies(d, 108, sample)
    ensures 108 + |sample| <= |d| && d[108..108 + |sample|] == sample
  {
  }

  lemma FragmentLength(number: nat, key: bool, time: nat, duration: nat, sample: seq<Byte>)
    ensures |Fragment(number, key, time, duration, sample)| == 108 + |sample|
  {
  }

  lemma RunFlags()
    ensures Has(0x305, 0x1) && Has(0x305, 0x4) && Has(0x305, 0x100) && Has(0x305, 0x200)
    ensures !Has(0x305, 0x400) && !Has(0x305, 0x800)
  {
  }

  lemma RunRead(d: seq<Byte>, key: bool, duration: nat, sample: seq<Byte>)
    requires Lies(d, 76, Words(RunWords(key, duration, |sample|))) && duration < TWO32 && |sample| < TWO32 && |d| >= 100
    ensures ReadRun(d, 76, 100) == Some(Run(108, if key then 0x0200_0000 else 0x0101_0000, duration, |sample|))
  {
    var ws := RunWords(key, duration, |sample|);
    RunFlags();
    hide Words, ReadBe32, Lies, Has;
    WordAt(d, 76, ws, 0);
    WordAt(d, 76, ws, 1);
    WordAt(d, 76, ws, 2);
    WordAt(d, 76, ws, 3);
    WordAt(d, 76, ws, 4);
    WordAt(d, 76, ws, 5);
  }

  lemma TimeRead(d: seq<Byte>, time: nat)
    requires time < TWO64 && Lies(d, 56, Words(TimeWords(time))) && |d| >= 68
    ensures ReadTime(d, 56, 68) == Some(time)
  {
    var ws := TimeWords(time);
    hide Words, ReadBe32, Lies;
    WordAt(d, 56, ws, 0);
    WordAt(d, 56, ws, 1);
    WordLow(d, 56, ws, 2);
  }

  lemma TrackRead(d: seq<Byte>)
    requires Lies(d, 40, Words([0x20000, 1])) && |d| >= 48
    ensures ReadTrack(d, 40, 48) == Some(1)
  {
    hide Words, ReadBe32, Lies;
    WordAt(d, 40, [0x20000, 1], 0);
    WordAt(d, 40, [0x20000, 1], 1);
  }

  /** A field keeps the low 32 bits of its value. */
  lemma {:induction false} WordLow(d: seq<Byte>, at: nat, ws: seq<nat>, i: nat)
    requires Lies(d, at, Words(ws)) && i < |ws|
    ensures at + 4 * i + 4 <= |d| && ReadBe32(d, at + 4 * i) == ws[i] % TWO32
  {
    hide Be32, ReadBe32;
    var n := |ws| - 1;
    LiesSplit(d, at, Words(ws[..n]), Be32(ws[n]));
    if i == n {
      ReadBe32Slice(d, at + 4 * n, ws[n]);
    } else {
      WordLow(d, at, ws[..n], i);
    }
  }
}
