/**
 * The movie header of a recording, and the initialisation segment and fragments of the live
 * stream: as nested boxes, and as the writers emit them with sizes computed in advance.
 */
module Moov {
  import opened Bytes
  import opened Boxes

  // ---------------------------------------------------------------- leaf boxes

  const MATRIX: seq<nat> := [0x1_0000, 0, 0, 0, 0x1_0000, 0, 0, 0, 0x4000_0000]

  function Mvhd(durationMs: nat): (s: seq<Byte>)
    ensures |s| == 108
  {
    Box(MVHD, Words([0, 0, 0, 1000, durationMs, 0x1_0000, 0x0100_0000, 0, 0] + MATRIX + [0, 0, 0, 0, 0, 0, 2]))
  }

  function Tkhd(duration: nat, w: nat, h: nat): (s: seq<Byte>)
    ensures |s| == 92
  {
    Box(TKHD, Words([7, 0, 0, 1, 0, duration, 0, 0, 0, 0x0100_0000] + MATRIX + [w * TWO16, h * TWO16]))
  }

  function Mdhd(duration: nat): (s: seq<Byte>)
    ensures |s| == 32
  {
    Box(MDHD, Words([0, 0, 0, 90000, duration, 0x55C4_0000]))
  }

  /** Handler "vide" with the name "VideoHandler". */
  function Hdlr(): (s: seq<Byte>)
    ensures |s| == 48
  {
    Box(HDLR, Words([0, 0, 0x76696465, 0, 0, 0, 0x56696465, 0x6F48616E, 0x646C6572, 0]))
  }

  function Vmhd(): (s: seq<Byte>)
    ensures |s| == 20
  {
    Box(VMHD, Words([1, 0, 0]))
  }

  function Dinf(): (s: seq<Byte>)
    ensures |s| == 36
  {
    Box(DINF, Box(DREF, Words([0, 1]) + Box(URL, Words([1]))))
  }

  /** A byte of the parameter set; the fixed buffer behind a short one reads as zero. */
  function ProfileByte(sps: seq<Byte>, i: nat, default: Byte): Byte {
    if sps == [] then default else if i < |sps| then sps[i] else 0
  }

  function AvcConfig(sps: seq<Byte>, pps: seq<Byte>): (s: seq<Byte>)
    ensures |s| == 19 + |sps| + |pps|
  {
    Box(AVC_CONFIG,
        [1, ProfileByte(sps, 1, 66), ProfileByte(sps, 2, 0), ProfileByte(sps, 3, 30), 0xFF, 0xE1]
        + Be16(|sps|) + sps + [1] + Be16(|pps|) + pps)
  }

  /** The fixed 78 bytes of a visual sample entry; the encoder name is "rkvenc". */
  function EntryFields(w: nat, h: nat): (s: seq<Byte>)
    ensures |s| == 78
  {
    Words([0, 1, 0, 0, 0, 0, w % TWO16 * TWO16 + h % TWO16, 0x48_0000, 0x48_0000, 0])
    + Be16(1) + Words([0x726B7665, 0x6E630000, 0, 0, 0, 0, 0, 0]) + Be16(24) + Be16(0xFFFF)
  }

  function Stsd(w: nat, h: nat, sps: seq<Byte>, pps: seq<Byte>): (s: seq<Byte>)
    ensures |s| == 121 + |sps| + |pps|
  {
    Box(STSD, Words([0, 1]) + Box(AVC1, EntryFields(w, h) + AvcConfig(sps, pps)))
  }

  // ---------------------------------------------------------------- containers around the sample tables

  function Stbl(stsd: seq<Byte>, tables: seq<Byte>): (s: seq<Byte>)
    ensures |s| == 8 + |stsd| + |tables|
  {
    Box(STBL, stsd + tables)
  }

  function Minf(stbl: seq<Byte>): (s: seq<Byte>)
    ensures |s| == 64 + |stbl|
  {
    Box(MINF, Vmhd() + (Dinf() + stbl))
  }

  function Mdia(duration: nat, minf: seq<Byte>): (s: seq<Byte>)
    ensures |s| == 88 + |minf|
  {
    Box(MDIA, Mdhd(duration) + (Hdlr() + minf))
  }

  datatype Track = Track(duration: nat, w: nat, h: nat, sps: seq<Byte>, pps: seq<Byte>)

  /** The track with the given sample tables. */
  function Trak(t: Track, tables: seq<Byte>): (s: seq<Byte>)
    ensures |s| == 381 + |t.sps| + |t.pps| + |tables|
  {
    Box(TRAK, Tkhd(t.duration, t.w, t.h) + Mdia(t.duration, Minf(Stbl(Stsd(t.w, t.h, t.sps, t.pps), tables))))
  }

  function Movie(durationMs: nat, t: Track, tables: seq<Byte>): (s: seq<Byte>)
    ensures |s| == 497 + |t.sps| + |t.pps| + |tables|
  {
    Box(MOOV, Mvhd(durationMs) + Trak(t, tables))
  }

  // ---------------------------------------------------------------- sample tables

  function Stts(n: nat, delta: nat): (s: seq<Byte>)
    ensures |s| == 24
  {
    Box(STTS, Words([0, 1, n, delta]))
  }

  function Stsc(): (s: seq<Byte>)
    ensures |s| == 28
  {
    Box(STSC, Words([0, 1, 1, 1, 1]))
  }

  function Stsz(sizes: seq<nat>): (s: seq<Byte>)
    ensures |s| == 20 + 4 * |sizes|
  {
    Box(STSZ, Words([0, 0, |sizes|] + sizes))
  }

  function Stco(offsets: seq<nat>): (s: seq<Byte>)
    ensures |s| == 16 + 4 * |offsets|
  {
    Box(STCO, Words([0, |offsets|] + offsets))
  }

  function Stss(keys: seq<nat>): (s: seq<Byte>)
    ensures |s| == 16 + 4 * |keys|
  {
    Box(STSS, Words([0, |keys|] + keys))
  }

  /** One chunk per sample; every sample lasts `delta`. */
  function Tables(delta: nat, sizes: seq<nat>, offsets: seq<nat>, keys: seq<nat>): (s: seq<Byte>)
    ensures |s| == 104 + 4 * (|sizes| + |offsets| + |keys|)
  {
    Stts(|sizes|, delta) + (Stsc() + (Stsz(sizes) + (Stco(offsets) + Stss(keys))))
  }

  /** The four tables of a stream that announces no samples. */
  function EmptyTables(): (s: seq<Byte>)
    ensures |s| == 68
  {
    Box(STTS, Words([0, 0])) + (Box(STSC, Words([0, 0])) + (Box(STSZ, Words([0, 0, 0])) + Box(STCO, Words([0, 0]))))
  }

  function Mvex(): (s: seq<Byte>)
    ensures |s| == 56
  {
    Box(MVEX, Box(MEHD, Words([0, 0])) + Box(TREX, Words([0, 1, 1, 0, 0, 0])))
  }

  /** Brand mp42, compatible with mp42, mp41 and isom. */
  function Ftyp(): (s: seq<Byte>)
    ensures |s| == 28
  {
    Box(FTYP, Words([0x6D703432, 0, 0x6D703432, 0x6D703431, 0x69736F6D]))
  }

  /** What a live client receives first. */
  function InitSegment(t: Track): seq<Byte> {
    Ftyp() + Box(MOOV, Mvhd(0) + (Trak(t, EmptyTables()) + Mvex()))
  }

  // ---------------------------------------------------------------- fragments

  function Trun(key: bool, duration: nat, size: nat): (s: seq<Byte>)
    ensures |s| == 32
  {
    Box(TRUN, Words([0x305, 1, 108, if key then 0x0200_0000 else 0x0101_0000, duration, size]))
  }

  function Traf(key: bool, time: nat, duration: nat, size: nat): (s: seq<Byte>)
    ensures |s| == 76
  {
    Box(TRAF, Box(TFHD, Words([0x20000, 1]))
              + (Box(TFDT, Words([0x0100_0000, time / TWO32, time])) + Trun(key, duration, size)))
  }

  function Moof(number: nat, key: bool, time: nat, duration: nat, size: nat): (s: seq<Byte>)
    ensures |s| == 100
  {
    Box(MOOF, Box(MFHD, Words([0, number])) + Traf(key, time, duration, size))
  }

  /** One frame of the live stream: header boxes and the sample behind them. */
  function Fragment(number: nat, key: bool, time: nat, duration: nat, sample: seq<Byte>): seq<Byte> {
    Moof(number, key, time, duration, |sample|) + Box(MDAT, sample)
  }
}
