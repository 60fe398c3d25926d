/**
 * The writers: boxes emitted front to back, every size declared before the contents exist.
 * Each method is proved to produce the nested form, so the declared sizes are the real ones.
 */
module BoxWriting {
  import opened Bytes
  import opened Avcc
  import opened Boxes
  import opened Moov

  /** Header of the sample table box and the description, before tables of n bytes. */
  function StblHead(stsd: seq<Byte>, n: nat): (s: seq<Byte>)
    ensures |s| == 8 + |stsd|
  {
    Header(8 + |stsd| + n, STBL) + stsd
  }

  function MinfHead(stsd: seq<Byte>, n: nat): (s: seq<Byte>)
    ensures |s| == 72 + |stsd|
  {
    Header(72 + |stsd| + n, MINF) + (Vmhd() + (Dinf() + StblHead(stsd, n)))
  }

  function MdiaHead(duration: nat, stsd: seq<Byte>, n: nat): (s: seq<Byte>)
    ensures |s| == 160 + |stsd|
  {
    Header(160 + |stsd| + n, MDIA) + (Mdhd(duration) + (Hdlr() + MinfHead(stsd, n)))
  }

  /** Everything of a track in front of its sample tables of n bytes. */
  function TrakHead(t: Track, n: nat): (s: seq<Byte>)
    ensures |s| == 381 + |t.sps| + |t.pps|
  {
    Header(381 + |t.sps| + |t.pps| + n, TRAK)
    + (Tkhd(t.duration, t.w, t.h) + MdiaHead(t.duration, Stsd(t.w, t.h, t.sps, t.pps), n))
  }

  lemma MinfHeadIs(stsd: seq<Byte>, tables: seq<Byte>)
    ensures MinfHead(stsd, |tables|) + tables == Minf(Stbl(stsd, tables))
  {
    hide Header, Words, Vmhd, Dinf;
    Associative(Header(8 + |stsd| + |tables|, STBL), stsd, tables);
  }

  lemma MdiaHeadIs(duration: nat, stsd: seq<Byte>, tables: seq<Byte>)
    ensures MdiaHead(duration, stsd, |tables|) + tables == Mdia(duration, Minf(Stbl(stsd, tables)))
  {
    hide Header, Words, Mdhd, Hdlr, MinfHead, Minf, Stbl;
    MinfHeadIs(stsd, tables);
  }

  /** The flat form with precomputed sizes, followed by tables of the announced length, is the nested track. */
  lemma TrakHeadIs(t: Track, tables: seq<Byte>)
    ensures TrakHead(t, |tables|) + tables == Trak(t, tables)
  {
    hide Header, Words, Tkhd, MdiaHead, Mdia, Minf, Stbl, Stsd;
    var stsd := Stsd(t.w, t.h, t.sps, t.pps);
    MdiaHeadIs(t.duration, stsd, tables);
    var size := Header(381 + |t.sps| + |t.pps| + |tables|, TRAK);
    assert (size + (Tkhd(t.duration, t.w, t.h) + MdiaHead(t.duration, stsd, |tables|))) + tables
        == size + (Tkhd(t.duration, t.w, t.h) + (MdiaHead(t.duration, stsd, |tables|) + tables));
  }

  class BoxWriter {
    var out: seq<Byte>

    constructor ()
      ensures out == []
    {
      out := [];
    }

    method U8(v: Byte)
      modifies this
      ensures out == old(out) + [v]
    {
      out := out + [v];
    }

    method U16(v: nat)
      modifies this
      ensures out == old(out) + Be16(v)
    {
      out := out + [v / 256 % 256, v % 256];
    }

    method U32(v: nat)
      modifies this
      ensures out == old(out) + Be32(v)
    {
      out := out + [v / 256 / 256 / 256 % 256, v / 256 / 256 % 256, v / 256 % 256, v % 256];
    }

    method Raw(s: seq<Byte>)
      modifies this
      ensures out == old(out) + s
    {
      out := out + s;
    }

    /** A run of 32-bit fields. */
    method U32s(ws: seq<nat>)
      modifies this
      ensures out == old(out) + Words(ws)
    {
      hide Be32;
      var i := 0;
      while i < |ws|
        invariant i <= |ws| && out == old(out) + Words(ws[..i])
      {
        assert ws[..i + 1][..i] == ws[..i];
        U32(ws[i]);
        i := i + 1;
      }
      assert ws[..i] == ws;
    }

    method Head(size: nat, kind: nat)
      modifies this
      ensures out == old(out) + Header(size, kind)
    {
      U32(size);
      U32(kind);
    }

    /** A box that holds only 32-bit fields, under the size the caller declares. */
    method WordBox(size: nat, kind: nat, ws: seq<nat>)
      requires size == 8 + 4 * |ws|
      modifies this
      ensures out == old(out) + Box(kind, Words(ws))
    {
      hide Header;
      Head(size, kind);
      U32s(ws);
    }

    // ---------------------------------------------------------------- track

    method PutAvcConfig(size: nat, sps: seq<Byte>, pps: seq<Byte>)
      requires size == 19 + |sps| + |pps|
      modifies this
      ensures out == old(out) + AvcConfig(sps, pps)
    {
      hide Be32, Be16, ProfileByte, Header;
      ghost var base := out;
      Head(size, AVC_CONFIG);
      U8(1);
      U8(ProfileByte(sps, 1, 66));
      U8(ProfileByte(sps, 2, 0));
      U8(ProfileByte(sps, 3, 30));
      U8(0xFF);
      U8(0xE1);
      assert out == base + (Header(size, AVC_CONFIG) + [1, ProfileByte(sps, 1, 66), ProfileByte(sps, 2, 0),
                                                       ProfileByte(sps, 3, 30), 0xFF, 0xE1]);
      U16(|sps|);
      Raw(sps);
      U8(1);
      U16(|pps|);
      Raw(pps);
    }

    method PutEntryFields(w: nat, h: nat)
      modifies this
      ensures out == old(out) + EntryFields(w, h)
    {
      hide Be32, Be16, Words;
      U32s([0, 1, 0, 0, 0, 0, w % TWO16 * TWO16 + h % TWO16, 0x48_0000, 0x48_0000, 0]);
      U16(1);
      U32s([0x726B7665, 0x6E630000, 0, 0, 0, 0, 0, 0]);
      U16(24);
      U16(0xFFFF);
    }

    method PutStsd(stsdSize: nat, avc1Size: nat, avcCSize: nat, t: Track)
      requires avcCSize == 19 + |t.sps| + |t.pps| && avc1Size == 86 + avcCSize && stsdSize == 16 + avc1Size
      modifies this
      ensures out == old(out) + Stsd(t.w, t.h, t.sps, t.pps)
    {
      hide Header, Words, EntryFields, AvcConfig;
      Head(stsdSize, STSD);
      U32s([0, 1]);
      Head(avc1Size, AVC1);
      PutEntryFields(t.w, t.h);
      PutAvcConfig(avcCSize, t.sps, t.pps);
    }

    method PutDinf()
      modifies this
      ensures out == old(out) + Dinf()
    {
      hide Header, Words;
      Head(36, DINF);
      Head(28, DREF);
      U32s([0, 1]);
      WordBox(12, URL, [1]);
    }

    /** Everything of a track in front of its sample tables, which the caller announces to be n bytes. */
    method PutTrakHead(t: Track, n: nat)
      modifies this
      ensures out == old(out) + TrakHead(t, n)
    {
      var avcCSize := 19 + |t.sps| + |t.pps|;
      var avc1Size := 86 + avcCSize;
      var stsdSize := 16 + avc1Size;
      var stblSize := 8 + stsdSize + n;
      var minfSize := 8 + 20 + 36 + stblSize;
      var mdiaSize := 8 + 32 + 48 + minfSize;
      var trakSize := 8 + 92 + mdiaSize;
      hide Header, Words, Stsd, Dinf, Box;
      ghost var base := out;
      Head(trakSize, TRAK);
      WordBox(92, TKHD, [7, 0, 0, 1, 0, t.duration, 0, 0, 0, 0x0100_0000] + MATRIX + [t.w * TWO16, t.h * TWO16]);
      ghost var a := Header(trakSize, TRAK);
      ghost var b := Tkhd(t.duration, t.w, t.h);
      assert out == base + (a + b);
      Head(mdiaSize, MDIA);
      WordBox(32, MDHD, [0, 0, 0, 90000, t.duration, 0x55C4_0000]);
      WordBox(48, HDLR, [0, 0, 0x76696465, 0, 0, 0, 0x56696465, 0x6F48616E, 0x646C6572, 0]);
      ghost var c := Header(mdiaSize, MDIA) + (Mdhd(t.duration) + Hdlr());
      assert out == base + (a + b) + c;
      Head(minfSize, MINF);
      WordBox(20, VMHD, [1, 0, 0]);
      PutDinf();
      ghost var d := Header(minfSize, MINF) + (Vmhd() + Dinf());
      assert out == base + (a + b) + c + d;
      Head(stblSize, STBL);
      PutStsd(stsdSize, avc1Size, avcCSize, t);
      ghost var e := Header(stblSize, STBL) + Stsd(t.w, t.h, t.sps, t.pps);
      assert out == base + (a + b) + c + d + e;
      assert TrakHead(t, n) == a + (b + (c + (d + e)));
    }

    method PutMvhd(durationMs: nat)
      modifies this
      ensures out == old(out) + Mvhd(durationMs)
    {
      WordBox(108, MVHD,
              [0, 0, 0, 1000, durationMs, 0x1_0000, 0x0100_0000, 0, 0] + MATRIX + [0, 0, 0, 0, 0, 0, 2]);
    }

    /** The movie header at the end of a recording. */
    method PutMoov(durationMs: nat, t: Track, delta: nat, sizes: seq<nat>, offsets: seq<nat>, keys: seq<nat>)
      requires |sizes| == |offsets|
      modifies this
      ensures out == old(out) + Movie(durationMs, t, Tables(delta, sizes, offsets, keys))
    {
      var n, k := |sizes|, |keys|;
      var stssSize := 16 + 4 * k;
      var stszSize := 20 + 4 * n;
      var stcoSize := 16 + 4 * n;
      var tablesSize := 24 + 28 + stszSize + stcoSize + stssSize;
      hide Header, Words, Box, Mvhd, TrakHead, Trak;
      ghost var base, tables := out, Tables(delta, sizes, offsets, keys);
      Head(8 + 108 + 381 + |t.sps| + |t.pps| + tablesSize, MOOV);
      PutMvhd(durationMs);
      PutTrakHead(t, tablesSize);
      ghost var a := Header(497 + |t.sps| + |t.pps| + tablesSize, MOOV) + Mvhd(durationMs);
      assert out == base + a + TrakHead(t, tablesSize);
      PutTables(delta, sizes, offsets, keys);
      TrakHeadIs(t, tables);
      assert out == base + (a + Trak(t, tables));
      MovieIs(durationMs, t, tables);
    }

    method PutTables(delta: nat, sizes: seq<nat>, offsets: seq<nat>, keys: seq<nat>)
      requires |sizes| == |offsets|
      modifies this
      ensures out == old(out) + Tables(delta, sizes, offsets, keys)
    {
      var n, k := |sizes|, |keys|;
      hide Header, Words, Box;
      ghost var base := out;
      WordBox(24, STTS, [0, 1, n, delta]);
      WordBox(28, STSC, [0, 1, 1, 1, 1]);
      WordBox(20 + 4 * n, STSZ, [0, 0, n] + sizes);
      WordBox(16 + 4 * n, STCO, [0, n] + offsets);
      WordBox(16 + 4 * k, STSS, [0, k] + keys);
      assert out == base + Stts(n, delta) + Stsc() + Stsz(sizes) + Stco(offsets) + Stss(keys);
    }

    // ---------------------------------------------------------------- live stream

    method PutEmptyTables()
      modifies this
      ensures out == old(out) + EmptyTables()
    {
      hide Header, Words, Box;
      WordBox(16, STTS, [0, 0]);
      WordBox(16, STSC, [0, 0]);
      WordBox(20, STSZ, [0, 0, 0]);
      WordBox(16, STCO, [0, 0]);
    }

    method PutMvex()
      modifies this
      ensures out == old(out) + Mvex()
    {
      hide Header, Words;
      Head(8 + 16 + 32, MVEX);
      WordBox(16, MEHD, [0, 0]);
      WordBox(32, TREX, [0, 1, 1, 0, 0, 0]);
    }

    method PutFtyp()
      modifies this
      ensures out == old(out) + Ftyp()
    {
      WordBox(28, FTYP, [0x6D703432, 0, 0x6D703432, 0x6D703431, 0x69736F6D]);
    }

    /** Rewrites the buffer with the initialisation segment. */
    method BuildInit(t: Track)
      modifies this
      ensures out == InitSegment(t)
    {
      hide Header, Words, Box, Ftyp, Mvhd, TrakHead, Trak, EmptyTables, Mvex;
      out := [];
      PutFtyp();
      var moovSize := 8 + 108 + (381 + |t.sps| + |t.pps| + 68) + 56;
      Head(moovSize, MOOV);
      PutMvhd(0);
      PutTrakHead(t, 68);
      PutEmptyTables();
      PutMvex();
      TrakHeadIs(t, EmptyTables());
      ghost var h := Header(moovSize, MOOV);
      assert out == Ftyp() + (h + (Mvhd(0) + ((TrakHead(t, 68) + EmptyTables()) + Mvex())));
      BoxIs(MOOV, Mvhd(0) + (Trak(t, EmptyTables()) + Mvex()));
    }

    method PutMoof(number: nat, key: bool, time: nat, duration: nat, size: nat)
      modifies this
      ensures out == old(out) + Moof(number, key, time, duration, size)
    {
      hide Header, Words, Trun;
      ghost var base := out;
      Head(100, MOOF);
      WordBox(16, MFHD, [0, number]);
      ghost var a := Header(100, MOOF) + Box(MFHD, Words([0, number]));
      Head(76, TRAF);
      WordBox(16, TFHD, [0x20000, 1]);
      WordBox(20, TFDT, [0x0100_0000, time / TWO32, time]);
      PutTrun(key, duration, size);
      assert out == base + a + Traf(key, time, duration, size);
    }

    method PutTrun(key: bool, duration: nat, size: nat)
      modifies this
      ensures out == old(out) + Trun(key, duration, size)
    {
      WordBox(32, TRUN, [0x305, 1, 108, if key then 0x0200_0000 else 0x0101_0000, duration, size]);
    }

    /**
     * One frame as a fragment: the sample is sized first, announced, and then written.  Returns
     * the number of bytes, 0 when the frame has no picture data or memory is short.
     */
    method BuildFragment(annexb: seq<Byte>, key: bool, number: nat, time: nat, duration: nat, memOk: bool)
      returns (n: nat)
      modifies this
      ensures n > 0 <==> Sample(annexb) != [] && memOk
      ensures n > 0 ==> n == |out| && out == Fragment(number, key, time, duration, Sample(annexb))
    {
      hide Header, Words, Moof, Sample, Fragment;
      var avcc := AvccSize(annexb);
      if avcc == 0 {
        return 0;
      }
      out := [];
      PutMoof(number, key, time, duration, avcc);
      Head(8 + avcc, MDAT);
      if !memOk {
        return 0;
      }
      var payload := new Byte[avcc];
      AvccWrite(payload, 0, annexb);
      assert payload[..] == Sample(annexb);
      Raw(payload[..]);
      FragmentIs(number, key, time, duration, Sample(annexb));
      n := |out|;
    }
  }

  lemma FragmentIs(number: nat, key: bool, time: nat, duration: nat, sample: seq<Byte>)
    ensures Fragment(number, key, time, duration, sample)
         == (Moof(number, key, time, duration, |sample|) + Header(8 + |sample|, MDAT)) + sample
  {
    hide Header, Moof;
  }

  lemma BoxIs(kind: nat, body: seq<Byte>)
    ensures Box(kind, body) == Header(8 + |body|, kind) + body
  {
  }

  lemma MovieIs(durationMs: nat, t: Track, tables: seq<Byte>)
    ensures Movie(durationMs, t, tables)
         == (Header(497 + |t.sps| + |t.pps| + |tables|, MOOV) + Mvhd(durationMs)) + Trak(t, tables)
  {
    hide Header, Mvhd, Trak;
  }
}
