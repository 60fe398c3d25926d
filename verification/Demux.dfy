/**
 * Reading files and fragments back: a reader that trusts nothing but the declared sizes and
 * the tables recovers exactly the units that were written.
 */
module Demux {
  import opened Common
  import opened Bytes
  import opened AnnexB
  import opened Boxes
  import opened Moov
  import opened Recording

  // ---------------------------------------------------------------- the reader

  /** The units of a sample, by their length prefixes; empty units included. */
  function Unprefix(d: seq<Byte>): seq<Nal> {
    if |d| < 4 || 4 + ReadBe32(d, 0) > |d| then []
    else
      var len := ReadBe32(d, 0);
      [d[4..4 + len]] + Unprefix(d[4 + len..])
  }

  /** Follows a path of nested boxes from the boxes in [at, end). */
  function Descend(d: seq<Byte>, at: nat, end: nat, path: seq<nat>): (r: Option<(nat, nat)>)
    requires at <= end <= |d|
    ensures r.Some? ==> at <= r.value.0 <= r.value.1 <= end
    decreases |path|
  {
    if path == [] then Some((at, end))
    else
      var b := FindBox(d, at, end, path[0]);
      if b.None? then None else Descend(d, b.value.0, b.value.1, path[1..])
  }

  /** A table of 32-bit fields, `per` for each entry, behind its count, which is the last word of `skip` bytes. */
  function ReadTable(d: seq<Byte>, at: nat, end: nat, skip: nat, per: nat): Option<seq<nat>>
    requires end <= |d| && skip >= 4
  {
    if at + skip > end then None
    else
      var n := ReadBe32(d, at + skip - 4) * per;
      if at + skip + 4 * n > end then None
      else Some(seq(n, i requires 0 <= i < n && at + skip + 4 * n <= |d| => ReadBe32(d, at + skip + 4 * i)))
  }

  const TO_TABLES: seq<nat> := [MOOV, TRAK, MDIA, MINF, STBL]

  function TableOf(d: seq<Byte>, stbl: (nat, nat), kind: nat, skip: nat, per: nat): Option<seq<nat>>
    requires stbl.0 <= stbl.1 <= |d| && skip >= 4
  {
    var b := FindBox(d, stbl.0, stbl.1, kind);
    if b.None? then None else ReadTable(d, b.value.0, b.value.1, skip, per)
  }

  /**
   * Samples in chunk c, counted from 1, by the chunk table: runs of (first chunk, samples per chunk,
   * description), each in force up to the next (section 8.7.4 of ISO/IEC 14496-12).
   */
  function InChunk(runs: seq<nat>, c: nat): nat
    decreases |runs|
  {
    var m := |runs| - 3;
    if m < 0 then 0 else if runs[m] <= c then runs[m + 1] else InChunk(runs[..m], c)
  }

  function Sum(xs: seq<nat>): nat { if xs == [] then 0 else Sum(xs[..|xs| - 1]) + xs[|xs| - 1] }

  /**
   * Where sample i begins: the offset of its chunk plus the sizes of the samples before it in the
   * chunk.  Looks from chunk c on, counted from 0, whose first sample is `first`.
   */
  function SampleOffset(runs: seq<nat>, offsets: seq<nat>, sizes: seq<nat>, c: nat, first: nat, i: nat): Option<nat>
    requires first <= i < |sizes|
    decreases |offsets| - c
  {
    if c >= |offsets| then None
    else if i < first + InChunk(runs, c + 1) then Some(offsets[c] + Sum(sizes[first..i]))
    else SampleOffset(runs, offsets, sizes, c + 1, first + InChunk(runs, c + 1), i)
  }

  /** Sample durations: runs of (number of samples, duration). */
  function Durations(runs: seq<nat>): seq<nat>
    decreases |runs|
  {
    if |runs| < 2 then [] else seq(runs[0], _ => runs[1]) + Durations(runs[2..])
  }

  /** The sample tables of a track. */
  datatype Index = Index(sizes: seq<nat>, chunks: seq<nat>, offsets: seq<nat>, times: seq<nat>, keys: seq<nat>) {
    /** Sample i lies within a file of n bytes. */
    predicate Within(i: nat, n: nat)
      requires i < |sizes|
    {
      var o := SampleOffset(chunks, offsets, sizes, 0, 0, i);
      o.Some? && o.value + sizes[i] <= n
    }
  }

  /** The sample sizes; a file that gives one size for all samples instead is not read. */
  function SizesOf(d: seq<Byte>, stbl: (nat, nat)): Option<seq<nat>>
    requires stbl.0 <= stbl.1 <= |d|
  {
    var b := FindBox(d, stbl.0, stbl.1, STSZ);
    if b.None? || b.value.0 + 8 > |d| || ReadBe32(d, b.value.0 + 4) != 0 then None
    else TableOf(d, stbl, STSZ, 12, 1)
  }

  function ReadIndex(d: seq<Byte>, stbl: (nat, nat)): Option<Index>
    requires stbl.0 <= stbl.1 <= |d|
  {
    var sizes := SizesOf(d, stbl);
    var chunks := TableOf(d, stbl, STSC, 8, 3);
    var offsets := TableOf(d, stbl, STCO, 8, 1);
    var times := TableOf(d, stbl, STTS, 8, 2);
    var keys := TableOf(d, stbl, STSS, 8, 1);
    if sizes.None? || chunks.None? || offsets.None? || times.None? || keys.None? then None
    else Some(Index(sizes.value, chunks.value, offsets.value, Durations(times.value), keys.value))
  }

  datatype Clip = Clip(frames: seq<seq<Nal>>, times: seq<nat>, keys: seq<nat>)

  /** Sample i of the file, taken apart. */
  function SampleUnits(d: seq<Byte>, x: Index, i: nat): seq<Nal>
    requires i < |x.sizes| && x.Within(i, |d|)
  {
    var at := SampleOffset(x.chunks, x.offsets, x.sizes, 0, 0, i).value;
    Unprefix(d[at..at + x.sizes[i]])
  }

  /** Reads a whole recording; None when the file does not hang together. */
  function DemuxFile(d: seq<Byte>): Option<Clip> {
    var stbl := Descend(d, 0, |d|, TO_TABLES);
    if stbl.None? then None
    else
      var index := ReadIndex(d, stbl.value);
      if index.None? then None
      else
        var x := index.value;
        if |x.times| != |x.sizes| || exists i :: 0 <= i < |x.sizes| && !x.Within(i, |d|) then None
        else
          Some(Clip(seq(|x.sizes|, i requires 0 <= i < |x.sizes| && x.Within(i, |d|) => SampleUnits(d, x, i)),
                    x.times, x.keys))
  }

  // ---------------------------------------------------------------- samples

  lemma {:induction false} UnprefixPrefixed(nals: seq<Nal>)
    requires |Prefixed(nals)| < TWO32
    ensures Unprefix(Prefixed(nals)) == nals
  {
    if nals != [] {
      var d, n, rest := Prefixed(nals), nals[0], nals[1..];
      assert d == Be32(|n|) + (n + Prefixed(rest));
      UnprefixPrefixed(rest);
      UnprefixStep(n, Prefixed(rest));
      assert nals == [n] + rest;
    }
  }

  lemma UnprefixStep(n: Nal, rest: seq<Byte>)
    requires |n| < TWO32
    ensures Unprefix(Be32(|n|) + (n + rest)) == [n] + Unprefix(rest)
  {
    hide Be32;
    var d := Be32(|n|) + (n + rest);
    assert ReadBe32(d, 0) == |n| by { LiesWord(d, 0, |n|); }
    hide ReadBe32;
    assert d[4..4 + |n|] == n;
    assert d[4 + |n|..] == rest;
  }

  // ---------------------------------------------------------------- finding the tables

  lemma DescendInto(d: seq<Byte>, at: nat, end: nat, s: seq<Byte>, path: seq<nat>)
    requires path != [] && Lies(d, at, s) && IsBox(s, path[0]) && at + |s| <= end <= |d|
    ensures Descend(d, at, end, path) == Descend(d, at + 8, at + |s|, path[1..])
    ensures Lies(d, at + 8, s[8..])
  {
    hide IsBox, FindBox, Lies;
    assert Lies(d, at, s) && IsBox(s, path[0]);
    FindHit(d, at, end, s, path[0]);
  }

  lemma DescendPast(d: seq<Byte>, at: nat, end: nat, s: seq<Byte>, other: nat, path: seq<nat>)
    requires path != [] && Lies(d, at, s) && IsBox(s, other) && other != path[0] && at + |s| <= end <= |d|
    ensures at + |s| <= end && Descend(d, at, end, path) == Descend(d, at + |s|, end, path)
  {
    hide IsBox, FindBox;
    FindSkip(d, at, end, s, other, path[0]);
  }

  /** A box whose body is some leaf boxes and then the box to descend into. */
  lemma ThroughOne(d: seq<Byte>, at: nat, end: nat, leaf: seq<Byte>, other: nat, s: seq<Byte>, path: seq<nat>)
    requires path != [] && Lies(d, at, leaf + s) && at + |leaf| + |s| <= end <= |d|
    requires IsBox(leaf, other) && other != path[0] && IsBox(s, path[0])
    ensures Descend(d, at, end, path) == Descend(d, at + |leaf| + 8, at + |leaf| + |s|, path[1..])
    ensures Lies(d, at + |leaf| + 8, s[8..])
  {
    hide IsBox, Descend, Lies;
    LiesSplit(d, at, leaf, s);
    DescendPast(d, at, end, leaf, other, path);
    DescendInto(d, at + |leaf|, end, s, path);
  }

  lemma ThroughTwo(d: seq<Byte>, at: nat, end: nat, leaf: seq<Byte>, other: nat, leaf2: seq<Byte>, other2: nat,
                   s: seq<Byte>, path: seq<nat>)
    requires path != [] && Lies(d, at, leaf + (leaf2 + s)) && at + |leaf| + |leaf2| + |s| <= end <= |d|
    requires IsBox(leaf, other) && other != path[0] && IsBox(leaf2, other2) && other2 != path[0] && IsBox(s, path[0])
    ensures var p := at + |leaf| + |leaf2|;
            Descend(d, at, end, path) == Descend(d, p + 8, p + |s|, path[1..]) && Lies(d, p + 8, s[8..])
  {
    hide IsBox, Descend, Lies;
    LiesSplit(d, at, leaf, leaf2 + s);
    DescendPast(d, at, end, leaf, other, path);
    ThroughOne(d, at + |leaf|, end, leaf2, other2, s, path);
  }

  lemma LeafBoxes(durationMs: nat, t: Track)
    ensures IsBox(Ftyp(), FTYP) && IsBox(Mvhd(durationMs), MVHD) && IsBox(Tkhd(t.duration, t.w, t.h), TKHD)
    ensures IsBox(Mdhd(t.duration), MDHD) && IsBox(Hdlr(), HDLR) && IsBox(Vmhd(), VMHD) && IsBox(Dinf(), DINF)
  {
    hide Header, Words, IsBox, Box;
    BoxIsBox(FTYP, Words([0x6D703432, 0, 0x6D703432, 0x6D703431, 0x69736F6D]));
    BoxIsBox(MVHD, Words([0, 0, 0, 1000, durationMs, 0x1_0000, 0x0100_0000, 0, 0] + MATRIX + [0, 0, 0, 0, 0, 0, 2]));
    BoxIsBox(TKHD, Words([7, 0, 0, 1, 0, t.duration, 0, 0, 0, 0x0100_0000] + MATRIX + [t.w * TWO16, t.h * TWO16]));
    BoxIsBox(MDHD, Words([0, 0, 0, 90000, t.duration, 0x55C4_0000]));
    BoxIsBox(HDLR, Words([0, 0, 0x76696465, 0, 0, 0, 0x56696465, 0x6F48616E, 0x646C6572, 0]));
    BoxIsBox(VMHD, Words([1, 0, 0]));
    BoxIsBox(DINF, Box(DREF, Words([0, 1]) + Box(URL, Words([1]))));
  }

  /** Inside a movie box the path leads through the track to the sample description and tables. */
  lemma TrackTables(d: seq<Byte>, at: nat, end: nat, durationMs: nat, t: Track, tables: seq<Byte>)
    requires Lies(d, at, Mvhd(durationMs) + Trak(t, tables))
    requires |Trak(t, tables)| < TWO32 && at + 108 + |Trak(t, tables)| <= end <= |d|
    ensures var last := at + 108 + |Trak(t, tables)|;
            var stsd := Stsd(t.w, t.h, t.sps, t.pps);
            && Descend(d, at, end, TO_TABLES[1..]) == Some((last - |tables| - |stsd|, last))
            && Lies(d, last - |tables| - |stsd|, stsd + tables)
  {
    var stsd := Stsd(t.w, t.h, t.sps, t.pps);
    var stbl := Stbl(stsd, tables);
    var minf := Minf(stbl);
    var mdia := Mdia(t.duration, minf);
    var trak := Trak(t, tables);
    hide Header, Words, IsBox, Descend, Ftyp, Mvhd, Tkhd, Mdhd, Hdlr, Vmhd, Dinf, Stsd, Lies;
    LeafBoxes(durationMs, t);
    BoxIsBox(TRAK, Tkhd(t.duration, t.w, t.h) + mdia);
    BoxIsBox(MDIA, Mdhd(t.duration) + (Hdlr() + minf));
    BoxIsBox(MINF, Vmhd() + (Dinf() + stbl));
    BoxIsBox(STBL, stsd + tables);
    hide Box, Trak, Mdia, Minf, Stbl;
    ThroughOne(d, at, end, Mvhd(durationMs), MVHD, trak, TO_TABLES[1..]);
    var p := at + 108;
    ThroughOne(d, p + 8, p + |trak|, Tkhd(t.duration, t.w, t.h), TKHD, mdia, TO_TABLES[1..][1..]);
    p := p + 8 + 92;
    ThroughTwo(d, p + 8, p + |mdia|, Mdhd(t.duration), MDHD, Hdlr(), HDLR, minf, TO_TABLES[1..][1..][1..]);
    p := p + 8 + 32 + 48;
    ThroughTwo(d, p + 8, p + |minf|, Vmhd(), VMHD, Dinf(), DINF, stbl, TO_TABLES[1..][1..][1..][1..]);
    p := p + 8 + 20 + 36;
    DescendEnd(d, p + 8, p + |stbl|, TO_TABLES[1..][1..][1..][1..][1..]);
  }

  lemma MovieTables(d: seq<Byte>, at: nat, end: nat, durationMs: nat, t: Track, tables: seq<Byte>)
    requires var m := Movie(durationMs, t, tables); Lies(d, at, m) && |m| < TWO32 && at + |m| <= end <= |d|
    ensures var m := Movie(durationMs, t, tables);
            && Descend(d, at, end, TO_TABLES)
               == Some((at + |m| - |tables| - |Stsd(t.w, t.h, t.sps, t.pps)|, at + |m|))
            && Lies(d, at + |m| - |tables| - |Stsd(t.w, t.h, t.sps, t.pps)|, Stsd(t.w, t.h, t.sps, t.pps) + tables)
  {
    var movie := Movie(durationMs, t, tables);
    hide Header, Words, IsBox, Descend, Mvhd, Trak, Stsd, Lies;
    BoxIsBox(MOOV, Mvhd(durationMs) + Trak(t, tables));
    hide Box;
    DescendInto(d, at, end, movie, TO_TABLES);
    TrackTables(d, at + 8, at + |movie|, durationMs, t, tables);
  }

  lemma DescendEnd(d: seq<Byte>, at: nat, end: nat, path: seq<nat>)
    requires at <= end <= |d| && path == []
    ensures Descend(d, at, end, path) == Some((at, end))
  {
  }

  // ---------------------------------------------------------------- reading the tables

  lemma ReadTableIs(d: seq<Byte>, at: nat, head: seq<nat>, ws: seq<nat>, per: nat)
    requires head != [] && head[|head| - 1] * per == |ws| && head[|head| - 1] < TWO32
    requires Lies(d, at, Words(head + ws)) && forall i :: 0 <= i < |ws| ==> ws[i] < TWO32
    ensures ReadTable(d, at, at + 4 * |head + ws|, 4 * |head|, per) == Some(ws)
  {
    hide Words, ReadBe32;
    var all := head + ws;
    WordAt(d, at, all, |head| - 1);
    forall i | 0 <= i < |ws| ensures ReadBe32(d, at + 4 * |head| + 4 * i) == ws[i] {
      WordAt(d, at, all, |head| + i);
    }
    assert ReadTable(d, at, at + 4 * |all|, 4 * |head|, per).value == ws;
  }

  /** A table box found behind other boxes is read back. */
  lemma TableFound(d: seq<Byte>, stbl: (nat, nat), at: nat, kind: nat, head: seq<nat>, ws: seq<nat>,
                   per: nat)
    requires stbl.0 <= stbl.1 <= |d| && head != [] && head[|head| - 1] * per == |ws| && head[|head| - 1] < TWO32
    requires forall i :: 0 <= i < |ws| ==> ws[i] < TWO32
    requires var s := Box(kind, Words(head + ws));
             |s| < TWO32 && kind < TWO32 && Lies(d, at, s) && at + |s| <= stbl.1
             && FindBox(d, stbl.0, stbl.1, kind) == FindBox(d, at, stbl.1, kind)
    ensures TableOf(d, stbl, kind, 4 * |head|, per) == Some(ws)
  {
    hide Words, FindBox, Lies, IsBox, Box, ReadTable;
    var body := Words(head + ws);
    BoxIsBox(kind, body);
    FindHit(d, at, stbl.1, Box(kind, body), kind);
    ReadTableIs(d, at + 8, head, ws, per);
  }

  lemma TableBoxes(delta: nat, sizes: seq<nat>, offsets: seq<nat>)
    requires 20 + 4 * |sizes| < TWO32 && 16 + 4 * |offsets| < TWO32
    ensures IsBox(Stts(|sizes|, delta), STTS) && IsBox(Stsc(), STSC)
    ensures IsBox(Stsz(sizes), STSZ) && IsBox(Stco(offsets), STCO)
  {
    hide IsBox, Words, Box;
    BoxIsBox(STTS, Words([0, 1, |sizes|, delta]));
    BoxIsBox(STSC, Words([0, 1, 1, 1, 1]));
    BoxIsBox(STSZ, Words([0, 0, |sizes|] + sizes));
    BoxIsBox(STCO, Words([0, |offsets|] + offsets));
  }

  lemma LiesFive<T>(d: seq<T>, at: nat, a: seq<T>, b: seq<T>, c: seq<T>, e: seq<T>, f: seq<T>, g: seq<T>)
    requires Lies(d, at, a + (b + (c + (e + (f + g)))))
    ensures Lies(d, at, a) && Lies(d, at + |a|, b) && Lies(d, at + |a| + |b|, c)
    ensures Lies(d, at + |a| + |b| + |c|, e) && Lies(d, at + |a| + |b| + |c| + |e|, f)
    ensures Lies(d, at + |a| + |b| + |c| + |e| + |f|, g)
    ensures at + |a| + |b| + |c| + |e| + |f| + |g| <= |d|
  {
    LiesInside(d, at, a + (b + (c + (e + (f + g)))));
    hide Lies;
    LiesSplit(d, at, a, b + (c + (e + (f + g))));
    LiesSplit(d, at + |a|, b, c + (e + (f + g)));
    LiesSplit(d, at + |a| + |b|, c, e + (f + g));
    LiesSplit(d, at + |a| + |b| + |c|, e, f + g);
    LiesSplit(d, at + |a| + |b| + |c| + |e|, f, g);
  }

  lemma TablesFound(d: seq<Byte>, stbl: (nat, nat), stsd: seq<Byte>, delta: nat,
                    sizes: seq<nat>, offsets: seq<nat>, keys: seq<nat>)
    requires |sizes| == |offsets| && IsBox(stsd, STSD)
    requires Lies(d, stbl.0, stsd + Tables(delta, sizes, offsets, keys))
    requires stbl.1 == stbl.0 + |stsd + Tables(delta, sizes, offsets, keys)| <= |d| && stbl.1 - stbl.0 < TWO32
    requires forall i :: 0 <= i < |sizes| ==> sizes[i] < TWO32 && offsets[i] < TWO32
    requires forall i :: 0 <= i < |keys| ==> keys[i] < TWO32
    requires delta < TWO32
    ensures ReadIndex(d, stbl) == Some(Index(sizes, [1, 1, 1], offsets, Durations([|sizes|, delta]), keys))
  {
    var n, at := |sizes|, stbl.0;
    hide Words, TableOf, SizesOf, Lies, Box, Stts, Stsc, Stsz, Stco, Stss, IsBox, Durations;
    LiesFive(d, at, stsd, Stts(n, delta), Stsc(), Stsz(sizes), Stco(offsets), Stss(keys));
    TableBoxes(delta, sizes, offsets);
    TimesAndChunks(d, stbl, stsd, n, delta);
    SizesAndOffsets(d, stbl, stsd, delta, sizes, offsets);
    KeysAt(d, stbl, stsd, delta, sizes, offsets, keys);
  }

  lemma TimesAndChunks(d: seq<Byte>, stbl: (nat, nat), stsd: seq<Byte>, n: nat, delta: nat)
    requires HeadLies(d, stbl, stsd, n, delta) && n < TWO32 && delta < TWO32
    ensures TableOf(d, stbl, STTS, 8, 2) == Some([n, delta]) && TableOf(d, stbl, STSC, 8, 3) == Some([1, 1, 1])
  {
    var at, end := stbl.0, stbl.1;
    hide Words, FindBox, IsBox, TableOf, Lies, Box;
    FindSkip(d, at, end, stsd, STSD, STTS);
    assert [0, 1, n, delta] == [0, 1] + [n, delta] && [0, 1, 1, 1, 1] == [0, 1] + [1, 1, 1];
    TableFound(d, stbl, at + |stsd|, STTS, [0, 1], [n, delta], 2);
    FindSkip(d, at, end, stsd, STSD, STSC);
    FindSkip(d, at + |stsd|, end, Stts(n, delta), STTS, STSC);
    TableFound(d, stbl, at + |stsd| + 24, STSC, [0, 1], [1, 1, 1], 3);
  }

  /** The boxes before the sample sizes. */
  ghost predicate HeadLies(d: seq<Byte>, stbl: (nat, nat), stsd: seq<Byte>, n: nat, delta: nat) {
    && stbl.0 + |stsd| + 52 <= stbl.1 <= |d|
    && IsBox(stsd, STSD) && Lies(d, stbl.0, stsd)
    && IsBox(Stts(n, delta), STTS) && Lies(d, stbl.0 + |stsd|, Stts(n, delta))
    && IsBox(Stsc(), STSC) && Lies(d, stbl.0 + |stsd| + 24, Stsc())
  }

  lemma SizesAndOffsets(d: seq<Byte>, stbl: (nat, nat), stsd: seq<Byte>, delta: nat, sizes: seq<nat>, offsets: seq<nat>)
    requires HeadLies(d, stbl, stsd, |sizes|, delta) && |sizes| == |offsets|
    requires var p := stbl.0 + |stsd| + 52;
             && p + |Stsz(sizes)| + |Stco(offsets)| <= stbl.1 < stbl.0 + TWO32
             && Lies(d, p, Stsz(sizes)) && Lies(d, p + |Stsz(sizes)|, Stco(offsets))
    requires IsBox(Stsz(sizes), STSZ)
    requires forall i :: 0 <= i < |sizes| ==> sizes[i] < TWO32 && offsets[i] < TWO32
    ensures SizesOf(d, stbl) == Some(sizes) && TableOf(d, stbl, STCO, 8, 1) == Some(offsets)
  {
    var n, at, end := |sizes|, stbl.0, stbl.1;
    var p := at + |stsd| + 52;
    hide Words, FindBox, IsBox, TableOf, Lies, Box, ReadBe32;
    SkipThree(d, at, end, stsd, Stts(n, delta), Stsc(), STSZ);
    TableFound(d, stbl, p, STSZ, [0, 0, n], sizes, 1);
    FindHit(d, p, end, Stsz(sizes), STSZ);
    BoxIsBox(STSZ, Words([0, 0, n] + sizes));
    WordAt(d, p + 8, [0, 0, n] + sizes, 1);
    SkipThree(d, at, end, stsd, Stts(n, delta), Stsc(), STCO);
    FindSkip(d, p, end, Stsz(sizes), STSZ, STCO);
    TableFound(d, stbl, p + |Stsz(sizes)|, STCO, [0, n], offsets, 1);
  }

  lemma KeysAt(d: seq<Byte>, stbl: (nat, nat), stsd: seq<Byte>, delta: nat, sizes: seq<nat>, offsets: seq<nat>,
               keys: seq<nat>)
    requires HeadLies(d, stbl, stsd, |sizes|, delta)
    requires var p := stbl.0 + |stsd| + 52;
             && p + |Stsz(sizes)| + |Stco(offsets)| + |Stss(keys)| <= stbl.1 < stbl.0 + TWO32
             && Lies(d, p, Stsz(sizes)) && Lies(d, p + |Stsz(sizes)|, Stco(offsets))
             && Lies(d, p + |Stsz(sizes)| + |Stco(offsets)|, Stss(keys))
    requires IsBox(Stsz(sizes), STSZ) && IsBox(Stco(offsets), STCO)
    requires forall i :: 0 <= i < |keys| ==> keys[i] < TWO32
    ensures TableOf(d, stbl, STSS, 8, 1) == Some(keys)
  {
    var at, end := stbl.0, stbl.1;
    var p := at + |stsd| + 52;
    hide Words, FindBox, IsBox, TableOf, Lies, Box;
    SkipThree(d, at, end, stsd, Stts(|sizes|, delta), Stsc(), STSS);
    FindSkip(d, p, end, Stsz(sizes), STSZ, STSS);
    FindSkip(d, p + |Stsz(sizes)|, end, Stco(offsets), STCO, STSS);
    TableFound(d, stbl, p + |Stsz(sizes)| + |Stco(offsets)|, STSS, [0, |keys|], keys, 1);
  }

  lemma LiesInside<T>(d: seq<T>, at: nat, s: seq<T>)
    requires Lies(d, at, s)
    ensures at + |s| <= |d|
  {
  }

  lemma SkipThree(d: seq<Byte>, at: nat, end: nat, stsd: seq<Byte>, stts: seq<Byte>, stsc: seq<Byte>, kind: nat)
    requires IsBox(stsd, STSD) && IsBox(stts, STTS) && IsBox(stsc, STSC)
    requires Lies(d, at, stsd) && Lies(d, at + |stsd|, stts) && Lies(d, at + |stsd| + |stts|, stsc)
    requires kind == STSZ || kind == STCO || kind == STSS
    requires at + |stsd| + |stts| + |stsc| <= end <= |d|
    ensures FindBox(d, at, end, kind) == FindBox(d, at + |stsd| + |stts| + |stsc|, end, kind)
  {
    hide IsBox, FindBox, Lies;
    FindSkip(d, at, end, stsd, STSD, kind);
    FindSkip(d, at + |stsd|, end, stts, STTS, kind);
    FindSkip(d, at + |stsd| + |stts|, end, stsc, STSC, kind);
  }

  // ---------------------------------------------------------------- whole recordings

  lemma LiesWithin<T>(d: seq<T>, at: nat, s: seq<T>, k: nat, t: seq<T>)
    requires Lies(d, at, s) && Lies(s, k, t)
    ensures Lies(d, at + k, t)
  {
    forall j | 0 <= j < |t| ensures d[at + k + j] == t[j] {
      assert t[j] == s[k..k + |t|][j] == s[k + j] == d[at..at + |s|][k + j];
    }
    assert d[at + k..at + k + |t|] == t;
  }

  /** Each frame's stored form is where its table entry says, within the data. */
  lemma {:induction false} DataAt(fs: seq<Frame>, i: nat)
    requires i < |fs|
    ensures Lies(Data(fs), Total(fs[..i]), Stored(fs[i]))
  {
    hide Stored;
    var m := |fs| - 1;
    assert Data(fs) == Data(fs[..m]) + Stored(fs[m]);
    assert Lies(Data(fs), 0, Data(fs));
    LiesSplit(Data(fs), 0, Data(fs[..m]), Stored(fs[m]));
    if i < m {
      assert fs[..m][..i] == fs[..i];
      DataAt(fs[..m], i);
      LiesWithin(Data(fs), 0, Data(fs[..m]), Total(fs[..i]), Stored(fs[i]));
    }
  }

  /** The finished file: file type, media data box of exactly the right size, movie header. */
  lemma FinalLayout(s: Session, fs: seq<Frame>)
    requires Laid(s, fs)
    ensures |s.file| >= DATA_START && Finalized(s) == Ftyp() + (Box(MDAT, Data(fs)) + MovieBox(s))
  {
    hide MovieBox, Ftyp, Be32, Tiled;
    var size, name, data := Be32(0), Be32(MDAT), Data(fs);
    assert s.file == Ftyp() + ((size + name) + data);
    var f := s.file;
    assert f[..MDAT_START] == Ftyp();
    assert f[MDAT_START + 4..] == name + data;
    assert Finalized(s) == Ftyp() + Be32(8 + |data|) + (name + data) + MovieBox(s);
  }

  function UnitLists(fs: seq<Frame>): (us: seq<seq<Nal>>)
    ensures |us| == |fs| && forall i :: 0 <= i < |fs| ==> us[i] == Walk(fs[i].h264, 0)
  {
    seq(|fs|, i requires 0 <= i < |fs| => Walk(fs[i].h264, 0))
  }

  lemma SampleRead(d: seq<Byte>, fs: seq<Frame>, i: nat)
    requires i < |fs| && Lies(d, DATA_START, Data(fs)) && |Stored(fs[i])| < TWO32
    ensures var e := Slot(fs, i);
            e.offset + e.size <= |d| && Unprefix(d[e.offset..e.offset + e.size]) == Walk(fs[i].h264, 0)
  {
    hide Stored, Unprefix, Walk, Prefixed, Data, Total;
    DataAt(fs, i);
    LiesWithin(d, DATA_START, Data(fs), Total(fs[..i]), Stored(fs[i]));
    StoredIs(fs[i]);
    UnprefixPrefixed(Walk(fs[i].h264, 0));
  }

  /** With one sample in each chunk, sample i is found at the offset of chunk i. */
  lemma {:induction false} OneEach(offsets: seq<nat>, sizes: seq<nat>, c: nat, i: nat)
    requires |offsets| == |sizes| && c <= i < |sizes|
    ensures SampleOffset([1, 1, 1], offsets, sizes, c, c, i) == Some(offsets[i])
    decreases i - c
  {
    assert InChunk([1, 1, 1], c + 1) == 1;
    if c < i {
      OneEach(offsets, sizes, c + 1, i);
    } else {
      assert Sum(sizes[i..i]) == 0;
    }
  }

  function Alike(n: nat, v: nat): (xs: seq<nat>)
    ensures |xs| == n && forall i :: 0 <= i < n ==> xs[i] == v
  {
    seq(n, _ => v)
  }

  lemma DurationsAlike(n: nat, delta: nat)
    ensures Durations([n, delta]) == Alike(n, delta)
  {
    assert Durations([n, delta][2..]) == [];
  }

  lemma ClipOf(d: seq<Byte>, stbl: (nat, nat), x: Index, frames: seq<seq<Nal>>)
    requires Descend(d, 0, |d|, TO_TABLES) == Some(stbl) && ReadIndex(d, stbl) == Some(x)
    requires |frames| == |x.sizes| == |x.times|
    requires forall i :: 0 <= i < |frames| ==> x.Within(i, |d|) && SampleUnits(d, x, i) == frames[i]
    ensures DemuxFile(d) == Some(Clip(frames, x.times, x.keys))
  {
    hide Descend, ReadIndex, SampleUnits, Index.Within;
    assert DemuxFile(d).Some?;
    assert DemuxFile(d).value.frames == frames;
  }

  lemma TiledLength(es: seq<Entry>, fs: seq<Frame>)
    requires Tiled(es, fs)
    ensures |es| == |fs|
  {
  }

  lemma SlotOf(es: seq<Entry>, fs: seq<Frame>, i: nat)
    requires Tiled(es, fs) && i < |fs|
    ensures |es| == |fs| && es[i] == Slot(fs, i)
  {
  }

  lemma UnitsAt(d: seq<Byte>, x: Index, i: nat, offset: nat, size: nat)
    requires i < |x.sizes| && SampleOffset(x.chunks, x.offsets, x.sizes, 0, 0, i) == Some(offset)
    requires x.sizes[i] == size && offset + size <= |d|
    ensures x.Within(i, |d|) && SampleUnits(d, x, i) == Unprefix(d[offset..offset + size])
  {
    hide SampleOffset, Unprefix;
  }

  lemma SampleFound(d: seq<Byte>, x: Index, fs: seq<Frame>, es: seq<Entry>, i: nat)
    requires i < |fs| && Tiled(es, fs) && Lies(d, DATA_START, Data(fs)) && |Stored(fs[i])| < TWO32
    requires x.sizes == Sizes(es) && x.offsets == Offsets(es) && x.chunks == [1, 1, 1]
    ensures |x.sizes| == |fs| && x.Within(i, |d|) && SampleUnits(d, x, i) == Walk(fs[i].h264, 0)
  {
    hide *;
    SlotOf(es, fs, i);
    OneEach(Offsets(es), Sizes(es), 0, i);
    SampleRead(d, fs, i);
    UnitsAt(d, x, i, es[i].offset, es[i].size);
  }

  /** The reader's result, given what the tables say and where the data lies. */
  lemma ClipRead(d: seq<Byte>, stbl: (nat, nat), fs: seq<Frame>, es: seq<Entry>, delta: nat, keys: seq<nat>)
    requires Descend(d, 0, |d|, TO_TABLES) == Some(stbl)
    requires ReadIndex(d, stbl) == Some(Index(Sizes(es), [1, 1, 1], Offsets(es), Durations([|fs|, delta]), keys))
    requires Tiled(es, fs) && Lies(d, DATA_START, Data(fs))
    requires forall i :: 0 <= i < |fs| ==> |Stored(fs[i])| < TWO32
    ensures DemuxFile(d) == Some(Clip(UnitLists(fs), Alike(|fs|, delta), keys))
  {
    hide Descend, ReadIndex, Lies, Tiled, Walk, Stored, Data, Durations, Index.Within, SampleUnits;
    var x := Index(Sizes(es), [1, 1, 1], Offsets(es), Durations([|fs|, delta]), keys);
    DurationsAlike(|fs|, delta);
    forall i | 0 <= i < |fs|
      ensures |x.sizes| == |fs| && x.Within(i, |d|) && SampleUnits(d, x, i) == UnitLists(fs)[i]
    {
      SampleFound(d, x, fs, es, i);
    }
    TiledLength(es, fs);
    ClipOf(d, stbl, x, UnitLists(fs));
  }

  /** From the start of a finished file, past the media data, to the sample tables. */
  lemma FileTables(data: seq<Byte>, durationMs: nat, t: Track, tables: seq<Byte>)
    requires 8 + |data| < TWO32 && |Movie(durationMs, t, tables)| < TWO32
    ensures var d := Ftyp() + (Box(MDAT, data) + Movie(durationMs, t, tables));
            var stsd := Stsd(t.w, t.h, t.sps, t.pps);
            && Lies(d, DATA_START, data)
            && Descend(d, 0, |d|, TO_TABLES) == Some((|d| - |tables| - |stsd|, |d|))
            && Lies(d, |d| - |tables| - |stsd|, stsd + tables)
  {
    var mdat, movie := Box(MDAT, data), Movie(durationMs, t, tables);
    var d := Ftyp() + (mdat + movie);
    hide Descend, IsBox, Movie, Header, Words, Mvhd, Tkhd, Mdhd, Hdlr, Vmhd, Dinf;
    LeafBoxes(durationMs, t);
    BoxIsBox(MDAT, data);
    assert Lies(d, 0, Ftyp() + (mdat + movie));
    hide Box, Ftyp;
    LiesSplit(d, 0, Ftyp(), mdat + movie);
    LiesSplit(d, 28, mdat, movie);
    assert mdat == Header(8 + |data|, MDAT) + data;
    LiesSplit(d, 28, Header(8 + |data|, MDAT), data);
    hide Lies;
    DescendPast(d, 0, |d|, Ftyp(), FTYP, TO_TABLES);
    DescendPast(d, 28, |d|, mdat, MDAT, TO_TABLES);
    MovieTables(d, 28 + |mdat|, |d|, durationMs, t, tables);
  }

  /**
   * Muxing then demuxing is the identity: a reader that follows the declared box sizes and the
   * sample tables gets back the units of every accepted frame, in order.
   */
  lemma DemuxRecording(w: nat, h: nat, calls: seq<Call>)
    requires Leftover(w, h, calls) == 0 && Fits(w, h, calls)
    requires |MovieBox(Play(w, h, calls))| < TWO32
    ensures var s := Play(w, h, calls);
            |s.file| >= DATA_START
            && var fs := Accepted(w, h, calls);
               DemuxFile(Finalized(s)) == Some(Clip(UnitLists(fs), Alike(|fs|, Delta(s)), s.keys))
  {
    var s, fs := Play(w, h, calls), Accepted(w, h, calls);
    RunLaid(w, h, calls);
    KeysSmall(w, h, calls);
    AcceptedFit(w, h, calls);
    FinalLayout(s, fs);
    ReadBack(Finalized(s), s, fs);
  }

  lemma {:induction false} AcceptedFit(w: nat, h: nat, calls: seq<Call>)
    requires forall i :: 0 <= i < |calls| ==> |Stored(calls[i].frame)| < TWO32
    ensures forall i :: 0 <= i < |Accepted(w, h, calls)| ==> |Stored(Accepted(w, h, calls)[i])| < TWO32
  {
    hide Stored, WriteFrame;
    if calls != [] {
      AcceptedFit(w, h, calls[..|calls| - 1]);
    }
  }

  lemma ReadBack(d: seq<Byte>, s: Session, fs: seq<Frame>)
    requires Laid(s, fs) && DATA_START + Total(fs) < TWO32 && |MovieBox(s)| < TWO32
    requires d == Ftyp() + (Box(MDAT, Data(fs)) + MovieBox(s))
    requires forall i :: 0 <= i < |s.keys| ==> s.keys[i] <= |s.samples| + 1
    requires forall i :: 0 <= i < |fs| ==> |Stored(fs[i])| < TWO32
    ensures DemuxFile(d) == Some(Clip(UnitLists(fs), Alike(|fs|, Delta(s)), s.keys))
  {
    var t := Track(Duration(s), s.w, s.h, s.sps, s.pps);
    var stsd := Stsd(s.w, s.h, s.sps, s.pps);
    var tables := Tables(Delta(s), Sizes(s.samples), Offsets(s.samples), s.keys);
    hide Ftyp, Box, Movie, Stored, Data, Delta, Span, Lies, Descend, IsBox, DemuxFile, ReadIndex, Total, Stsd, Tables,
         Sizes, Offsets, Laid;
    TiledOf(s, fs);
    FileTables(Data(fs), Span(s), t, tables);
    StsdBox(t);
    EntriesSmall(s.samples, fs);
    var stbl := (|d| - |tables| - |stsd|, |d|);
    DeltaBound(s);
    TablesFound(d, stbl, stsd, Delta(s), Sizes(s.samples), Offsets(s.samples), s.keys);
    ClipRead(d, stbl, fs, s.samples, Delta(s), s.keys);
  }

  lemma DeltaBound(s: Session)
    ensures 0 < Delta(s) < TWO32
  {
  }

  lemma TiledOf(s: Session, fs: seq<Frame>)
    requires Laid(s, fs)
    ensures Tiled(s.samples, fs) && |s.samples| == |fs|
  {
  }

  lemma EntriesSmall(es: seq<Entry>, fs: seq<Frame>)
    requires Tiled(es, fs) && DATA_START + Total(fs) < TWO32
    requires forall i :: 0 <= i < |fs| ==> |Stored(fs[i])| < TWO32
    ensures forall i :: 0 <= i < |es| ==> Sizes(es)[i] < TWO32 && Offsets(es)[i] < TWO32
  {
    hide Stored, Total;
    forall i | 0 <= i < |es| ensures Offsets(es)[i] < TWO32 && Sizes(es)[i] < TWO32 {
      TotalMonotone(fs, i);
      assert es[i] == Slot(fs, i);
    }
  }

  lemma StsdBox(t: Track)
    requires |Stsd(t.w, t.h, t.sps, t.pps)| < TWO32
    ensures IsBox(Stsd(t.w, t.h, t.sps, t.pps), STSD)
  {
    hide Words, IsBox, Box, AvcConfig, EntryFields;
    BoxIsBox(STSD, Words([0, 1]) + Box(AVC1, EntryFields(t.w, t.h) + AvcConfig(t.sps, t.pps)));
  }

  /** For frames of at most 2 MiB and no failed call, nothing more is needed. */
  lemma DemuxBounded(w: nat, h: nat, calls: seq<Call>)
    requires Bounded(calls) && Leftover(w, h, calls) == 0 && KeysLost(w, h, calls) == 0
    ensures var s, fs := Play(w, h, calls), Accepted(w, h, calls);
            && |s.file| >= DATA_START
            && DemuxFile(Finalized(s)) == Some(Clip(UnitLists(fs), Alike(|fs|, Delta(s)), KeyNumbers(fs)))
  {
    hide DemuxFile, Finalized, MovieBox, Stored;
    BoundedFits(w, h, calls);
    RunKeys(w, h, calls);
    MovieFits(w, h, calls);
    DemuxRecording(w, h, calls);
  }

  lemma MovieFits(w: nat, h: nat, calls: seq<Call>)
    requires Bounded(calls) && KeysLost(w, h, calls) == 0
    ensures |MovieBox(Play(w, h, calls))| < TWO32
  {
    hide Stored, Walk, Delta, Span;
    BoundedFits(w, h, calls);
    RunKeys(w, h, calls);
    RunLength(w, h, calls);
    KeyNumbersMeaning(Accepted(w, h, calls));
    SetsFit(w, h, calls);
  }
}
