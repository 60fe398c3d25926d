/** Converting between byte streams and length-prefixed samples. */
module Avcc {
  import opened Bytes
  import opened AnnexB

  // ---------------------------------------------------------------- stream to samples

  /** The sample made of the units from offset `from` on: the picture data, length-prefixed. */
  function SampleFrom(d: seq<Byte>, from: nat): seq<Byte> {
    Prefixed(Vcl(Walk(d, from)))
  }

  /** The sample made of a frame. */
  function Sample(d: seq<Byte>): seq<Byte> { SampleFrom(d, 0) }

  function Piece(u: Nal): seq<Byte> {
    if IsVcl(u) then Be32(|u|) + u else []
  }

  lemma SampleStep(d: seq<Byte>, from: nat, pos: nat, u: Nal)
    requires Find(d, from).Some? && pos == Find(d, from).value + CodeLen(d, Find(d, from).value)
    requires pos <= |d| && u == UnitAt(d, pos)
    ensures SampleFrom(d, from) == Piece(u) + SampleFrom(d, pos)
  {
    hide Be32, CodeLen, Find, IsVcl, Walk, UnitAt;
    WalkNext(d, from, pos, u);
    assert ([u] + Walk(d, pos))[1..] == Walk(d, pos);
    if IsVcl(u) {
      var v := Vcl(Walk(d, pos));
      assert ([u] + v)[1..] == v;
      assert Prefixed([u] + v) == Be32(|u|) + (u + Prefixed(v));
      assert Be32(|u|) + (u + Prefixed(v)) == Be32(|u|) + u + Prefixed(v);
    }
  }

  lemma SampleDone(d: seq<Byte>, from: nat)
    requires Find(d, from).None?
    ensures SampleFrom(d, from) == []
  {
  }

  /** First pass: the size of the sample. */
  method AvccSize(d: seq<Byte>) returns (n: nat)
    ensures n == |Sample(d)|
  {
    hide SampleFrom, Walk, CodeLen, Find;
    n := 0;
    var from := 0;
    while from + 3 <= |d|
      invariant n + |SampleFrom(d, from)| == |Sample(d)|
      decreases |d| - from
    {
      var sc, pos := NalFind(d, from);
      if sc.None? {
        break;
      }
      var next, _ := NalFind(d, pos);
      var nlen := if next.None? then |d| - pos else next.value - pos;
      SampleStep(d, from, pos, d[pos..pos + nlen]);
      if nlen > 0 && (d[pos] % 32 == 1 || d[pos] % 32 == 5) {
        n := n + 4 + nlen;
      }
      from := pos;
      if next.None? {
        break;
      }
    }
    SampleDone(d, from);
  }

  method PutBe32(dst: array<Byte>, p: nat, ghost end: nat, v: nat)
    requires p + 4 <= end <= dst.Length
    modifies dst
    ensures dst[..p + 4] == old(dst[..p]) + Be32(v) && dst[end..] == old(dst[end..])
  {
    dst[p] := v / 256 / 256 / 256 % 256;
    dst[p + 1] := v / 256 / 256 % 256;
    dst[p + 2] := v / 256 % 256;
    dst[p + 3] := v % 256;
  }

  /** Copies n bytes of src to offset p; bytes from `end` on stay. */
  method PutBytes(dst: array<Byte>, p: nat, ghost end: nat, src: seq<Byte>, from: nat, n: nat)
    requires p + n <= end <= dst.Length && from + n <= |src|
    modifies dst
    ensures dst[..p + n] == old(dst[..p]) + src[from..from + n] && dst[end..] == old(dst[end..])
  {
    forall k | 0 <= k < n {
      dst[p + k] := src[from + k];
    }
  }

  /** Writes one unit at offset p, if it goes into the sample; bytes from `end` on stay. */
  method WriteUnit(dst: array<Byte>, p: nat, ghost end: nat, d: seq<Byte>, pos: nat, nlen: nat) returns (q: nat)
    requires pos + nlen <= |d| && p + |Piece(d[pos..pos + nlen])| <= end <= dst.Length
    modifies dst
    ensures q == p + |Piece(d[pos..pos + nlen])|
    ensures dst[..q] == old(dst[..p]) + Piece(d[pos..pos + nlen])
    ensures dst[end..] == old(dst[end..])
  {
    if nlen == 0 || (d[pos] % 32 != 1 && d[pos] % 32 != 5) {
      return p;
    }
    hide Be32;
    PutBe32(dst, p, end, nlen);
    PutBytes(dst, p + 4, end, d, pos, nlen);
    q := p + 4 + nlen;
    Associative(old(dst[..p]), Be32(nlen), d[pos..pos + nlen]);
  }

  /** Second pass: writes the sample at offset `at`, exactly as many bytes as the first pass counted. */
  method AvccWrite(dst: array<Byte>, at: nat, d: seq<Byte>)
    requires at + |Sample(d)| <= dst.Length
    modifies dst
    ensures dst[..] == old(dst[..at]) + Sample(d) + old(dst[at + |Sample(d)|..])
  {
    hide SampleFrom, Walk, CodeLen, Find, Piece;
    var p: nat, from: nat := at, 0;
    ghost var end, all, tail := at + |Sample(d)|, dst[..at] + Sample(d), dst[at + |Sample(d)|..];
    while from + 3 <= |d|
      invariant p <= p + |SampleFrom(d, from)| == end <= dst.Length
      invariant dst[..p] + SampleFrom(d, from) == all && dst[end..] == tail
      decreases |d| - from
    {
      var sc, pos := NalFind(d, from);
      if sc.None? {
        break;
      }
      var next, _ := NalFind(d, pos);
      var nlen := if next.None? then |d| - pos else next.value - pos;
      ghost var u := d[pos..pos + nlen];
      SampleStep(d, from, pos, u);
      Associative(dst[..p], Piece(u), SampleFrom(d, pos));
      p := WriteUnit(dst, p, end, d, pos, nlen);
      from := pos;
      if next.None? {
        break;
      }
    }
    SampleDone(d, from);
    assert dst[..] == dst[..p] + dst[p..];
  }

  // ---------------------------------------------------------------- samples to stream

  /** The packet is taken to be a byte stream already: a start code before a plausible unit header. */
  predicate Sniffed(d: seq<Byte>) {
    || (|d| >= 5 && d[0] == 0 && d[1] == 0 && d[2] == 0 && d[3] == 1 && d[4] < 128)
    || (|d| >= 4 && d[0] == 0 && d[1] == 0 && d[2] == 1 && d[3] < 128)
  }

  function Fours(n: nat): (codes: seq<nat>)
    ensures |codes| == n && CodesOk(codes)
    ensures forall i :: 0 <= i < n ==> codes[i] == 4
  {
    seq(n, _ => 4)
  }

  /** The units behind four-byte start codes. */
  function Stream(nals: seq<Nal>): seq<Byte> { Join(Fours(|nals|), nals) }

  function ToAnnexB(d: seq<Byte>): seq<Byte> {
    if Sniffed(d) then d else Stream(Units(d, 0))
  }

  /** A unit behind its four-byte start code, which is the number 1. */
  function Coded(n: Nal): (s: seq<Byte>)
    ensures |s| == 4 + |n|
  {
    Be32(1) + n
  }

  method PutCoded(out: array<Byte>, o: nat, ghost end: nat, d: seq<Byte>, from: nat, n: nat)
    requires o + 4 + n <= end <= out.Length && from + n <= |d|
    modifies out
    ensures out[..o + 4 + n] == old(out[..o]) + Coded(d[from..from + n]) && out[end..] == old(out[end..])
  {
    hide Be32;
    PutBe32(out, o, end, 1);
    PutBytes(out, o + 4, end, d, from, n);
    Associative(old(out[..o]), Be32(1), d[from..from + n]);
  }

  lemma StreamStep(d: seq<Byte>, i: nat)
    requires i + 4 <= |d|
    ensures var len := ReadBe32(d, i);
            Stream(Units(d, i)) == if len == 0 || i + 4 + len > |d| then []
                                   else Coded(d[i + 4..i + 4 + len]) + Stream(Units(d, i + 4 + len))
  {
    hide ReadBe32;
    assert Be32(1) == StartCode(4);
    var len := ReadBe32(d, i);
    if len != 0 && i + 4 + len <= |d| {
      var n, rest := d[i + 4..i + 4 + len], Units(d, i + 4 + len);
      hide Units;
      assert ([n] + rest)[1..] == rest && Fours(1 + |rest|)[1..] == Fours(|rest|);
      assert Stream([n] + rest) == StartCode(4) + (n + Stream(rest));
    }
  }

  /** Converts a packet; null when there is nothing to convert or no memory. */
  method AvccToAnnexB(d: seq<Byte>, mallocOk: bool) returns (out: array?<Byte>)
    ensures out == null <==> d == [] || !mallocOk || (!Sniffed(d) && Units(d, 0) == [])
    ensures out != null ==> fresh(out) && out[..] == ToAnnexB(d)
  {
    hide ReadBe32, Units, Stream;
    if |d| == 0 {
      return null;
    }
    if Sniffed(d) {
      if !mallocOk {
        return null;
      }
      out := new Byte[|d|](i requires 0 <= i < |d| => d[i]);
      assert out[..] == d;
      return;
    }
    var total, i := 0, 0;
    while i + 4 <= |d|
      invariant total + |Stream(Units(d, i))| == |Stream(Units(d, 0))|
      invariant i <= |d|
    {
      StreamStep(d, i);
      var len := ReadBe32(d, i);
      if len == 0 || i + 4 + len > |d| {
        break;
      }
      total := total + 4 + len;
      i := i + 4 + len;
    }
    StreamDone(d, i);
    StreamEmpty(Units(d, 0));
    if total == 0 || !mallocOk {
      return null;
    }
    out := ConvertUnits(d, total);
  }

  /** The converter's second loop, into a buffer of the size its first loop counted. */
  method ConvertUnits(d: seq<Byte>, total: nat) returns (out: array<Byte>)
    requires total == |Stream(Units(d, 0))|
    ensures fresh(out) && out[..] == Stream(Units(d, 0))
  {
    hide ReadBe32, Units, Stream, Coded;
    out := new Byte[total];
    var o, i := 0, 0;
    while i + 4 <= |d|
      invariant i <= |d|
      invariant o + |Stream(Units(d, i))| == total
      invariant 0 <= o <= total
      invariant out[..o] + Stream(Units(d, i)) == Stream(Units(d, 0))
    {
      StreamStep(d, i);
      var len := ReadBe32(d, i);
      if len == 0 || i + 4 + len > |d| {
        break;
      }
      Associative(out[..o], Coded(d[i + 4..i + 4 + len]), Stream(Units(d, i + 4 + len)));
      PutCoded(out, o, total, d, i + 4, len);
      o := o + 4 + len;
      i := i + 4 + len;
    }
    StreamDone(d, i);
    assert out[..] == out[..o];
  }

  lemma StreamDone(d: seq<Byte>, i: nat)
    requires i + 4 <= |d| ==> ReadBe32(d, i) == 0 || i + 4 + ReadBe32(d, i) > |d|
    ensures Units(d, i) == [] && Stream(Units(d, i)) == []
  {
  }

  lemma StreamEmpty(nals: seq<Nal>)
    ensures Stream(nals) == [] <==> nals == []
  {
  }

  // ---------------------------------------------------------------- round trip

  /** When the converter takes a sample for a byte stream: by the length of its first unit. */
  lemma SniffedIff(v: seq<Nal>)
    requires forall i :: 0 <= i < |v| ==> 0 < |v[i]| < TWO32
    ensures Sniffed(Prefixed(v)) <==>
            v != [] && ((|v[0]| == 1 && v[0][0] < 128) || 256 <= |v[0]| < 384)
  {
    if v != [] {
      hide Prefixed, Be32, ReadBe32, Sniffed;
      var d, n := Prefixed(v), v[0];
      PrefixedParts(d, 0, v);
      ReadBe32Slice(d, 0, |n|);
      assert d[4..4 + |n|][0] == n[0];
      SniffedFirst(d, n);
    } else {
      assert |Prefixed(v)| == 0;
    }
  }

  lemma SniffedFirst(d: seq<Byte>, n: Nal)
    requires |d| >= 5 && n != [] && ReadBe32(d, 0) == |n| && d[4] == n[0]
    ensures Sniffed(d) <==> (|n| == 1 && n[0] < 128) || 256 <= |n| < 384
  {
    SniffedLength(d[0], d[1], d[2], d[3]);
  }

  lemma SniffedLength(a: Byte, b: Byte, c: Byte, d: Byte)
    ensures a == 0 && b == 0 && c == 0 && d == 1 <==> Value32(a, b, c, d) == 1
    ensures a == 0 && b == 0 && c == 1 && d < 128 <==> 256 <= Value32(a, b, c, d) < 384
  {
  }

  /** A stream is never longer than the length-prefixed form of the same units. */
  lemma {:induction false} JoinShorter(codes: seq<nat>, nals: seq<Nal>)
    requires |codes| == |nals| && CodesOk(codes)
    ensures |Join(codes, nals)| <= |Prefixed(nals)|
  {
    if nals != [] {
      JoinShorter(codes[1..], nals[1..]);
    }
  }

  /** The two forms of a list coincide only if every unit is a single byte. */
  lemma {:induction false} SameBytes(d: seq<Byte>, at: nat, codes: seq<nat>, nals: seq<Nal>)
    requires at <= |d| && |codes| == |nals| && CodesOk(codes)
    requires d[at..] == Join(codes, nals) == Prefixed(nals)
    requires forall i :: 0 <= i < |nals| ==> 0 < |nals[i]| < TWO32
    ensures forall i :: 0 <= i < |nals| ==> |nals[i]| == 1
    decreases |nals|
  {
    if nals != [] {
      JoinShorter(codes[1..], nals[1..]);
      assert codes[0] == 4;
      hide Be32, Join, Prefixed, ReadBe32;
      JoinParts(d, at, codes, nals);
      PrefixedParts(d, at, nals);
      FirstLength(d, at, nals[0]);
      SameBytes(d, at + 4 + |nals[0]|, codes[1..], nals[1..]);
    }
  }

  lemma FirstLength(d: seq<Byte>, at: nat, n: Nal)
    requires |n| < TWO32 && CodeLen(d, at) == 4 && Lies(d, at, Be32(|n|))
    ensures |n| == 1
  {
    hide Be32;
    ReadBe32Slice(d, at, |n|);
  }

  lemma {:induction false} OnesStream(v: seq<Nal>)
    requires forall i :: 0 <= i < |v| ==> |v[i]| == 1
    ensures Stream(v) == Prefixed(v)
  {
    if v != [] {
      OnesStream(v[1..]);
      assert Fours(|v|)[1..] == Fours(|v[1..]|);
      assert Be32(1) == StartCode(4);
    }
  }

  /** Walking what the converter makes of the sample of v: v again, exactly on the stated condition. */
  lemma SampleRoundTrip(v: seq<Nal>)
    requires AllClean(v) && forall i :: 0 <= i < |v| ==> |v[i]| < TWO32
    ensures Walk(ToAnnexB(Prefixed(v)), 0) == v <==>
            !Sniffed(Prefixed(v)) || forall i :: 0 <= i < |v| ==> |v[i]| == 1
  {
    hide Walk, Prefixed, Units, Join, Clean;
    var d := Prefixed(v);
    NonEmpty(v);
    UnitsPrefixed(d, 0, v);
    WalkJoin(Fours(|v|), v);
    if Sniffed(d) {
      if forall i :: 0 <= i < |v| ==> |v[i]| == 1 {
        OnesStream(v);
      } else if Walk(d, 0) == v {
        var codes := WalkTiles(d, 0);
        SameBytes(d, 0, codes, v);
      }
    }
  }

  lemma NonEmpty(v: seq<Nal>)
    requires AllClean(v)
    ensures forall i :: 0 <= i < |v| ==> 0 < |v[i]|
  {
    forall i | 0 <= i < |v| ensures 0 < |v[i]| {
      assert Clean(v[i]);
    }
  }

  /**
   * The whole journey of a frame: walk, keep the picture data, store length-prefixed, convert
   * back, walk again.  It returns the picture data unless the converter mistakes the first
   * length for a start code, and then only if all units are single bytes.
   */
  lemma FrameRoundTrip(codes: seq<nat>, nals: seq<Nal>)
    requires |codes| == |nals| && CodesOk(codes) && AllClean(nals)
    requires forall i :: 0 <= i < |nals| ==> |nals[i]| < TWO32
    ensures var v := Vcl(nals);
            && Walk(Join(codes, nals), 0) == nals
            && (Walk(ToAnnexB(Sample(Join(codes, nals))), 0) == v <==>
                 || v == [] || (forall i :: 0 <= i < |v| ==> |v[i]| == 1)
                 || !((|v[0]| == 1 && v[0][0] < 128) || 256 <= |v[0]| < 384))
  {
    hide Walk, Prefixed, Clean, Join, ToAnnexB, Sniffed;
    WalkJoin(codes, nals);
    var v := Vcl(nals);
    NonEmpty(v);
    SampleRoundTrip(v);
    SniffedIff(v);
  }

  /** A frame for which it fails: its one unit is a picture of 256 bytes. */
  lemma MistakenFrame()
    ensures var u: Nal := [5] + seq(255, _ => 1);
            && AllClean([u]) && Vcl([u]) == [u]
            && Walk(ToAnnexB(Sample(Join([4], [u]))), 0) != [u]
  {
    var u: Nal := [5] + seq(255, _ => 1);
    assert Clean(u);
    assert IsVcl(u);
    hide Walk, ToAnnexB, Sample, Join;
    FrameRoundTrip([4], [u]);
  }
}
