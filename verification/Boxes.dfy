/**
 * Boxes of the ISO base media file format: a writer's view (nested, each size computed from
 * what is inside) and a reader that walks them by their declared sizes (section 4.2 of
 * ISO/IEC 14496-12).
 */
module Boxes {
  import opened Common
  import opened Bytes

  // Box types as the 32-bit number their four characters spell.
  const FTYP: nat := 0x66747970
  const MDAT: nat := 0x6D646174
  const MOOV: nat := 0x6D6F6F76
  const MVHD: nat := 0x6D766864
  const TRAK: nat := 0x7472616B
  const TKHD: nat := 0x746B6864
  const MDIA: nat := 0x6D646961
  const MDHD: nat := 0x6D646864
  const HDLR: nat := 0x68646C72
  const MINF: nat := 0x6D696E66
  const VMHD: nat := 0x766D6864
  const DINF: nat := 0x64696E66
  const DREF: nat := 0x64726566
  const URL: nat := 0x75726C20
  const STBL: nat := 0x7374626C
  const STSD: nat := 0x73747364
  const AVC1: nat := 0x61766331
  const AVC_CONFIG: nat := 0x61766343
  const STTS: nat := 0x73747473
  const STSC: nat := 0x73747363
  const STSZ: nat := 0x7374737A
  const STCO: nat := 0x7374636F
  const STSS: nat := 0x73747373
  const MVEX: nat := 0x6D766578
  const MEHD: nat := 0x6D656864
  const TREX: nat := 0x74726578
  const MOOF: nat := 0x6D6F6F66
  const MFHD: nat := 0x6D666864
  const TRAF: nat := 0x74726166
  const TFHD: nat := 0x74666864
  const TFDT: nat := 0x74666474
  const TRUN: nat := 0x7472756E

  /** Consecutive 32-bit fields. */
  function Words(ws: seq<nat>): (s: seq<Byte>)
    ensures |s| == 4 * |ws|
  {
    if ws == [] then [] else Words(ws[..|ws| - 1]) + Be32(ws[|ws| - 1])
  }

  function Header(size: nat, kind: nat): (s: seq<Byte>)
    ensures |s| == 8
  {
    Be32(size) + Be32(kind)
  }

  /** A box whose declared size is that of its header and body. */
  function Box(kind: nat, body: seq<Byte>): (s: seq<Byte>)
    ensures |s| == 8 + |body|
  {
    Header(8 + |body|, kind) + body
  }

  /** The body of the first box of that kind among the boxes from `at` to `end`, found by declared sizes. */
  function FindBox(d: seq<Byte>, at: nat, end: nat, kind: nat): (r: Option<(nat, nat)>)
    requires end <= |d|
    ensures r.Some? ==> at + 8 <= r.value.0 <= r.value.1 <= end
    decreases end - at
  {
    if at + 8 > end then None
    else
      var size := ReadBe32(d, at);
      if size < 8 || at + size > end then None
      else if ReadBe32(d, at + 4) == kind then Some((at + 8, at + size))
      else FindBox(d, at + size, end, kind)
  }

  lemma LiesWord(d: seq<Byte>, at: nat, v: nat)
    requires Lies(d, at, Be32(v)) && v < TWO32
    ensures ReadBe32(d, at) == v
  {
    hide Be32, ReadBe32;
    ReadBe32Slice(d, at, v);
  }

  /** s is a box of that kind: its header declares its real size. */
  ghost predicate IsBox(s: seq<Byte>, kind: nat) {
    8 <= |s| < TWO32 && kind < TWO32 && s == Header(|s|, kind) + s[8..]
  }

  lemma BoxIsBox(kind: nat, body: seq<Byte>)
    requires 8 + |body| < TWO32 && kind < TWO32
    ensures IsBox(Box(kind, body), kind) && Box(kind, body)[8..] == body
  {
    hide Header;
    assert (Header(8 + |body|, kind) + body)[8..] == body;
  }

  /** What a reader sees at the start of a box. */
  lemma BoxAt(d: seq<Byte>, at: nat, s: seq<Byte>, kind: nat)
    requires Lies(d, at, s) && IsBox(s, kind)
    ensures ReadBe32(d, at) == |s| && ReadBe32(d, at + 4) == kind
    ensures Lies(d, at + 8, s[8..])
  {
    hide Be32, ReadBe32;
    LiesSplit(d, at, Header(|s|, kind), s[8..]);
    LiesSplit(d, at, Be32(|s|), Be32(kind));
    LiesWord(d, at, |s|);
    LiesWord(d, at + 4, kind);
  }

  lemma FindHit(d: seq<Byte>, at: nat, end: nat, s: seq<Byte>, kind: nat)
    requires Lies(d, at, s) && IsBox(s, kind) && at + |s| <= end <= |d|
    ensures FindBox(d, at, end, kind) == Some((at + 8, at + |s|)) && Lies(d, at + 8, s[8..])
  {
    hide ReadBe32, Header;
    BoxAt(d, at, s, kind);
  }

  lemma FindSkip(d: seq<Byte>, at: nat, end: nat, s: seq<Byte>, other: nat, kind: nat)
    requires Lies(d, at, s) && IsBox(s, other) && other != kind && at + |s| <= end <= |d|
    ensures FindBox(d, at, end, kind) == FindBox(d, at + |s|, end, kind)
  {
    hide ReadBe32, Header;
    BoxAt(d, at, s, other);
  }

  /** Each field of a table is read back. */
  lemma {:induction false} WordAt(d: seq<Byte>, at: nat, ws: seq<nat>, i: nat)
    requires Lies(d, at, Words(ws)) && i < |ws| && ws[i] < TWO32
    ensures ReadBe32(d, at + 4 * i) == ws[i]
  {
    hide Be32, ReadBe32;
    var n := |ws| - 1;
    LiesSplit(d, at, Words(ws[..n]), Be32(ws[n]));
    if i == n {
      LiesWord(d, at + 4 * n, ws[n]);
    } else {
      WordAt(d, at, ws[..n], i);
    }
  }
}
