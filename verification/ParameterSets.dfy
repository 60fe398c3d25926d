/** Reading the parameter sets back from the decoder configuration of a recording or an initialisation segment. */
module ParameterSets {
  import opened Common
  import opened Bytes
  import opened Boxes
  import opened Moov
  import opened Recording
  import opened Demux

  function ReadBe16(d: seq<Byte>, at: nat): nat
    requires at + 2 <= |d|
  {
    var high: nat := d[at];
    high * 256 + d[at + 1]
  }

  /**
   * What the sample description says: picture size, profile and level bytes, the number of bytes of a
   * unit's length prefix, and the two parameter sets.
   */
  datatype Description = Description(
    w: nat, h: nat, profile: seq<Byte>, lengthSize: nat, sps: seq<Byte>, pps: seq<Byte>)

  /**
   * The decoder configuration (section 5.3.3.1 of ISO/IEC 14496-15): version 1 with one set of either
   * kind, each after its 16-bit length.
   */
  function ReadConfig(d: seq<Byte>, at: nat, end: nat, w: nat, h: nat): Option<Description>
    requires at <= end <= |d|
  {
    if at + 8 > end || d[at] != 1 || d[at + 5] % 32 != 1 then None
    else
      var n := ReadBe16(d, at + 6);
      if at + 8 + n + 3 > end || d[at + 8 + n] != 1 then None
      else
        var m := ReadBe16(d, at + 8 + n + 1);
        if at + 8 + n + 3 + m > end then None
        else
          Some(Description(w, h, d[at + 1..at + 4], d[at + 4] % 4 + 1,
                           d[at + 8..at + 8 + n], d[at + 8 + n + 3..at + 8 + n + 3 + m]))
  }

  /** The sample description of a track: its entry has 78 bytes in front of the configuration box. */
  function ReadDescription(d: seq<Byte>): Option<Description> {
    var stbl := Descend(d, 0, |d|, TO_TABLES);
    if stbl.None? then None
    else
      var stsd := FindBox(d, stbl.value.0, stbl.value.1, STSD);
      if stsd.None? || stsd.value.0 + 8 > stsd.value.1 then None
      else
        var avc1 := FindBox(d, stsd.value.0 + 8, stsd.value.1, AVC1);
        if avc1.None? || avc1.value.0 + 78 > avc1.value.1 then None
        else
          var config := FindBox(d, avc1.value.0 + 78, avc1.value.1, AVC_CONFIG);
          if config.None? then None
          else
            ReadConfig(d, config.value.0, config.value.1,
                       ReadBe16(d, avc1.value.0 + 24), ReadBe16(d, avc1.value.0 + 26))
  }

  /** The profile and level bytes are those of the sequence parameter set, or defaults without one. */
  function ProfileOf(sps: seq<Byte>): (p: seq<Byte>)
    ensures |sps| >= 4 ==> p == sps[1..4]
  {
    [ProfileByte(sps, 1, 66), ProfileByte(sps, 2, 0), ProfileByte(sps, 3, 30)]
  }

  /** The description of a track, with 4-byte length prefixes. */
  function Described(t: Track): Description {
    Description(t.w % TWO16, t.h % TWO16, ProfileOf(t.sps), 4, t.sps, t.pps)
  }

  lemma LiesByte16(d: seq<Byte>, at: nat, v: nat)
    requires Lies(d, at, Be16(v)) && v < TWO16
    ensures at + 2 <= |d| && ReadBe16(d, at) == v
  {
    var w := d[at..at + 2];
    assert d[at] == w[0] && d[at + 1] == w[1];
  }

  function ConfigStart(sps: seq<Byte>): (s: seq<Byte>)
    ensures |s| == 6
  {
    [1, ProfileByte(sps, 1, 66), ProfileByte(sps, 2, 0), ProfileByte(sps, 3, 30), 0xFF, 0xE1]
  }

  function ConfigEnd(sps: seq<Byte>, pps: seq<Byte>): (s: seq<Byte>)
    ensures |s| == 5 + |sps| + |pps|
  {
    Be16(|sps|) + (sps + ([1] + (Be16(|pps|) + pps)))
  }

  lemma ConfigParts(sps: seq<Byte>, pps: seq<Byte>)
    ensures AvcConfig(sps, pps) == Box(AVC_CONFIG, ConfigStart(sps) + ConfigEnd(sps, pps))
  {
    hide Header, Be16;
    var a := ConfigStart(sps);
    assert a + Be16(|sps|) + sps + [1] + Be16(|pps|) + pps == a + ConfigEnd(sps, pps);
  }

  /** Where the parts of the configuration lie. */
  lemma ConfigLies(d: seq<Byte>, at: nat, start: seq<Byte>, sps: seq<Byte>, pps: seq<Byte>)
    requires Lies(d, at, start + ConfigEnd(sps, pps)) && |start| == 6
    ensures at + 11 + |sps| + |pps| <= |d| && Lies(d, at, start)
    ensures Lies(d, at + 6, Be16(|sps|)) && Lies(d, at + 8, sps) && Lies(d, at + 8 + |sps|, [1])
    ensures Lies(d, at + 8 + |sps| + 1, Be16(|pps|)) && Lies(d, at + 8 + |sps| + 3, pps)
  {
    LiesInside(d, at, start + ConfigEnd(sps, pps));
    hide Be16, Lies;
    LiesSplit(d, at, start, ConfigEnd(sps, pps));
    LiesSplit(d, at + 6, Be16(|sps|), sps + ([1] + (Be16(|pps|) + pps)));
    LiesSplit(d, at + 8, sps, [1] + (Be16(|pps|) + pps));
    LiesSplit(d, at + 8 + |sps|, [1], Be16(|pps|) + pps);
    LiesSplit(d, at + 8 + |sps| + 1, Be16(|pps|), pps);
  }

  lemma StartRead(d: seq<Byte>, at: nat, sps: seq<Byte>)
    requires Lies(d, at, ConfigStart(sps))
    ensures at + 6 <= |d| && d[at] == 1 && d[at + 5] % 32 == 1
    ensures d[at + 1..at + 4] == ProfileOf(sps) && d[at + 4] % 4 + 1 == 4
  {
    var w := d[at..at + 6];
    assert forall i :: 0 <= i < 6 ==> w[i] == d[at + i];
    assert d[at + 1..at + 4] == w[1..4];
    hide ProfileByte;
  }

  lemma ConfigRead(d: seq<Byte>, at: nat, sps: seq<Byte>, pps: seq<Byte>, w: nat, h: nat)
    requires Lies(d, at, ConfigStart(sps) + ConfigEnd(sps, pps)) && |sps| < TWO16 && |pps| < TWO16
    ensures at + 11 + |sps| + |pps| <= |d|
    ensures ReadConfig(d, at, at + 11 + |sps| + |pps|, w, h) == Some(Description(w, h, ProfileOf(sps), 4, sps, pps))
  {
    hide Be16, ReadBe16, Lies, ConfigEnd, ConfigStart, ProfileOf;
    ConfigLies(d, at, ConfigStart(sps), sps, pps);
    StartRead(d, at, sps);
    LiesByte16(d, at + 6, |sps|);
    LiesByte16(d, at + 8 + |sps| + 1, |pps|);
    LiesSlice(d, at + 8, sps);
    OneAt(d, at + 8 + |sps|);
    LiesSlice(d, at + 8 + |sps| + 3, pps);
  }

  lemma OneAt(d: seq<Byte>, at: nat)
    requires Lies(d, at, [1])
    ensures at < |d| && d[at] == 1
  {
    assert d[at] == d[at..at + 1][0];
  }

  lemma LiesSlice(d: seq<Byte>, at: nat, s: seq<Byte>)
    requires Lies(d, at, s)
    ensures at + |s| <= |d| && d[at..at + |s|] == s
  {
  }

  /** The description box, whatever follows it, leads to the configuration. */
  lemma DescriptionFound(d: seq<Byte>, stbl: (nat, nat), t: Track, tables: seq<Byte>)
    requires Descend(d, 0, |d|, TO_TABLES) == Some(stbl) && stbl.1 <= |d|
    requires Lies(d, stbl.0, Stsd(t.w, t.h, t.sps, t.pps) + tables)
    requires stbl.1 == stbl.0 + |Stsd(t.w, t.h, t.sps, t.pps) + tables|
    requires |t.sps| <= 64 && |t.pps| <= 64
    ensures ReadDescription(d) == Some(Described(t))
  {
    var stsd := Stsd(t.w, t.h, t.sps, t.pps);
    hide Descend, FindBox, ReadConfig, Lies, Stsd, Box, Described, ReadBe16, EntryFields, AvcConfig;
    assert |stsd| == 121 + |t.sps| + |t.pps|;
    LiesSplit(d, stbl.0, stsd, tables);
    DescriptionRead(d, stbl.0, stbl.1, t);
    EntryRead(d, stbl.0 + 16, t);
  }

  lemma DescriptionRead(d: seq<Byte>, at: nat, end: nat, t: Track)
    requires |t.sps| <= 64 && |t.pps| <= 64
    requires Lies(d, at, Stsd(t.w, t.h, t.sps, t.pps)) && at + |Stsd(t.w, t.h, t.sps, t.pps)| <= end <= |d|
    ensures FindBox(d, at, end, STSD) == Some((at + 8, at + |Stsd(t.w, t.h, t.sps, t.pps)|))
    ensures Lies(d, at + 16, Box(AVC1, EntryFields(t.w, t.h) + AvcConfig(t.sps, t.pps)))
  {
    var avc1 := Box(AVC1, EntryFields(t.w, t.h) + AvcConfig(t.sps, t.pps));
    var stsd := Stsd(t.w, t.h, t.sps, t.pps);
    hide Header, Words, IsBox, FindBox, AvcConfig, EntryFields, Lies;
    BoxIsBox(STSD, Words([0, 1]) + avc1);
    hide Box;
    FindHit(d, at, end, stsd, STSD);
    LiesSplit(d, at + 8, Words([0, 1]), avc1);
  }

  /** The size fields of the entry. */
  lemma SizeRead(d: seq<Byte>, at: nat, w: nat, h: nat)
    requires Lies(d, at, EntryFields(w, h))
    ensures at + 78 <= |d| && ReadBe16(d, at + 24) == w % TWO16 && ReadBe16(d, at + 26) == h % TWO16
  {
    LiesInside(d, at, EntryFields(w, h));
    var head := [0, 1, 0, 0, 0, 0, w % TWO16 * TWO16 + h % TWO16, 0x48_0000, 0x48_0000, 0];
    var rest := Be16(1) + Words([0x726B7665, 0x6E630000, 0, 0, 0, 0, 0, 0]) + Be16(24) + Be16(0xFFFF);
    assert EntryFields(w, h) == Words(head) + rest by { EntryParts(w, h, head, rest); }
    hide Words, Be16, EntryFields, Lies;
    LiesSplit(d, at, Words(head), rest);
    WordAt(d, at, head, 6);
    hide Lies;
    HalvesOf(d[at + 24], d[at + 25], d[at + 26], d[at + 27], w % TWO16, h % TWO16);
  }

  lemma EntryParts(w: nat, h: nat, head: seq<nat>, rest: seq<Byte>)
    requires head == [0, 1, 0, 0, 0, 0, w % TWO16 * TWO16 + h % TWO16, 0x48_0000, 0x48_0000, 0]
    requires rest == Be16(1) + Words([0x726B7665, 0x6E630000, 0, 0, 0, 0, 0, 0]) + Be16(24) + Be16(0xFFFF)
    ensures EntryFields(w, h) == Words(head) + rest
  {
    hide Words, Be16;
    assert Words(head) + Be16(1) + Words([0x726B7665, 0x6E630000, 0, 0, 0, 0, 0, 0]) + Be16(24) + Be16(0xFFFF)
        == Words(head) + rest;
  }

  lemma HalvesOf(a: Byte, b: Byte, c: Byte, e: Byte, v: nat, w: nat)
    requires Value32(a, b, c, e) == v * TWO16 + w && v < TWO16 && w < TWO16
    ensures a * 256 + b == v && c * 256 + e == w
  {
  }

  lemma EntryLies(d: seq<Byte>, at: nat, t: Track)
    requires |t.sps| <= 64 && |t.pps| <= 64
    requires Lies(d, at, Box(AVC1, EntryFields(t.w, t.h) + AvcConfig(t.sps, t.pps)))
    ensures var end := at + 105 + |t.sps| + |t.pps|;
            && end <= |d| && FindBox(d, at, end, AVC1) == Some((at + 8, end))
            && Lies(d, at + 8, EntryFields(t.w, t.h)) && Lies(d, at + 86, AvcConfig(t.sps, t.pps))
  {
    var entry, config := EntryFields(t.w, t.h), AvcConfig(t.sps, t.pps);
    var avc1 := Box(AVC1, entry + config);
    LiesInside(d, at, avc1);
    hide Header, Words, IsBox, FindBox, AvcConfig, EntryFields, Lies, Box;
    BoxIsBox(AVC1, entry + config);
    FindHit(d, at, at + |avc1|, avc1, AVC1);
    LiesSplit(d, at + 8, entry, config);
  }

  lemma EntryRead(d: seq<Byte>, at: nat, t: Track)
    requires |t.sps| <= 64 && |t.pps| <= 64
    requires Lies(d, at, Box(AVC1, EntryFields(t.w, t.h) + AvcConfig(t.sps, t.pps)))
    ensures var end := at + 105 + |t.sps| + |t.pps|;
            && end <= |d| && FindBox(d, at, end, AVC1) == Some((at + 8, end))
            && FindBox(d, at + 86, end, AVC_CONFIG) == Some((at + 94, end))
            && ReadBe16(d, at + 32) == t.w % TWO16 && ReadBe16(d, at + 34) == t.h % TWO16
            && ReadConfig(d, at + 94, end, t.w % TWO16, t.h % TWO16) == Some(Described(t))
  {
    hide *;
    EntryLies(d, at, t);
    SizeRead(d, at + 8, t.w, t.h);
    ConfigFound(d, at + 86, t);
  }

  lemma ConfigFound(d: seq<Byte>, at: nat, t: Track)
    requires |t.sps| <= 64 && |t.pps| <= 64 && Lies(d, at, AvcConfig(t.sps, t.pps))
    ensures var end := at + 19 + |t.sps| + |t.pps|;
            && end <= |d| && FindBox(d, at, end, AVC_CONFIG) == Some((at + 8, end))
            && ReadConfig(d, at + 8, end, t.w % TWO16, t.h % TWO16) == Some(Described(t))
  {
    var sps, pps := t.sps, t.pps;
    var config := AvcConfig(sps, pps);
    LiesInside(d, at, config);
    ConfigParts(sps, pps);
    hide Header, Words, IsBox, FindBox, AvcConfig, ReadConfig, Lies, ConfigStart, ConfigEnd, ProfileOf;
    BoxIsBox(AVC_CONFIG, ConfigStart(sps) + ConfigEnd(sps, pps));
    hide AvcConfig, Box;
    FindHit(d, at, at + |config|, config, AVC_CONFIG);
    ConfigRead(d, at + 8, sps, pps, t.w % TWO16, t.h % TWO16);
  }

  /** What a finished recording says of its pictures. */
  function SessionTrack(s: Session): Track { Track(Duration(s), s.w, s.h, s.sps, s.pps) }

  /** A finished recording carries the parameter sets its frames brought first. */
  lemma RecordingSets(w: nat, h: nat, calls: seq<Call>)
    requires Leftover(w, h, calls) == 0 && Fits(w, h, calls)
    requires |MovieBox(Play(w, h, calls))| < TWO32
    ensures var s := Play(w, h, calls);
            |s.file| >= DATA_START && ReadDescription(Finalized(s)) == Some(Described(SessionTrack(s)))
  {
    var s, fs := Play(w, h, calls), Accepted(w, h, calls);
    RunLaid(w, h, calls);
    SetsFit(w, h, calls);
    FinalLayout(s, fs);
    FileSets(Finalized(s), s, fs);
  }

  /**
   * For frames of at most 2 MiB and no midway failure nothing more is needed: a reader finds the size
   * given at the start, 4-byte length prefixes, and the first usable set of each kind among all units
   * offered, with the profile of the first set.
   */
  lemma RecordingSetsBounded(w: nat, h: nat, calls: seq<Call>)
    requires Bounded(calls) && Leftover(w, h, calls) == 0 && KeysLost(w, h, calls) == 0 && w < TWO16 && h < TWO16
    ensures var s, nals := Play(w, h, calls), Offered(w, h, calls);
            && |s.file| >= DATA_START
            && var sps, pps := FirstSet(7, nals), FirstSet(8, nals);
               ReadDescription(Finalized(s)) == Some(Description(w, h, ProfileOf(sps), 4, sps, pps))
  {
    hide ReadDescription, Finalized, MovieBox, FirstSet, ProfileOf, Offered, Play, Fits, Bounded, Leftover, KeysLost,
         Laid, Accepted, Duration;
    BoundedFits(w, h, calls);
    MovieFits(w, h, calls);
    RunSets(w, h, calls);
    RunLaid(w, h, calls);
    RecordingSets(w, h, calls);
  }

  lemma FileSets(d: seq<Byte>, s: Session, fs: seq<Frame>)
    requires 8 + |Data(fs)| < TWO32 && |MovieBox(s)| < TWO32
    requires d == Ftyp() + (Box(MDAT, Data(fs)) + MovieBox(s))
    requires SetFits(s.sps) && SetFits(s.pps)
    ensures ReadDescription(d) == Some(Described(SessionTrack(s)))
  {
    var t := SessionTrack(s);
    var stsd := Stsd(s.w, s.h, s.sps, s.pps);
    var tables := Tables(Delta(s), Sizes(s.samples), Offsets(s.samples), s.keys);
    hide Ftyp, Box, Movie, Data, Delta, Span, Lies, Descend, ReadDescription, Stsd, Tables, Sizes, Offsets, ProfileOf;
    FileTables(Data(fs), Span(s), t, tables);
    var stbl := (|d| - |tables| - |stsd|, |d|);
    DescriptionFound(d, stbl, t, tables);
  }

  lemma InitTables(d: seq<Byte>, t: Track, moov: seq<Byte>, trak: seq<Byte>, after: seq<Byte>)
    requires d == Ftyp() + moov && IsBox(moov, MOOV) && moov[8..] == Mvhd(0) + (trak + after)
    requires trak == Trak(t, EmptyTables()) && |trak| < TWO32
    ensures var last := 36 + 108 + |trak|;
            var stsd := Stsd(t.w, t.h, t.sps, t.pps);
            && last <= |d|
            && Descend(d, 0, |d|, TO_TABLES) == Some((last - 68 - |stsd|, last))
            && Lies(d, last - 68 - |stsd|, stsd + EmptyTables())
  {
    hide Descend, IsBox, Mvhd, Trak, Ftyp, EmptyTables, Stsd, Lies;
    MoovAt(d, moov, TO_TABLES);
    Associative(Mvhd(0), trak, after);
    LiesSplit(d, 36, Mvhd(0) + trak, after);
    TrackTables(d, 36, |d|, 0, t, EmptyTables());
  }

  lemma LiesWhole(d: seq<Byte>, s: seq<Byte>)
    requires d == s
    ensures Lies(d, 0, s)
  {
  }

  lemma BoxLength(s: seq<Byte>, kind: nat)
    requires IsBox(s, kind)
    ensures |s| >= 8
  {
  }

  lemma MoovAt(d: seq<Byte>, moov: seq<Byte>, path: seq<nat>)
    requires d == Ftyp() + moov && IsBox(moov, MOOV) && path != [] && path[0] == MOOV
    ensures |d| == 28 + |moov| >= 36
    ensures Descend(d, 0, |d|, path) == Descend(d, 36, |d|, path[1..]) && Lies(d, 36, moov[8..])
  {
    hide Descend, IsBox, Ftyp, Lies;
    LiesWhole(d, Ftyp() + moov);
    BoxLength(moov, MOOV);
    FtypBox();
    ThroughOne(d, 0, |d|, Ftyp(), FTYP, moov, path);
  }

  lemma FtypBox()
    ensures IsBox(Ftyp(), FTYP)
  {
    hide Header, Words, IsBox, Box;
    BoxIsBox(FTYP, Words([0x6D703432, 0, 0x6D703432, 0x6D703431, 0x69736F6D]));
  }

  /** So does the initialisation segment of the live stream. */
  lemma InitSegmentSets(t: Track)
    requires |t.sps| <= 64 && |t.pps| <= 64
    ensures ReadDescription(InitSegment(t)) == Some(Described(t))
  {
    var d := InitSegment(t);
    var trak := Trak(t, EmptyTables());
    var body := Mvhd(0) + (trak + Mvex());
    hide Descend, IsBox, Header, Words, Mvhd, Trak, Ftyp, Mvex, EmptyTables, ReadDescription, Stsd, Lies, ProfileOf;
    BoxIsBox(MOOV, body);
    InitTables(d, t, Box(MOOV, body), trak, Mvex());
    hide InitSegment, Box;
    var last := 36 + 108 + |trak|;
    DescriptionFound(d, (last - 68 - |Stsd(t.w, t.h, t.sps, t.pps)|, last), t, EmptyTables());
  }
}
