/** A recording session: the file as it grows, its sample and key frame tables, and its runs. */
module Recording {
  import opened Bytes
  import opened AnnexB
  import opened Boxes
  import opened Moov

  const MAX_SAMPLES: nat := 200000
  const MAX_MDAT: nat := 3500 * 1024 * 1024
  const MDAT_START: nat := 28
  const DATA_START: nat := 36

  datatype Frame = Frame(h264: seq<Byte>, key: bool, ts: nat)

  datatype Entry = Entry(offset: nat, size: nat)

  datatype Session = Session(
    w: nat, h: nat, file: seq<Byte>, samples: seq<Entry>, keys: seq<nat>, dataLen: nat,
    sps: seq<Byte>, pps: seq<Byte>, firstTs: nat, lastTs: nat)

  /** How the environment treats one call: memory for the tables, and the disk. */
  datatype Outcome = Fine | NoMemory | NoKeyMemory | IoError(junk: seq<Byte>)

  datatype Call = Call(frame: Frame, outcome: Outcome)

  function Created(w: nat, h: nat): Session {
    Session(w, h, Ftyp() + Header(0, MDAT), [], [], 0, [], [], 0, 0)
  }

  /** The stored form of a frame: every unit with its length in front. */
  function Stored(f: Frame): seq<Byte> { Prefixed(Walk(f.h264, 0)) }

  // ---------------------------------------------------------------- one call

  predicate IsParameterSet(n: Nal, kind: nat) {
    4 <= |n| <= 64 && n[0] % 32 == kind
  }

  /** The set already saved, or else the first fitting unit of the frame. */
  function SavedSet(saved: seq<Byte>, kind: nat, nals: seq<Nal>): seq<Byte> {
    if saved != [] || nals == [] then saved
    else if IsParameterSet(nals[0], kind) then nals[0]
    else SavedSet(saved, kind, nals[1..])
  }

  /** Limits checked before anything is touched; the sum is taken in 32 bits. */
  predicate Refused(s: Session, f: Frame) {
    |s.samples| >= MAX_SAMPLES || (s.dataLen + |f.h264| % TWO32) % TWO32 > MAX_MDAT
  }

  function WithSets(s: Session, f: Frame): Session {
    var nals := Walk(f.h264, 0);
    s.(sps := SavedSet(s.sps, 7, nals), pps := SavedSet(s.pps, 8, nals))
  }

  /** The key frame entry is made before the frame is written. */
  function WithKey(s: Session, f: Frame): Session {
    if f.key then s.(keys := s.keys + [|s.samples| + 1]) else s
  }

  function Appended(s: Session, f: Frame): (Session, int) {
    var bytes := Stored(f);
    var size := |bytes| % TWO32;
    var s1 := s.(file := s.file + bytes);
    if size == 0 then (s1, -1)
    else
      (s1.(samples := s.samples + [Entry(|s.file| % TWO32, size)],
           dataLen := (s.dataLen + size) % TWO32,
           firstTs := if s.samples == [] then f.ts else s.firstTs,
           lastTs := f.ts), 0)
  }

  function WriteFrame(s: Session, c: Call): (Session, int) {
    if Refused(s, c.frame) then (s, -1)
    else
      var s1 := WithSets(s, c.frame);
      match c.outcome
      case NoMemory => (s1, -1)
      case NoKeyMemory => if c.frame.key then (s1, -1) else Appended(s1, c.frame)
      case IoError(junk) => (WithKey(s1, c.frame).(file := s1.file + junk), -1)
      case Fine => Appended(WithKey(s1, c.frame), c.frame)
  }

  // ---------------------------------------------------------------- finishing

  const TWO64: nat := 0x1_0000_0000_0000_0000

  /** Milliseconds between the first and the last frame, in unsigned 64-bit arithmetic. */
  function Span(s: Session): nat { (s.lastTs - s.firstTs) % TWO64 }

  /** An interval of that many milliseconds in units of 1/90000 s, never zero. */
  function Ticks(ms: nat): nat {
    if ms == 0 then 3000
    else if ms * 90 % TWO32 == 0 then 1 else ms * 90 % TWO32
  }

  /** Average frame interval in units of 1/90000 s. */
  function Delta(s: Session): nat {
    if |s.samples| <= 1 then 3000 else Ticks(Span(s) / (|s.samples| - 1))
  }

  function Sizes(es: seq<Entry>): (xs: seq<nat>)
    ensures |xs| == |es| && forall i :: 0 <= i < |es| ==> xs[i] == es[i].size
  {
    seq(|es|, i requires 0 <= i < |es| => es[i].size)
  }

  function Offsets(es: seq<Entry>): (xs: seq<nat>)
    ensures |xs| == |es| && forall i :: 0 <= i < |es| ==> xs[i] == es[i].offset
  {
    seq(|es|, i requires 0 <= i < |es| => es[i].offset)
  }

  function Scaled(delta: nat, n: nat): nat { delta * n }

  function Duration(s: Session): nat { Scaled(Delta(s), |s.samples|) }

  function MovieBox(s: Session): seq<Byte> {
    Movie(Span(s), Track(Duration(s), s.w, s.h, s.sps, s.pps),
          Tables(Delta(s), Sizes(s.samples), Offsets(s.samples), s.keys))
  }

  /** The file has a playable end: frames were stored and both parameter sets were seen. */
  predicate Complete(s: Session) {
    s.samples != [] && s.sps != [] && s.pps != []
  }

  function Finalized(s: Session): seq<Byte>
    requires |s.file| >= DATA_START
  {
    s.file[..MDAT_START] + Be32(8 + s.dataLen) + s.file[MDAT_START + 4..] + MovieBox(s)
  }

  // ---------------------------------------------------------------- runs

  function Play(w: nat, h: nat, calls: seq<Call>): Session {
    if calls == [] then Created(w, h)
    else WriteFrame(Play(w, h, calls[..|calls| - 1]), calls[|calls| - 1]).0
  }

  /** The frames whose call returned success, in order. */
  function Accepted(w: nat, h: nat, calls: seq<Call>): seq<Frame> {
    if calls == [] then []
    else
      var m := |calls| - 1;
      Accepted(w, h, calls[..m])
      + if WriteFrame(Play(w, h, calls[..m]), calls[m]).1 == 0 then [calls[m].frame] else []
  }

  /** Bytes stored for the accepted frames. */
  function Total(fs: seq<Frame>): nat {
    if fs == [] then 0 else Total(fs[..|fs| - 1]) + |Stored(fs[|fs| - 1])|
  }

  /** Bytes a failed call leaves in the file. */
  function JunkOf(s: Session, c: Call): nat {
    if !Refused(s, c.frame) && c.outcome.IoError? then |c.outcome.junk| else 0
  }

  /** Bytes left behind by all failed writes of a run. */
  function Leftover(w: nat, h: nat, calls: seq<Call>): nat {
    if calls == [] then 0
    else
      var m := |calls| - 1;
      Leftover(w, h, calls[..m]) + JunkOf(Play(w, h, calls[..m]), calls[m])
  }

  /** A frame without any unit: nothing is stored for it (in the 32-bit count of bytes written). */
  predicate NoUnits(f: Frame) { |Stored(f)| % TWO32 == 0 }

  /** A key frame that is within the limits, but whose write fails or finds no unit to store. */
  predicate KeyLost(s: Session, c: Call) {
    c.frame.key && !Refused(s, c.frame) && (c.outcome.IoError? || (c.outcome.Fine? && NoUnits(c.frame)))
  }

  function KeysLost(w: nat, h: nat, calls: seq<Call>): nat {
    if calls == [] then 0
    else
      var m := |calls| - 1;
      KeysLost(w, h, calls[..m]) + if KeyLost(Play(w, h, calls[..m]), calls[m]) then 1 else 0
  }

  /** Numbers, from 1, of the key frames among the accepted ones. */
  function KeyNumbers(fs: seq<Frame>): seq<nat> {
    if fs == [] then []
    else KeyNumbers(fs[..|fs| - 1]) + if fs[|fs| - 1].key then [|fs|] else []
  }

  /** The data of all accepted frames, one after the other. */
  function Data(fs: seq<Frame>): (d: seq<Byte>)
    ensures |d| == Total(fs)
  {
    if fs == [] then [] else Data(fs[..|fs| - 1]) + Stored(fs[|fs| - 1])
  }

  /** Sample i begins where the stored forms of the frames before it end. */
  ghost predicate Tiled(es: seq<Entry>, fs: seq<Frame>) {
    |es| == |fs| && forall i :: 0 <= i < |fs| ==> es[i] == Slot(fs, i)
  }

  function Slot(fs: seq<Frame>, i: nat): Entry
    requires i < |fs|
  {
    Entry(DATA_START + Total(fs[..i]), |Stored(fs[i])|)
  }

  lemma {:induction false} TotalMonotone(fs: seq<Frame>, i: nat)
    requires i <= |fs|
    ensures Total(fs[..i]) <= Total(fs)
  {
    if i < |fs| {
      assert fs[..|fs| - 1][..i] == fs[..i];
      TotalMonotone(fs[..|fs| - 1], i);
    } else {
      assert fs[..i] == fs;
    }
  }

  /** What every run without left-over bytes keeps, as long as the data stays below 2^32. */
  ghost predicate Laid(s: Session, fs: seq<Frame>) {
    && s.file == Created(s.w, s.h).file + Data(fs)
    && s.dataLen == Total(fs)
    && Tiled(s.samples, fs)
  }

  lemma TiledAppend(es: seq<Entry>, fs: seq<Frame>, f: Frame)
    requires Tiled(es, fs)
    ensures Tiled(es + [Entry(DATA_START + Total(fs), |Stored(f)|)], fs + [f])
  {
    hide Total, Stored;
    var gs := fs + [f];
    forall i | 0 <= i < |fs| ensures Slot(gs, i) == Slot(fs, i) {
      assert gs[..i] == fs[..i];
    }
    assert gs[..|fs|] == fs;
  }

  lemma DataAppend(fs: seq<Frame>, f: Frame)
    ensures Data(fs + [f]) == Data(fs) + Stored(f) && Total(fs + [f]) == Total(fs) + |Stored(f)|
  {
    hide Stored;
    assert (fs + [f])[..|fs|] == fs;
  }

  lemma LaidAppend(s: Session, fs: seq<Frame>, f: Frame)
    requires Laid(s, fs) && DATA_START + Total(fs + [f]) < TWO32 && Stored(f) != []
    ensures Laid(Appended(s, f).0, fs + [f]) && Appended(s, f).1 == 0
  {
    hide Stored, Ftyp, Header, Data, Total, Tiled;
    DataAppend(fs, f);
    TiledAppend(s.samples, fs, f);
    Associative(Created(s.w, s.h).file, Data(fs), Stored(f));
  }

  lemma EmptyNotStored(s: Session, fs: seq<Frame>, f: Frame)
    requires Laid(s, fs) && Stored(f) == []
    ensures Appended(s, f).1 == -1 && Laid(Appended(s, f).0, fs)
  {
    hide Stored, Ftyp, Header, Total, Data;
    assert s.file + [] == s.file;
  }

  /** Parameter sets and key entries do not touch the layout. */
  lemma LaidAside(s: Session, s': Session, fs: seq<Frame>)
    requires Laid(s, fs)
    requires s'.w == s.w && s'.h == s.h && s'.file == s.file && s'.samples == s.samples && s'.dataLen == s.dataLen
    ensures Laid(s', fs)
  {
  }

  lemma LaidStep(s: Session, fs: seq<Frame>, c: Call)
    requires Laid(s, fs) && JunkOf(s, c) == 0
    requires |Stored(c.frame)| < TWO32
    requires WriteFrame(s, c).1 == 0 ==> DATA_START + Total(fs + [c.frame]) < TWO32
    ensures Laid(WriteFrame(s, c).0, if WriteFrame(s, c).1 == 0 then fs + [c.frame] else fs)
  {
    hide Laid, Stored, Total, SavedSet, Walk, Created;
    if !Refused(s, c.frame) {
      var s1 := WithSets(s, c.frame);
      var s2 := if c.outcome.Fine? || c.outcome.IoError? then WithKey(s1, c.frame) else s1;
      LaidAside(s, s1, fs);
      LaidAside(s, s2, fs);
      if c.outcome.IoError? {
        assert s1.file + [] == s1.file;
        LaidAside(s, WriteFrame(s, c).0, fs);
      } else if Stored(c.frame) == [] {
        EmptyNotStored(s2, fs, c.frame);
      } else if !c.outcome.NoMemory? && !(c.outcome.NoKeyMemory? && c.frame.key) {
        AppendedSucceeds(s2, c.frame);
        LaidAppend(s2, fs, c.frame);
      }
    }
  }

  lemma AppendedSucceeds(s: Session, f: Frame)
    requires 0 < |Stored(f)| < TWO32
    ensures Appended(s, f).1 == 0
  {
  }

  /** Every stored form fits a 32-bit length, and so does the whole file up to the movie header. */
  ghost predicate Fits(w: nat, h: nat, calls: seq<Call>) {
    && (forall i :: 0 <= i < |calls| ==> |Stored(calls[i].frame)| < TWO32)
    && DATA_START + Total(Accepted(w, h, calls)) < TWO32
  }

  /** Samples tile the media data from offset 36 with no gap, and the running length is exact. */
  lemma {:induction false} RunLaid(w: nat, h: nat, calls: seq<Call>)
    requires Leftover(w, h, calls) == 0 && Fits(w, h, calls)
    ensures Laid(Play(w, h, calls), Accepted(w, h, calls))
    ensures Play(w, h, calls).w == w && Play(w, h, calls).h == h
  {
    hide WriteFrame, Stored, Ftyp, Header;
    if calls != [] {
      var m := |calls| - 1;
      var s, fs := Play(w, h, calls[..m]), Accepted(w, h, calls[..m]);
      var all := Accepted(w, h, calls);
      assert all == fs || (all == fs + [calls[m].frame] && all[..|fs|] == fs);
      RunLaid(w, h, calls[..m]);
      WriteFrameKeepsSize(s, calls[m]);
      LaidStep(s, fs, calls[m]);
      if all == fs { assert WriteFrame(s, calls[m]).1 != 0; }
    }
  }

  lemma WriteFrameKeepsSize(s: Session, c: Call)
    ensures WriteFrame(s, c).0.w == s.w && WriteFrame(s, c).0.h == s.h
  {
  }

  /** File length and running length in any run, failed calls included. */
  lemma {:induction false} RunLength(w: nat, h: nat, calls: seq<Call>)
    requires Fits(w, h, calls)
    ensures var s, fs := Play(w, h, calls), Accepted(w, h, calls);
            && |s.file| == DATA_START + Total(fs) + Leftover(w, h, calls)
            && s.dataLen == Total(fs) && |s.samples| == |fs|
  {
    hide WriteFrame, Stored, Ftyp, Header, JunkOf, Refused;
    if calls != [] {
      var m := |calls| - 1;
      var s, fs := Play(w, h, calls[..m]), Accepted(w, h, calls[..m]);
      var all := Accepted(w, h, calls);
      assert all == fs || (all == fs + [calls[m].frame] && all[..|fs|] == fs);
      RunLength(w, h, calls[..m]);
      WriteFrameLength(s, calls[m]);
      if all == fs { assert WriteFrame(s, calls[m]).1 != 0; }
    }
  }

  lemma WriteFrameLength(s: Session, c: Call)
    requires |Stored(c.frame)| < TWO32 && s.dataLen < TWO32
    requires WriteFrame(s, c).1 == 0 ==> s.dataLen + |Stored(c.frame)| < TWO32
    ensures var (s', rc) := WriteFrame(s, c);
            var n := if rc == 0 then |Stored(c.frame)| else 0;
            && |s'.file| == |s.file| + n + JunkOf(s, c) && s'.dataLen == s.dataLen + n
            && |s'.samples| == |s.samples| + (if rc == 0 then 1 else 0)
  {
    hide Stored, SavedSet, Walk;
  }

  /** The patched size of the media box reaches exactly to the movie header iff no bytes were left behind. */
  lemma MdatSizeExactIff(w: nat, h: nat, calls: seq<Call>)
    requires Fits(w, h, calls)
    ensures var s := Play(w, h, calls);
            MDAT_START + (8 + s.dataLen) == |s.file| <==> Leftover(w, h, calls) == 0
  {
    RunLength(w, h, calls);
  }

  // ---------------------------------------------------------------- limits

  /** The stored form is at most a third longer than the byte stream. */
  lemma {:induction false} StoredBound(d: seq<Byte>, from: nat)
    requires from <= |d|
    ensures 3 * |Prefixed(Walk(d, from))| <= 4 * (|d| - from)
    decreases |d| - from
  {
    hide CodeLen, Prefixed, UnitAt;
    var sc := Find(d, from);
    if sc.Some? {
      var pos := sc.value + CodeLen(d, sc.value);
      StoredStep(d, from, pos);
      var next := Find(d, pos);
      hide Find, Walk;
      if next.Some? {
        WalkAgain(d, pos);
        StoredBound(d, next.value);
        assert |UnitAt(d, pos)| == next.value - pos by { UnitLength(d, pos); }
      } else {
        WalkEnd(d, pos);
        NothingStored();
        assert |UnitAt(d, pos)| == |d| - pos by { UnitLength(d, pos); }
      }
    } else {
      WalkEnd(d, from);
      NothingStored();
    }
  }

  lemma NothingStored()
    ensures Prefixed([]) == []
  {
  }

  lemma UnitLength(d: seq<Byte>, pos: nat)
    requires pos <= |d|
    ensures |UnitAt(d, pos)| == if Find(d, pos).None? then |d| - pos else Find(d, pos).value - pos
  {
  }

  lemma WalkAgain(d: seq<Byte>, pos: nat)
    requires Find(d, pos).Some?
    ensures Walk(d, pos) == Walk(d, Find(d, pos).value)
  {
    hide CodeLen, UnitAt;
    FindAgain(d, pos);
  }

  lemma StoredStep(d: seq<Byte>, from: nat, pos: nat)
    requires Find(d, from).Some? && pos == Find(d, from).value + CodeLen(d, Find(d, from).value) && pos <= |d|
    ensures |Prefixed(Walk(d, from))| == 4 + |UnitAt(d, pos)| + |Prefixed(Walk(d, pos))|
  {
    hide Find, CodeLen, Be32, UnitAt;
    var us: seq<Nal> := [UnitAt(d, pos)] + Walk(d, pos);
    assert Walk(d, from) == us && us[1..] == Walk(d, pos);
  }

  const MAX_FRAME: nat := 2 * 1024 * 1024

  ghost predicate Bounded(calls: seq<Call>) {
    forall i :: 0 <= i < |calls| ==> |calls[i].frame.h264| <= MAX_FRAME
  }

  /**
   * The cap is checked on the byte-stream length while the longer stored form is written; with
   * frames of at most 2 MiB nothing reaches 2^32 all the same.
   */
  lemma {:induction false} BoundedFits(w: nat, h: nat, calls: seq<Call>)
    requires Bounded(calls)
    ensures Fits(w, h, calls)
    ensures Total(Accepted(w, h, calls)) <= MAX_MDAT + MAX_FRAME / 3
    ensures |Accepted(w, h, calls)| <= MAX_SAMPLES
  {
    hide WriteFrame, Stored, Walk, Refused;
    if calls != [] {
      var m := |calls| - 1;
      var c := calls[m];
      var s, fs := Play(w, h, calls[..m]), Accepted(w, h, calls[..m]);
      var all := Accepted(w, h, calls);
      assert all == fs || (all == fs + [c.frame] && all[..|fs|] == fs);
      BoundedFits(w, h, calls[..m]);
      RunLength(w, h, calls[..m]);
      assert 3 * |Stored(c.frame)| <= 4 * |c.frame.h264| by { StoredIs(c.frame); StoredBound(c.frame.h264, 0); }
      if WriteFrame(s, c).1 == 0 {
        RefusedFails(s, c);
        AcceptedBound(s, c.frame);
      }
    }
  }

  lemma StoredIs(f: Frame)
    ensures Stored(f) == Prefixed(Walk(f.h264, 0))
  {
  }

  lemma RefusedFails(s: Session, c: Call)
    ensures Refused(s, c.frame) ==> WriteFrame(s, c) == (s, -1)
  {
  }

  lemma AcceptedBound(s: Session, f: Frame)
    requires !Refused(s, f) && s.dataLen <= MAX_MDAT + MAX_FRAME / 3
    requires |f.h264| <= MAX_FRAME && 3 * |Stored(f)| <= 4 * |f.h264|
    ensures s.dataLen + |Stored(f)| <= MAX_MDAT + MAX_FRAME / 3 && |s.samples| < MAX_SAMPLES
  {
    hide Stored;
  }

  // ---------------------------------------------------------------- key frames

  /** The numbers listed are exactly those of the key frames, in increasing order. */
  lemma {:induction false} KeyNumbersMeaning(fs: seq<Frame>)
    ensures var ks := KeyNumbers(fs);
            && |ks| <= |fs|
            && (forall i :: 0 <= i < |ks| ==> 1 <= ks[i] <= |fs| && fs[ks[i] - 1].key)
            && (forall i, j :: 0 <= i < j < |ks| ==> ks[i] < ks[j])
            && (forall n :: 1 <= n <= |fs| && fs[n - 1].key ==> n in ks)
  {
    if fs != [] {
      var m := |fs| - 1;
      var ks := KeyNumbers(fs[..m]);
      KeyNumbersMeaning(fs[..m]);
      forall n | 1 <= n <= |fs| && fs[n - 1].key ensures n in KeyNumbers(fs) {
        if n <= m {
          assert fs[..m][n - 1].key;
          assert n in ks;
        }
      }
    }
  }

  lemma PrefixedEmptyIff(nals: seq<Nal>)
    ensures |Prefixed(nals)| == 0 <==> nals == []
  {
  }

  lemma WalkEmptyIff(d: seq<Byte>)
    ensures Walk(d, 0) == [] <==> Find(d, 0).None?
  {
    hide Find, CodeLen, UnitAt;
  }

  /** A frame has no unit exactly if it contains no start code. */
  lemma NoUnitsIff(f: Frame)
    requires |Stored(f)| < TWO32
    ensures NoUnits(f) <==> Find(f.h264, 0).None?
  {
    hide Find, Walk, Prefixed;
    WalkEmptyIff(f.h264);
    PrefixedEmptyIff(Walk(f.h264, 0));
    assert Stored(f) == Prefixed(Walk(f.h264, 0));
    hide Stored;
    SmallMod(|Stored(f)|);
  }

  lemma SmallMod(n: nat)
    requires n < TWO32
    ensures n % TWO32 == n
  {
  }

  lemma WriteFrameKeys(s: Session, c: Call)
    ensures var (s', rc) := WriteFrame(s, c);
            s'.keys == s.keys + if (rc == 0 && c.frame.key) || KeyLost(s, c) then [|s.samples| + 1] else []
  {
    hide Stored, SavedSet, Walk, Refused;
  }

  /** The key frame table counts the accepted key frames and the lost ones. */
  lemma {:induction false} RunKeys(w: nat, h: nat, calls: seq<Call>)
    requires Fits(w, h, calls)
    ensures var s, fs := Play(w, h, calls), Accepted(w, h, calls);
            && |s.keys| == |KeyNumbers(fs)| + KeysLost(w, h, calls)
            && (KeysLost(w, h, calls) == 0 ==> s.keys == KeyNumbers(fs))
  {
    hide WriteFrame, Stored, KeyLost, Refused;
    if calls != [] {
      var m := |calls| - 1;
      var s, fs := Play(w, h, calls[..m]), Accepted(w, h, calls[..m]);
      var all := Accepted(w, h, calls);
      assert all == fs || (all == fs + [calls[m].frame] && all[..|fs|] == fs);
      RunLength(w, h, calls[..m]);
      RunKeys(w, h, calls[..m]);
      WriteFrameKeys(s, calls[m]);
      assert KeyLost(s, calls[m]) ==> WriteFrame(s, calls[m]).1 != 0 by { LostFails(s, calls[m]); }
    }
  }

  /** These are exactly the calls that leave a key frame entry behind and report failure. */
  lemma LostFails(s: Session, c: Call)
    ensures KeyLost(s, c) <==> WriteFrame(s, c).1 != 0 && |WriteFrame(s, c).0.keys| > |s.keys|
  {
    hide Stored, SavedSet, Walk, Refused;
  }

  /** The table lists exactly the key frames iff no admitted key frame failed to be written or had no unit. */
  lemma KeysExactIff(w: nat, h: nat, calls: seq<Call>)
    requires Fits(w, h, calls)
    ensures Play(w, h, calls).keys == KeyNumbers(Accepted(w, h, calls)) <==> KeysLost(w, h, calls) == 0
  {
    RunKeys(w, h, calls);
  }

  /**
   * No disk error is needed: a key frame without any start code leaves an entry for sample 1 in a
   * table of no samples.
   */
  lemma KeyWithoutUnits(w: nat, h: nat)
    ensures var calls := [Call(Frame([], true, 0), Fine)];
            && Fits(w, h, calls) && KeysLost(w, h, calls) == 1
            && Play(w, h, calls).keys == [1] && Accepted(w, h, calls) == []
  {
    var f := Frame([], true, 0);
    var calls := [Call(f, Fine)];
    assert calls[..0] == [];
    assert Walk(f.h264, 0) == [] && Stored(f) == [];
    assert Play(w, h, []) == Created(w, h);
    hide Ftyp, Header;
    assert !Refused(Created(w, h), f);
    assert Accepted(w, h, calls) == [];
  }

  /** A failed write that got one byte out leaves the media data box one byte short of the movie header. */
  lemma OneByteLeft(w: nat, h: nat, b: Byte)
    ensures var calls := [Call(Frame([], false, 0), IoError([b]))];
            && Fits(w, h, calls)
            && MDAT_START + (8 + Play(w, h, calls).dataLen) + 1 == |Play(w, h, calls).file|
  {
    var calls := [Call(Frame([], false, 0), IoError([b]))];
    assert calls[..0] == [];
    assert Play(w, h, []) == Created(w, h);
    hide Ftyp, Header;
    assert Accepted(w, h, calls) == [];
  }

  lemma {:induction false} KeysSmall(w: nat, h: nat, calls: seq<Call>)
    requires Fits(w, h, calls)
    ensures var s := Play(w, h, calls); forall i :: 0 <= i < |s.keys| ==> s.keys[i] <= |s.samples| + 1
  {
    hide WriteFrame, Stored, KeyLost;
    if calls != [] {
      var m := |calls| - 1;
      var s, fs := Play(w, h, calls[..m]), Accepted(w, h, calls[..m]);
      var all := Accepted(w, h, calls);
      assert all == fs || (all == fs + [calls[m].frame] && all[..|fs|] == fs);
      RunLength(w, h, calls[..m]);
      RunLength(w, h, calls);
      KeysSmall(w, h, calls[..m]);
      WriteFrameKeys(s, calls[m]);
    }
  }

  predicate SetFits(saved: seq<Byte>) { saved == [] || 4 <= |saved| <= 64 }

  lemma {:induction false} SavedSetFits(saved: seq<Byte>, kind: nat, nals: seq<Nal>)
    requires SetFits(saved)
    ensures SetFits(SavedSet(saved, kind, nals))
  {
    if saved == [] && nals != [] && !IsParameterSet(nals[0], kind) {
      SavedSetFits(saved, kind, nals[1..]);
    }
  }

  /** Parameter sets are absent or of a length the header's fixed fields can hold. */
  lemma {:induction false} SetsFit(w: nat, h: nat, calls: seq<Call>)
    ensures SetFits(Play(w, h, calls).sps) && SetFits(Play(w, h, calls).pps)
  {
    if calls != [] {
      var m := |calls| - 1;
      SetsFit(w, h, calls[..m]);
      CallSets(Play(w, h, calls[..m]), calls[m]);
      hide WriteFrame;
    }
  }

  lemma CallSets(s: Session, c: Call)
    requires SetFits(s.sps) && SetFits(s.pps)
    ensures SetFits(WriteFrame(s, c).0.sps) && SetFits(WriteFrame(s, c).0.pps)
  {
    hide Stored, Walk, SavedSet, Refused, SetFits;
    var nals := Walk(c.frame.h264, 0);
    SavedSetFits(s.sps, 7, nals);
    SavedSetFits(s.pps, 8, nals);
  }

  // ---------------------------------------------------------------- which parameter sets

  /** The units of all frames that were not refused, in order: also of those that failed later. */
  function Offered(w: nat, h: nat, calls: seq<Call>): seq<Nal> {
    if calls == [] then []
    else
      var m := |calls| - 1;
      Offered(w, h, calls[..m])
      + if Refused(Play(w, h, calls[..m]), calls[m].frame) then [] else Walk(calls[m].frame.h264, 0)
  }

  /** The first unit of that kind with 4 to 64 bytes; empty if there is none. */
  function FirstSet(kind: nat, nals: seq<Nal>): (r: seq<Byte>)
    ensures r == [] ==> forall i :: 0 <= i < |nals| && 4 <= |nals[i]| <= 64 ==> nals[i][0] % 32 != kind
    ensures r != [] ==> exists i :: 0 <= i < |nals| && nals[i] == r && 4 <= |r| <= 64 && r[0] % 32 == kind
                                    && forall j :: 0 <= j < i && 4 <= |nals[j]| <= 64 ==> nals[j][0] % 32 != kind
  {
    if nals == [] then []
    else if IsParameterSet(nals[0], kind) then nals[0]
    else FirstSet(kind, nals[1..])
  }

  lemma {:induction false} SavedIsFirst(before: seq<Nal>, kind: nat, nals: seq<Nal>)
    ensures SavedSet(FirstSet(kind, before), kind, nals) == FirstSet(kind, before + nals)
    decreases |before|, |nals|
  {
    if before != [] {
      assert (before + nals)[1..] == before[1..] + nals;
      if !IsParameterSet(before[0], kind) {
        SavedIsFirst(before[1..], kind, nals);
      }
    } else if nals != [] {
      assert before + nals == nals && [] + nals[1..] == nals[1..];
      if !IsParameterSet(nals[0], kind) {
        SavedIsFirst([], kind, nals[1..]);
      }
    } else {
      assert before + nals == [];
    }
  }

  lemma WriteFrameSets(s: Session, c: Call)
    ensures var s' := WriteFrame(s, c).0; var nals := Walk(c.frame.h264, 0);
            if Refused(s, c.frame) then s' == s
            else s'.sps == SavedSet(s.sps, 7, nals) && s'.pps == SavedSet(s.pps, 8, nals)
  {
    hide Stored, Walk, SavedSet, Refused;
  }

  /** In any run the session keeps the first usable set of each kind among the frames not refused. */
  lemma {:induction false} RunSets(w: nat, h: nat, calls: seq<Call>)
    ensures var s, nals := Play(w, h, calls), Offered(w, h, calls);
            s.sps == FirstSet(7, nals) && s.pps == FirstSet(8, nals)
  {
    hide WriteFrame, Refused, Walk, SavedSet, Ftyp, Header;
    if calls != [] {
      hide FirstSet;
      var m := |calls| - 1;
      var before := Offered(w, h, calls[..m]);
      assert before + [] == before;
      RunSets(w, h, calls[..m]);
      WriteFrameSets(Play(w, h, calls[..m]), calls[m]);
      SavedIsFirst(before, 7, Walk(calls[m].frame.h264, 0));
      SavedIsFirst(before, 8, Walk(calls[m].frame.h264, 0));
    }
  }

  // ---------------------------------------------------------------- which frames, and when

  /**
   * A call succeeds exactly within the limits of 200000 samples and 3500 MiB, with a table entry to
   * be had, an intact disk, and a start code in the frame.
   */
  lemma AcceptedIff(s: Session, c: Call)
    requires |Stored(c.frame)| < TWO32
    ensures WriteFrame(s, c).1 == 0 <==>
              && |s.samples| < 200000
              && (s.dataLen + |c.frame.h264| % TWO32) % TWO32 <= 3500 * 1024 * 1024
              && (c.outcome.Fine? || (c.outcome.NoKeyMemory? && !c.frame.key))
              && Find(c.frame.h264, 0).Some?
  {
    NoUnitsIff(c.frame);
    hide Stored, Walk, SavedSet, Find;
  }

  lemma WriteFrameTimes(s: Session, c: Call)
    ensures var (s', rc) := WriteFrame(s, c);
            if rc == 0 then s'.lastTs == c.frame.ts && s'.firstTs == if s.samples == [] then c.frame.ts else s.firstTs
            else s'.lastTs == s.lastTs && s'.firstTs == s.firstTs
  {
    hide Stored, Walk, SavedSet, Refused;
  }

  /** The session remembers when the first and the last accepted frame were taken. */
  lemma {:induction false} RunTimes(w: nat, h: nat, calls: seq<Call>)
    requires Fits(w, h, calls)
    ensures var s, fs := Play(w, h, calls), Accepted(w, h, calls);
            fs != [] ==> s.firstTs == fs[0].ts && s.lastTs == fs[|fs| - 1].ts
  {
    hide WriteFrame, Stored, Ftyp, Header;
    if calls != [] {
      var m := |calls| - 1;
      var s, fs := Play(w, h, calls[..m]), Accepted(w, h, calls[..m]);
      var all := Accepted(w, h, calls);
      assert all == fs || (all == fs + [calls[m].frame] && all[..|fs|] == fs);
      RunTimes(w, h, calls[..m]);
      RunLength(w, h, calls[..m]);
      WriteFrameTimes(s, calls[m]);
    }
  }

  /** n intervals of delta ticks fall behind span milliseconds by less than a millisecond an interval. */
  predicate Follows(delta: nat, n: nat, span: nat) {
    delta * n <= 90 * span < (delta + 90) * n
  }

  /** Division leaves less than one unit for each part. */
  lemma Quotient(span: nat, n: nat)
    requires n > 0
    ensures Follows(span / n * 90, n, span)
  {
    var q := span / n;
    assert span == q * n + span % n;
    assert q * 90 * n == 90 * (q * n) && (q * 90 + 90) * n == 90 * (q * n) + 90 * n;
  }

  lemma SmallQuotient(span: nat, n: nat)
    requires n > 0
    ensures span / n == 0 <==> span < n
  {
  }

  lemma TicksMeaning(span: nat, n: nat)
    requires n > 0
    ensures span < n ==> Ticks(span / n) == 3000
    ensures n <= span && span / n * 90 < TWO32 ==> Ticks(span / n) == span / n * 90
  {
    SmallQuotient(span, n);
    var q := span / n;
  }

  lemma SpanIs(s: Session, span: nat)
    requires s.lastTs - s.firstTs == span < TWO64
    ensures Span(s) == span
  {
  }

  lemma DeltaIs(s: Session, n: nat, span: nat)
    requires n > 0 && |s.samples| == n + 1 && s.lastTs - s.firstTs == span < TWO64
    ensures Delta(s) == Ticks(span / n)
  {
    SpanIs(s, span);
    hide Ticks, Span;
  }

  /** The recorded time is the time from the first accepted frame to the last. */
  lemma SpanMeaning(w: nat, h: nat, calls: seq<Call>)
    requires Fits(w, h, calls) && Accepted(w, h, calls) != []
    ensures var fs := Accepted(w, h, calls);
            var span := fs[|fs| - 1].ts - fs[0].ts;
            0 <= span < TWO64 ==> Span(Play(w, h, calls)) == span
  {
    hide *;
    RunTimes(w, h, calls);
    var fs := Accepted(w, h, calls);
    var span := fs[|fs| - 1].ts - fs[0].ts;
    if 0 <= span < TWO64 { SpanIs(Play(w, h, calls), span); }
  }

  /** The duration given to n + 1 samples whose first and last are span milliseconds apart. */
  ghost predicate Timed(delta: nat, n: nat, span: int) {
    && (n == 0 ==> delta == 3000)
    && (n > 0 && 0 <= span < TWO64 ==>
          if span < n then delta == 3000 else span / n * 90 < TWO32 ==> Follows(delta, n, span))
  }

  lemma DeltaTimed(s: Session, n: nat, span: int)
    requires |s.samples| == n + 1 && s.lastTs - s.firstTs == span
    ensures Timed(Delta(s), n, span)
  {
    hide Ticks, Span, Follows;
    if n == 0 {
      assert Delta(s) == 3000;
    } else if 0 <= span < TWO64 {
      DeltaIs(s, n, span);
      hide Delta;
      TicksMeaning(span, n);
      Quotient(span, n);
    }
  }

  /**
   * The sample duration is the average frame interval: over the whole recording, in units of 1/90000 s,
   * playing falls behind the clock by less than a millisecond a frame.  Without an interval, or with
   * one below a millisecond, it is 1/30 s.
   */
  lemma PlayingTime(w: nat, h: nat, calls: seq<Call>)
    requires Fits(w, h, calls) && Accepted(w, h, calls) != []
    ensures var s, fs := Play(w, h, calls), Accepted(w, h, calls);
            Timed(Delta(s), |fs| - 1, fs[|fs| - 1].ts - fs[0].ts)
  {
    hide *;
    RunTimes(w, h, calls);
    RunLength(w, h, calls);
    var s, fs := Play(w, h, calls), Accepted(w, h, calls);
    DeltaTimed(s, |fs| - 1, fs[|fs| - 1].ts - fs[0].ts);
  }
}
