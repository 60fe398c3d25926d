/** The recorder's muxer in place: a session object whose calls append to its file. */
module RecMp4Impl {
  import opened Bytes
  import opened AnnexB
  import opened Boxes
  import opened Moov
  import opened BoxWriting
  import opened Recording

  /** The units of a byte stream, in the order the walk reports them to its callback. */
  method NalWalk(d: seq<Byte>) returns (nals: seq<Nal>)
    ensures nals == Walk(d, 0)
  {
    hide Find, CodeLen, Walk;
    nals := [];
    var from := 0;
    while from + 3 <= |d|
      invariant nals + Walk(d, from) == Walk(d, 0)
      decreases |d| - from
    {
      var sc, pos := NalFind(d, from);
      if sc.None? {
        break;
      }
      var next, _ := NalFind(d, pos);
      var nlen := if next.None? then |d| - pos else next.value - pos;
      WalkNext(d, from, pos, d[pos..pos + nlen]);
      Associative(nals, [d[pos..pos + nlen]], Walk(d, pos));
      nals := nals + [d[pos..pos + nlen]];
      from := pos;
      if next.None? {
        break;
      }
    }
    WalkEnd(d, from);
  }

  class RecMp4 {
    const w: nat
    const h: nat
    var file: seq<Byte>
    var samples: seq<Entry>
    var keyframes: seq<nat>
    var dataLen: nat
    var sps: seq<Byte>
    var pps: seq<Byte>
    var setsWritten: bool
    var firstTs: nat
    var lastTs: nat

    ghost predicate Valid()
      reads this
    {
      |file| >= DATA_START && (setsWritten ==> sps != [] && pps != [])
    }

    /** The session as a value. */
    ghost function Value(): Session
      reads this
    {
      Session(w, h, file, samples, keyframes, dataLen, sps, pps, firstTs, lastTs)
    }

    constructor (w: nat, h: nat)
      ensures Valid() && Value() == Created(w, h)
    {
      hide Header, Ftyp;
      this.w, this.h := w, h;
      samples, keyframes, dataLen, sps, pps, setsWritten, firstTs, lastTs := [], [], 0, [], [], false, 0, 0;
      file := [];
      new;
      var out := new BoxWriter();
      out.PutFtyp();
      out.Head(0, MDAT);
      file := out.out;
    }

    /** Saves the first usable parameter set of each sort among the units of a frame. */
    method SaveSets(nals: seq<Nal>)
      requires Valid()
      modifies `sps, `pps, `setsWritten
      ensures Valid() && sps == SavedSet(old(sps), 7, nals) && pps == SavedSet(old(pps), 8, nals)
    {
      for i := 0 to |nals|
        invariant Valid()
        invariant SavedSet(sps, 7, nals[i..]) == SavedSet(old(sps), 7, nals)
        invariant SavedSet(pps, 8, nals[i..]) == SavedSet(old(pps), 8, nals)
      {
        var n := nals[i];
        assert nals[i..][0] == n && nals[i..][1..] == nals[i + 1..];
        if !setsWritten {
          if |n| >= 4 && n[0] % 32 == 7 && |n| <= 64 && sps == [] {
            sps := n;
          } else if |n| >= 4 && n[0] % 32 == 8 && |n| <= 64 && pps == [] {
            pps := n;
          }
          if sps != [] && pps != [] {
            setsWritten := true;
          }
        }
      }
    }

    /** Appends every unit with its length in front; the 32-bit count of bytes written is returned. */
    method StoreUnits(nals: seq<Nal>) returns (written: nat)
      modifies `file
      ensures file == old(file) + Prefixed(nals) && written == |Prefixed(nals)| % TWO32
    {
      hide Be32;
      written := 0;
      ghost var before, all := file, Prefixed(nals);
      for i := 0 to |nals|
        invariant file + Prefixed(nals[i..]) == before + all
        invariant (written + |Prefixed(nals[i..])|) % TWO32 == |all| % TWO32 && written < TWO32
      {
        var n := nals[i];
        ghost var rest := Prefixed(nals[i + 1..]);
        file := file + Be32(|n|);
        file := file + n;
        WrapAdd(written, |n| + 4, |rest|);
        written := (written + |n| + 4) % TWO32;
      }
      assert Prefixed(nals[|nals|..]) == [];
    }

    method WriteFrame(f: Frame, outcome: Outcome) returns (rc: int)
      requires Valid()
      modifies this
      ensures Valid() && (Value(), rc) == Recording.WriteFrame(old(Value()), Call(f, outcome))
    {
      hide Prefixed, Walk, SavedSet;
      if |samples| >= MAX_SAMPLES || (dataLen + |f.h264| % TWO32) % TWO32 > MAX_MDAT {
        return -1;
      }
      var nals := NalWalk(f.h264);
      SaveSets(nals);
      if outcome.NoMemory? {
        return -1;
      }
      if f.key {
        if outcome.NoKeyMemory? {
          return -1;
        }
        keyframes := keyframes + [|samples| + 1];
      }
      if outcome.IoError? {
        file := file + outcome.junk;
        return -1;
      }
      var offset := |file|;
      var written := StoreUnits(nals);
      if written == 0 {
        return -1;
      }
      samples := samples + [Entry(offset % TWO32, written)];
      dataLen := (dataLen + written) % TWO32;
      if |samples| == 1 {
        firstTs := f.ts;
      }
      lastTs := f.ts;
      return 0;
    }

    method AverageDelta() returns (delta: nat)
      ensures delta == Delta(Value())
    {
      hide Ticks;
      if |samples| <= 1 {
        return 3000;
      }
      var span := (lastTs - firstTs) % TWO64;
      delta := ToTicks(span / (|samples| - 1));
    }

    method TableColumns() returns (sizes: seq<nat>, offsets: seq<nat>)
      ensures sizes == Sizes(samples) && offsets == Offsets(samples)
    {
      sizes, offsets := [], [];
      for i := 0 to |samples|
        invariant sizes == Sizes(samples)[..i] && offsets == Offsets(samples)[..i]
      {
        sizes := sizes + [samples[i].size];
        offsets := offsets + [samples[i].offset];
      }
    }

    /** Patches the media data size and appends the movie header; -1 when there is nothing to play. */
    method Finalize() returns (rc: int)
      requires Valid()
      modifies `file
      ensures rc == 0 <==> Complete(old(Value()))
      ensures rc == 0 ==> file == Finalized(old(Value()))
      ensures rc != 0 ==> rc == -1 && file == old(file)
    {
      hide Movie, Tables, Be32;
      if |samples| == 0 || |sps| == 0 || |pps| == 0 {
        return -1;
      }
      var delta := AverageDelta();
      var sizes, offsets := TableColumns();
      var span := (lastTs - firstTs) % TWO64;
      hide Delta, Sizes, Offsets;
      var out := new BoxWriter();
      out.Raw(file[..MDAT_START]);
      out.U32(8 + dataLen);
      out.Raw(file[MDAT_START + 4..]);
      out.PutMoov(span, Track(Scaled(delta, |samples|), w, h, sps, pps), delta, sizes, offsets, keyframes);
      file := out.out;
      return 0;
    }
  }

  method ToTicks(ms: nat) returns (ticks: nat)
    ensures ticks == Ticks(ms)
  {
    ticks := 3000;
    if ms > 0 {
      ticks := ms * 90 % TWO32;
      if ticks == 0 {
        ticks := 1;
      }
    }
  }

  lemma WrapAdd(a: nat, b: nat, c: nat)
    ensures ((a + b) % TWO32 + c) % TWO32 == (a + (b + c)) % TWO32
  {
  }
}
