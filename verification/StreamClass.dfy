/** The live stream in place: the producer's ring and a client that reads it. */
module H264StreamImpl {
  import opened Common
  import opened Bytes
  import opened AnnexB
  import opened Avcc
  import opened Moov
  import opened BoxWriting
  import opened RecMp4Impl
  import opened StreamRing

  class H264Stream {
    const ring: array<Entry>
    var head: nat
    var count: nat
    var nextSeq: nat
    var epoch: nat
    var stop: bool
    var w: nat
    var h: nat
    var fps: nat
    var sps: seq<Byte>
    var pps: seq<Byte>
    var pushed: nat
    var dropped: nat
    /** Every frame ever queued. */
    ghost var log: seq<Entry>

    ghost predicate Valid()
      reads this, ring
    {
      RingOk(Value(), log)
    }

    ghost function Value(): Stream
      reads this, ring
    {
      Stream(ring[..], head, count, nextSeq, epoch, stop, w, h, fps, sps, pps, pushed, dropped)
    }

    constructor ()
      ensures Valid() && fresh(ring) && log == [] && epoch == 0 && !stop && count == 0
    {
      ring := new Entry[RING_LEN](_ => NO_ENTRY);
      head, count, nextSeq, epoch, stop := 0, 0, 0, 0, false;
      w, h, fps, sps, pps, pushed, dropped := 0, 0, 0, [], [], 0, 0;
      log := [];
    }

    method DropOldest()
      requires count > 0 && head < RING_LEN
      modifies `head, `count
      ensures head == (old(head) + 1) % RING_LEN && count == old(count) - 1
    {
      head := (head + 1) % RING_LEN;
      count := count - 1;
    }

    method Clear()
      requires head < RING_LEN
      modifies `head, `count
      ensures count == 0 && head == (old(head) + old(count)) % RING_LEN
    {
      while count > 0
        invariant head < RING_LEN && (head + count) % RING_LEN == (old(head) + old(count)) % RING_LEN
      {
        DropOldest();
      }
    }

    /** Starts a session: a new session number and an empty ring. */
    method PushConfig(w: nat, h: nat, fps: nat, sps: seq<Byte>, pps: seq<Byte>)
      requires Valid()
      modifies this
      ensures Valid() && log == old(log)
      ensures Value() == StreamRing.PushConfig(old(Value()), w, h, fps, sps, pps)
    {
      hide RingOk;
      ghost var before := Value();
      assert head < RING_LEN by { ShapeOf(before, log); }
      Clear();
      epoch := (epoch + 1) % TWO32;
      SetSession(w, h, fps, sps, pps);
      ClearedOk(before, log, Value());
    }

    method SetSession(w: nat, h: nat, fps: nat, sps: seq<Byte>, pps: seq<Byte>)
      modifies `w, `h, `fps, `sps, `pps
      ensures this.w == w && this.h == h && this.fps == fps
      ensures this.sps == FittingSet(sps) && this.pps == FittingSet(pps)
    {
      this.w, this.h, this.fps := w, h, fps;
      this.sps, this.pps := [], [];
      if 0 < |sps| <= 64 {
        this.sps := sps;
      }
      if 0 < |pps| <= 64 {
        this.pps := pps;
      }
    }

    method CollectSets(data: seq<Byte>)
      modifies `sps, `pps
      ensures sps == CollectedSet(old(sps), 7, Walk(data, 0)) && pps == CollectedSet(old(pps), 8, Walk(data, 0))
    {
      hide Walk;
      if sps != [] && pps != [] {
        return;
      }
      var nals := NalWalk(data);
      for i := 0 to |nals|
        invariant CollectedSet(sps, 7, nals[i..]) == CollectedSet(old(sps), 7, nals)
        invariant CollectedSet(pps, 8, nals[i..]) == CollectedSet(old(pps), 8, nals)
      {
        var n := nals[i];
        assert nals[i..][0] == n && nals[i..][1..] == nals[i + 1..];
        if n != [] {
          if n[0] % 32 == 7 && sps == [] && |n| <= 64 {
            sps := n;
          } else if n[0] % 32 == 8 && pps == [] && |n| <= 64 {
            pps := n;
          }
        }
      }
    }

    /** Queues a copy of one frame; a full ring loses its oldest frame even if the copy then fails. */
    method PushFrame(data: seq<Byte>, key: bool, ts: nat, mallocOk: bool)
      requires Valid()
      modifies this, ring
      ensures Valid()
      ensures Value() == StreamRing.PushFrame(old(Value()), data, key, ts, mallocOk)
      ensures log == LogAfter(old(Value()), old(log), data, key, ts, mallocOk)
    {
      hide RingOk, Walk, CollectedSet;
      ghost var before := Value();
      assert head < RING_LEN && ring.Length == RING_LEN && count <= RING_LEN by { ShapeOf(before, log); }
      PushFrameOk(before, log, data, key, ts, mallocOk);
      if |data| == 0 || |data| > MAX_FRAME || stop || epoch == 0 {
        return;
      }
      CollectSets(data);
      assert Value() == Collected(before, data);
      if count == RING_LEN {
        DropOldest();
      }
      assert Value() == Evicted(Collected(before, data));
      hide Evicted, Collected;
      if !mallocOk {
        dropped := dropped + 1;
        return;
      }
      Enter(Entry(data, nextSeq, ts % TWO32, key));
    }

    method Enter(e: Entry)
      requires ring.Length == RING_LEN
      modifies ring, `log, `nextSeq, `count, `pushed
      ensures var s := old(Value());
              Value() == s.(ring := s.ring[(s.head + s.count) % RING_LEN := e],
                            nextSeq := s.nextSeq + 1, count := s.count + 1, pushed := s.pushed + 1)
      ensures log == old(log) + [e]
    {
      var i := (head + count) % RING_LEN;
      ring[i] := e;
      log := log + [e];
      nextSeq := nextSeq + 1;
      count := count + 1;
      pushed := pushed + 1;
    }

    method PushEnd()
      requires Valid()
      modifies this
      ensures Valid() && log == old(log) && Value() == StreamRing.PushEnd(old(Value()))
    {
      hide RingOk;
      ghost var before := Value();
      assert head < RING_LEN by { ShapeOf(before, log); }
      epoch := 0;
      Clear();
      ClearedOk(before, log, Value());
    }

    method EntryAt(k: nat) returns (e: Entry)
      requires Valid() && k < count
      ensures e == Window(ring[..], head, count)[k]
    {
      WrapIsMod(head + k, RING_LEN);
      e := ring[(head + k) % RING_LEN];
    }

    /** The newest key frame in the ring, scanning from its newest entry backwards. */
    method FindKey() returns (e: Option<Entry>)
      requires Valid()
      ensures var win := Window(ring[..], head, count); var k := NewestKey(win);
              e == if k.None? then None else Some(win[k.value])
    {
      assert |ring[..]| == RING_LEN && head < RING_LEN && count <= RING_LEN by { ShapeOf(Value(), log); }
      hide RingOk, Wrap, Window;
      ghost var win := Window(ring[..], head, count);
      assert win[..count] == win;
      var k: nat := count;
      while k > 0
        invariant k <= count && NewestKey(win[..k]) == NewestKey(win)
      {
        k := k - 1;
        assert win[..k + 1][..k] == win[..k];
        var candidate := EntryAt(k);
        if candidate.key {
          return Some(candidate);
        }
      }
      return None;
    }

    /** The frame after the one last sent, as far as the ring still has it. */
    method Peek(clientEpoch: nat, cursor: int) returns (sight: Sight)
      requires Valid() && cursor >= -1
      ensures sight == Look(Value(), clientEpoch, cursor)
      ensures sight.Have? ==> cursor + 1 < |log| && sight.entry == log[cursor + 1]
    {
      LookIsLog(Value(), log, clientEpoch, cursor);
      var expected := cursor + 1;
      if stop || epoch != clientEpoch {
        return Gone;
      }
      if count > 0 {
        var oldest := nextSeq - count;
        if expected < oldest {
          return Gone;
        }
        if expected <= nextSeq - 1 {
          return Have(ring[(head + (expected - oldest)) % RING_LEN]);
        }
      }
      return Nothing;
    }
  }

  lemma ShapeOf(s: Stream, log: seq<Entry>)
    requires RingOk(s, log)
    ensures |s.ring| == RING_LEN && s.head < RING_LEN && s.count <= RING_LEN
  {
  }

  /** A streaming connection after it joined. */
  class StreamClient {
    const source: H264Stream
    const out: BoxWriter
    const epoch: nat
    const origin: nat
    const default: nat
    var cursor: int
    var sent: nat
    var lastTs: nat

    ghost predicate Valid()
      reads this, source, source.ring
    {
      source.Valid() && cursor >= -1
    }

    constructor (source: H264Stream, epoch: nat, key: Entry, default: nat)
      requires source.Valid()
      ensures Valid() && this.source == source && fresh(out)
      ensures cursor == key.number - 1 && sent == 0 && lastTs == 0 && origin == key.ts
      ensures this.epoch == epoch && this.default == default
    {
      this.source := source;
      out := new BoxWriter();
      this.epoch := epoch;
      origin := key.ts;
      this.default := default;
      cursor := key.number - 1;
      sent, lastTs := 0, 0;
    }

    method SampleDuration(ts: nat) returns (d90: nat)
      ensures d90 == Interval(lastTs, ts, default)
    {
      d90 := 0;
      if lastTs != 0 {
        var gap := (ts - lastTs) % TWO32;
        if gap > 0 && gap < 500 {
          d90 := gap * 90;
        }
      }
      if d90 == 0 {
        d90 := default;
      }
    }

    /**
     * Takes the next frame and builds its fragment.  Returns what was seen and the size of the
     * fragment, 0 for a frame without picture data or when memory is short.
     */
    method TakeNext(memOk: bool) returns (sight: Sight, flen: nat)
      requires Valid()
      modifies `sent, `lastTs, out
      ensures Valid() && sight == Look(source.Value(), epoch, cursor)
      ensures !sight.Have? ==> flen == 0 && sent == old(sent) && lastTs == old(lastTs)
      ensures sight.Have? ==>
                && cursor + 1 < |source.log| && sight.entry == source.log[cursor + 1]
                && lastTs == sight.entry.ts
                && (flen > 0 <==> Sample(sight.entry.data) != [] && memOk)
                && sent == (if flen > 0 then old(sent) + 1 else old(sent))
                && (flen > 0 ==> out.out == FragmentOf(old(sent) + 1, sight.entry, old(lastTs), origin, default)
                                 && flen == |out.out|)
    {
      hide SampleFrom, RingOk, Look, Interval, Fragment;
      sight := source.Peek(epoch, cursor);
      flen := 0;
      if sight.Have? {
        var e := sight.entry;
        var d90 := SampleDuration(e.ts);
        flen := out.BuildFragment(e.data, e.key, sent + 1, (e.ts - origin) % TWO32 * 90, d90, memOk);
        if flen > 0 {
          sent := sent + 1;
        }
        lastTs := e.ts;
      }
    }
  }
}
