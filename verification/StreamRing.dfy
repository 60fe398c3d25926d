/** The broadcast ring of the live stream: the producer's operations and what one client does with it. */
module StreamRing {
  import opened Common
  import opened Bytes
  import opened AnnexB
  import opened Avcc
  import opened Moov

  const RING_LEN: nat := 256
  const MAX_FRAME: nat := 2 * 1024 * 1024

  /** A queued frame with the producer's running number. */
  datatype Entry = Entry(data: seq<Byte>, number: nat, ts: nat, key: bool)

  /** Entries [head, head + count) of the circular array are live. */
  datatype Stream = Stream(
    ring: seq<Entry>, head: nat, count: nat, nextSeq: nat,
    epoch: nat, stop: bool, w: nat, h: nat, fps: nat, sps: seq<Byte>, pps: seq<Byte>,
    pushed: nat, dropped: nat)

  const NO_ENTRY: Entry := Entry([], 0, 0, false)

  // ---------------------------------------------------------------- producer

  function FittingSet(s: seq<Byte>): seq<Byte> {
    if |s| <= 64 then s else []
  }

  function PushConfig(s: Stream, w: nat, h: nat, fps: nat, sps: seq<Byte>, pps: seq<Byte>): Stream {
    s.(epoch := (s.epoch + 1) % TWO32, head := (s.head + s.count) % RING_LEN, count := 0,
       w := w, h := h, fps := fps, sps := FittingSet(sps), pps := FittingSet(pps))
  }

  predicate FittingUnit(n: Nal, kind: nat) { 0 < |n| <= 64 && n[0] % 32 == kind }

  /** The set already known, or else the first fitting unit of that kind in the frame. */
  function CollectedSet(saved: seq<Byte>, kind: nat, nals: seq<Nal>): (r: seq<Byte>)
    ensures saved != [] ==> r == saved
    ensures saved == [] && r == [] ==> forall i :: 0 <= i < |nals| ==> !FittingUnit(nals[i], kind)
    ensures saved == [] && r != [] ==>
              exists i :: 0 <= i < |nals| && nals[i] == r && FittingUnit(r, kind)
                          && forall j :: 0 <= j < i ==> !FittingUnit(nals[j], kind)
  {
    if saved != [] || nals == [] then saved
    else if nals[0] != [] && nals[0][0] % 32 == kind && |nals[0]| <= 64 then nals[0]
    else CollectedSet(saved, kind, nals[1..])
  }

  /** A full ring gives up its oldest frame, before it is known whether the copy succeeds. */
  function Evicted(s: Stream): Stream {
    if s.count == RING_LEN then s.(head := (s.head + 1) % RING_LEN, count := s.count - 1) else s
  }

  predicate Accepts(s: Stream, data: seq<Byte>) {
    0 < |data| <= MAX_FRAME && !s.stop && s.epoch != 0
  }

  function Collected(s: Stream, data: seq<Byte>): Stream {
    var nals := Walk(data, 0);
    s.(sps := CollectedSet(s.sps, 7, nals), pps := CollectedSet(s.pps, 8, nals))
  }

  function PushFrame(s: Stream, data: seq<Byte>, key: bool, ts: nat, mallocOk: bool): Stream
    requires |s.ring| == RING_LEN
  {
    if !Accepts(s, data) then s
    else
      var s1 := Evicted(Collected(s, data));
      if !mallocOk then s1.(dropped := s1.dropped + 1)
      else
        var i := (s1.head + s1.count) % RING_LEN;
        s1.(ring := s1.ring[i := Entry(data, s1.nextSeq, ts % TWO32, key)],
            nextSeq := s1.nextSeq + 1, count := s1.count + 1, pushed := s1.pushed + 1)
  }

  function PushEnd(s: Stream): Stream {
    s.(epoch := 0, head := (s.head + s.count) % RING_LEN, count := 0)
  }

  function Shutdown(s: Stream): Stream { s.(stop := true) }

  // ---------------------------------------------------------------- the ring as a window of the log

  /**
   * `log` is every frame ever queued, in order.  The ring holds exactly the frames with numbers
   * nextSeq - count .. nextSeq - 1, at their circular positions.
   */
  ghost predicate RingOk(s: Stream, log: seq<Entry>) {
    && |s.ring| == RING_LEN && s.head < RING_LEN && s.count <= RING_LEN
    && s.nextSeq == |log| && s.count <= |log|
    && Window(s.ring, s.head, s.count) == log[|log| - s.count..]
    && Numbered(log)
  }

  /** What the producer lets in: frames that are not empty and at most 2 MiB, with a 32-bit time stamp. */
  ghost predicate Queueable(es: seq<Entry>) {
    forall i :: 0 <= i < |es| ==> 0 < |es[i].data| <= MAX_FRAME && es[i].ts < TWO32
  }

  ghost predicate Numbered(log: seq<Entry>) {
    forall i :: 0 <= i < |log| ==> log[i].number == i
  }

  lemma ClearedOk(s: Stream, log: seq<Entry>, s': Stream)
    requires RingOk(s, log) && s'.ring == s.ring && s'.nextSeq == s.nextSeq
    requires s'.head == (s.head + s.count) % RING_LEN && s'.count == 0
    ensures RingOk(s', log)
  {
    assert Window(s'.ring, s'.head, 0) == log[|log|..];
  }

  lemma EvictedOk(s: Stream, log: seq<Entry>)
    requires RingOk(s, log)
    ensures RingOk(Evicted(s), log) && Evicted(s).count < RING_LEN
  {
    if s.count == RING_LEN {
      WrapIsMod(s.head + 1, RING_LEN);
      WindowPop(s.ring, s.head, s.count);
      var w := Window(s.ring, s.head, s.count);
      assert log[|log| - s.count + 1..] == w[1..];
    }
  }

  lemma AppendedOk(s: Stream, log: seq<Entry>, e: Entry, s': Stream)
    requires RingOk(s, log) && s.count < RING_LEN && e.number == s.nextSeq
    requires s'.ring == s.ring[(s.head + s.count) % RING_LEN := e]
    requires s'.head == s.head && s'.count == s.count + 1 && s'.nextSeq == s.nextSeq + 1
    ensures RingOk(s', log + [e])
  {
    WrapIsMod(s.head + s.count, RING_LEN);
    WindowPush(s.ring, s.head, s.count, e);
    assert log[|log| - s.count..] + [e] == (log + [e])[|log| - s.count..];
  }

  /** What a push adds to the log. */
  function LogAfter(s: Stream, log: seq<Entry>, data: seq<Byte>, key: bool, ts: nat, mallocOk: bool): seq<Entry> {
    if Accepts(s, data) && mallocOk then log + [Entry(data, s.nextSeq, ts % TWO32, key)] else log
  }

  /** Eviction, a failed copy and an accepted frame all leave the ring a window of the log. */
  lemma PushFrameOk(s: Stream, log: seq<Entry>, data: seq<Byte>, key: bool, ts: nat, mallocOk: bool)
    requires RingOk(s, log)
    ensures RingOk(PushFrame(s, data, key, ts, mallocOk), LogAfter(s, log, data, key, ts, mallocOk))
  {
    hide CollectedSet, Walk, RingOk, Evicted;
    if Accepts(s, data) {
      var s1 := Collected(s, data);
      RingOkAside(s, s1, log);
      EvictedOk(s1, log);
      var s2 := Evicted(s1);
      assert s2.nextSeq == s.nextSeq;
      if mallocOk {
        AppendedOk(s2, log, Entry(data, s.nextSeq, ts % TWO32, key), PushFrame(s, data, key, ts, mallocOk));
      } else {
        RingOkAside(s2, PushFrame(s, data, key, ts, mallocOk), log);
      }
    }
  }

  /** Every frame let in is counted as queued or, when memory is short, as dropped. */
  lemma PushCounts(s: Stream, log: seq<Entry>, data: seq<Byte>, key: bool, ts: nat, mallocOk: bool)
    requires |s.ring| == RING_LEN
    ensures var s' := PushFrame(s, data, key, ts, mallocOk);
            && s'.pushed - s.pushed == |LogAfter(s, log, data, key, ts, mallocOk)| - |log|
            && (s'.pushed - s.pushed) + (s'.dropped - s.dropped)
               == (if 0 < |data| <= 2097152 && !s.stop && s.epoch != 0 then 1 else 0)
  {
    hide CollectedSet, Walk;
  }

  lemma RingOkAside(s: Stream, s': Stream, log: seq<Entry>)
    requires RingOk(s, log) && s'.ring == s.ring && s'.head == s.head && s'.count == s.count && s'.nextSeq == s.nextSeq
    ensures RingOk(s', log)
  {
  }

  // ---------------------------------------------------------------- what a client sees

  /** Index in the window of the newest key frame, searched from the newest frame backwards. */
  function NewestKey(w: seq<Entry>): (k: Option<nat>)
    ensures k.Some? ==> k.value < |w| && w[k.value].key
    ensures forall j :: 0 <= j < |w| && w[j].key ==> k.Some? && j <= k.value
  {
    if w == [] then None
    else if w[|w| - 1].key then Some(|w| - 1)
    else NewestKey(w[..|w| - 1])
  }

  datatype Sight = Gone | Nothing | Have(entry: Entry)

  /** The client's look at the ring: the frame after the last one it sent, if it is still there. */
  function Look(s: Stream, epoch: nat, cursor: int): Sight
    requires |s.ring| == RING_LEN && s.head < RING_LEN && s.count <= RING_LEN && s.count <= s.nextSeq && cursor >= -1
  {
    var expected := cursor + 1;
    if s.stop || s.epoch != epoch then Gone
    else if s.count == 0 then Nothing
    else
      var oldest := s.nextSeq - s.count;
      if expected < oldest then Gone
      else if expected <= s.nextSeq - 1 then Have(s.ring[(s.head + (expected - oldest)) % RING_LEN])
      else Nothing
  }

  /** A frame the client gets is the one the log holds under the number it asked for. */
  lemma LookIsLog(s: Stream, log: seq<Entry>, epoch: nat, cursor: int)
    requires RingOk(s, log) && cursor >= -1
    ensures Look(s, epoch, cursor).Have? ==> cursor + 1 < |log| && Look(s, epoch, cursor).entry == log[cursor + 1]
    ensures !s.stop && s.epoch == epoch && s.count > 0 ==>
              (Look(s, epoch, cursor).Have? <==> |log| - s.count <= cursor + 1 < |log|)
    ensures Look(s, epoch, cursor).Gone? <==>
              s.stop || s.epoch != epoch || (s.count > 0 && cursor + 1 < |log| - s.count)
  {
    if Look(s, epoch, cursor).Have? {
      var k := cursor + 1 - (|log| - s.count);
      WrapIsMod(s.head + k, RING_LEN);
      assert Window(s.ring, s.head, s.count)[k] == log[|log| - s.count..][k];
    }
  }

  // ---------------------------------------------------------------- fragments on the wire

  function LastTs(es: seq<Entry>): nat { if es == [] then 0 else es[|es| - 1].ts }

  /** Sample duration: the real interval to the frame before, unless there is none or it is implausible. */
  function Interval(last: nat, ts: nat, default: nat): nat {
    var gap := (ts - last) % TWO32;
    if last != 0 && 0 < gap < 500 then gap * 90 else default
  }

  function FragmentOf(number: nat, e: Entry, last: nat, origin: nat, default: nat): seq<Byte> {
    Fragment(number, e.key, (e.ts - origin) % TWO32 * 90, Interval(last, e.ts, default), Sample(e.data))
  }

  /** The fragments sent for consecutive frames: one for each frame with picture data, numbered from 1. */
  function Wire(es: seq<Entry>, origin: nat, default: nat): seq<seq<Byte>> {
    if es == [] then []
    else
      var m := |es| - 1;
      var before := Wire(es[..m], origin, default);
      if Sample(es[m].data) == [] then before
      else before + [FragmentOf(|before| + 1, es[m], LastTs(es[..m]), origin, default)]
  }
}
