/** The operations of the frame ring, one function per critical section. */
module FrameRingOps {
  import opened Common
  import opened FrameRingModel

  function WithSlot(r: Ring, i: nat, s: Slot): Ring
    requires i < |r.slots|
  {
    r.(slots := r.slots[i := s])
  }

  // ---------------------------------------------------------------- capture

  /** All four stages released: the only state in which a slot may be reused. */
  predicate Reusable(s: Slot) {
    s.raw.None? && s.rgb.None? && s.nv12.None? && s.jpeg.None? && s.claims == 0
  }

  function ProduceSlot(r: Ring, env: nat -> bool): (Ring, bool)
    requires |r.slots| == RING_N
  {
    var r1 := Maintain(r, env);
    var i := SlotIndex(r1.ctl.produceSeq + 1);
    if Reusable(r1.slots[i]) then
      (WithSlot(r1, i, EMPTY_SLOT.(frame := r1.ctl.produceSeq + 1)), true)
    else
      (r1, false)
  }

  function Fill(r: Ring, w: int, h: int, fmt: int, raw: Raw): Ring
    requires |r.slots| == RING_N
  {
    var i := SlotIndex(r.ctl.produceSeq + 1);
    WithSlot(r, i, r.slots[i].(raw := Some(raw), w := w, h := h, fmt := fmt))
  }

  function ProduceCommit(r: Ring, env: nat -> bool): Ring
    requires |r.slots| == RING_N
  {
    Maintain(r.(ctl := r.ctl.(produceSeq := r.slots[SlotIndex(r.ctl.produceSeq + 1)].frame)), env)
  }

  function ProduceDrop(r: Ring): Ring {
    r.(ctl := r.ctl.(captureDropped := r.ctl.captureDropped + 1))
  }

  function AddDriverDropped(r: Ring, n: nat): Ring {
    r.(ctl := r.ctl.(driverDropped := r.ctl.driverDropped + n))
  }

  /** One critical section of the capture thread: publish the frame, or count it as dropped. */
  function Capture(r: Ring, w: int, h: int, fmt: int, raw: Raw, env: nat -> bool): (Ring, bool)
    requires |r.slots| == RING_N
  {
    var (r1, ok) := ProduceSlot(r, env);
    if ok then (ProduceCommit(Fill(r1, w, h, fmt, raw), env), true) else (ProduceDrop(r1), false)
  }

  /** The slot of a frame just captured. */
  function FrameSlot(q: nat, w: int, h: int, fmt: int, raw: Raw): Slot {
    Slot(q, w, h, fmt, Some(raw), 0, None, None, None, false, false, false, false)
  }

  /** The ring with that frame published, before the release pass. */
  function Published(r: Ring, s: Slot): Ring
    requires |r.slots| == RING_N
  {
    Ring(r.slots[SlotIndex(r.ctl.produceSeq + 1) := s], r.ctl.(produceSeq := r.ctl.produceSeq + 1), r.store)
  }

  /** On a ring at rest, capture succeeds exactly on a reusable slot and replaces it. */
  lemma CaptureAtRest(r: Ring, w: int, h: int, fmt: int, raw: Raw, env: nat -> bool)
    requires |r.slots| == RING_N && FixedPoint(r)
    ensures Capture(r, w, h, fmt, raw, env) ==
            if Reusable(r.slots[SlotIndex(r.ctl.produceSeq + 1)])
            then (Maintain(Published(r, FrameSlot(r.ctl.produceSeq + 1, w, h, fmt, raw)), env), true)
            else (ProduceDrop(r), false)
  {
    FixedPointUnchanged(r, RING_N, env);
    assert Maintain(r, env) == r;
    hide Maintain, FixedPoint, SlotIndex;
    var i := SlotIndex(r.ctl.produceSeq + 1);
    if Reusable(r.slots[i]) {
      var r1 := ProduceSlot(r, env).0;
      assert r1.slots[i].frame == r.ctl.produceSeq + 1 && r1.ctl == r.ctl;
      var s := FrameSlot(r.ctl.produceSeq + 1, w, h, fmt, raw);
      assert Fill(r1, w, h, fmt, raw).slots == r.slots[i := s];
    }
  }

  // ---------------------------------------------------------------- inference

  predicate Claimable(r: Ring, q: nat)
    requires |r.slots| == RING_N
  {
    && !r.ctl.quiescing && q != 0 && q <= r.ctl.produceSeq
    && r.slots[SlotIndex(q)].frame == q && r.slots[SlotIndex(q)].raw.Some?
  }

  function InferClaim(r: Ring, q: nat): Ring
    requires |r.slots| == RING_N
  {
    var s := r.slots[SlotIndex(q)];
    if Claimable(r, q) then WithSlot(r, SlotIndex(q), s.(claims := s.claims + 1)) else r
  }

  function Unclaimed(s: Slot): Slot {
    s.(claims := if s.claims > 0 then s.claims - 1 else 0, inferDone := true)
  }

  function InferUnclaim(r: Ring, i: nat, decodeOk: bool, env: nat -> bool): Ring
    requires i < |r.slots|
  {
    var ctl := if decodeOk then r.ctl else r.ctl.(inferDropped := r.ctl.inferDropped + 1);
    Maintain(Ring(r.slots[i := Unclaimed(r.slots[i])], ctl, r.store), env)
  }

  // ---------------------------------------------------------------- display and encode

  function Displayed(r: Ring, i: nat): Ring
    requires i < |r.slots|
  {
    var s := r.slots[i];
    var skipped := if s.frame > r.ctl.displaySeq + 1 then s.frame - r.ctl.displaySeq - 1 else 0;
    var ctl := r.ctl.(renderSkipped := r.ctl.renderSkipped + skipped, displaySeq := s.frame);
    Ring(r.slots[i := s.(displayDone := true)], ctl, r.store)
  }

  function DisplayCommit(r: Ring, i: nat, env: nat -> bool): Ring
    requires i < |r.slots|
  {
    Maintain(Displayed(r, i), env)
  }

  predicate EncodeCandidate(s: Slot, next: nat) {
    s.frame > next && s.displayDone && s.nv12.Some?
  }

  /** The newest displayed slot among the first n that still has its NV12 frame. */
  function EncodePickUpTo(slots: seq<Slot>, n: nat, next: nat): (best: Option<nat>)
    requires n <= |slots|
    ensures best.Some? ==> best.value < n && EncodeCandidate(slots[best.value], next)
    ensures forall i :: 0 <= i < n && EncodeCandidate(slots[i], next)
              ==> best.Some? && slots[i].frame <= slots[best.value].frame
  {
    if n == 0 then None
    else
      var best := EncodePickUpTo(slots, n - 1, next);
      var s := slots[n - 1];
      if EncodeCandidate(s, next) && (best.None? || s.frame > slots[best.value].frame)
      then Some(n - 1) else best
  }

  function EncodePick(r: Ring, next: nat): (best: Option<nat>)
    ensures best.Some? ==> best.value < |r.slots| && EncodeCandidate(r.slots[best.value], next)
    ensures forall i :: 0 <= i < |r.slots| && EncodeCandidate(r.slots[i], next)
              ==> best.Some? && r.slots[i].frame <= r.slots[best.value].frame
  {
    EncodePickUpTo(r.slots, |r.slots|, next)
  }

  function Consumed(s: Slot, q: nat): Slot {
    if s.frame != 0 && s.frame <= q then s.(encodeDone := true) else s
  }

  function ConsumedAll(slots: seq<Slot>, q: nat): (slots': seq<Slot>)
    ensures |slots'| == |slots|
    ensures forall i :: 0 <= i < |slots| ==> slots'[i] == Consumed(slots[i], q)
  {
    seq(|slots|, i requires 0 <= i < |slots| => Consumed(slots[i], q))
  }

  function EncodeAdvance(r: Ring, i: nat, env: nat -> bool): Ring
    requires i < |r.slots|
  {
    Maintain(r.(slots := ConsumedAll(r.slots, r.slots[i].frame)), env)
  }

  function EncodeSkip(r: Ring, i: nat, env: nat -> bool): Ring
    requires i < |r.slots|
  {
    var r1 := EncodeAdvance(r, i, env);
    r1.(ctl := r1.ctl.(encodeSkipped := r1.ctl.encodeSkipped + 1))
  }

  /** The slot whose raw a stream client may copy, if the newest frame is still readable. */
  function RawNewest(r: Ring): Option<nat>
    requires |r.slots| == RING_N
  {
    if r.ctl.produceSeq == 0 then None
    else
      var i := SlotIndex(r.ctl.produceSeq);
      if r.slots[i].frame != r.ctl.produceSeq || r.slots[i].raw.None? then None else Some(i)
  }

  // ---------------------------------------------------------------- modes and quiesce

  function SetAiActive(r: Ring, on: bool, env: nat -> bool): Ring {
    if r.ctl.aiActive != on then Maintain(r.(ctl := r.ctl.(aiActive := on)), env) else r
  }

  function SetRecActive(r: Ring, on: bool, env: nat -> bool): Ring {
    if r.ctl.recActive != on then Maintain(r.(ctl := r.ctl.(recActive := on)), env) else r
  }

  function QuiesceBegin(r: Ring): Ring { r.(ctl := r.ctl.(quiescing := true)) }

  predicate NoClaims(r: Ring) {
    forall i :: 0 <= i < |r.slots| ==> r.slots[i].claims == 0
  }

  /** Heap raws are freed; driver buffers are only detached, the driver reclaims them itself. */
  function DiscardRaw(s: Slot, st: Store): Store {
    if s.raw.Some? && s.raw.value.Heap? then st.(returned := st.returned + multiset{s.raw.value}) else st
  }

  function Discarded(s: Slot, st: Store, env: nat -> bool): Store {
    var st1 := Put(DiscardRaw(s, st), Rgb, s.rgb, env);
    Put(Put(st1, Nv12, s.nv12, env), Jpeg, s.jpeg, env)
  }

  function ClearAt(r: Ring, i: nat, env: nat -> bool): Ring
    requires i < |r.slots|
  {
    Ring(r.slots[i := EMPTY_SLOT], r.ctl, Discarded(r.slots[i], r.store, env))
  }

  function ClearUpTo(r: Ring, n: nat, env: nat -> bool): (r': Ring)
    requires n <= |r.slots|
    ensures |r'.slots| == |r.slots| && r'.ctl == r.ctl
    ensures forall i :: 0 <= i < n ==> r'.slots[i] == EMPTY_SLOT
    ensures forall i :: n <= i < |r.slots| ==> r'.slots[i] == r.slots[i]
  {
    if n == 0 then r else ClearAt(ClearUpTo(r, n - 1, env), n - 1, env)
  }

  /** Empties every slot and lifts the claim ban; sequence numbers are never reset. */
  function ClearAll(r: Ring, env: nat -> bool): Ring {
    var r1 := ClearUpTo(r, |r.slots|, env);
    r1.(ctl := r1.ctl.(quiescing := false))
  }

  // ---------------------------------------------------------------- effects on the books

  /** Exchanging one slot moves exactly the difference; the release pass afterwards moves nothing. */
  lemma SlotStepBooks(r: Ring, i: nat, s: Slot, ctl: Control, st: Store, env: nat -> bool,
                      k: Kind, b: Buf, raw: Raw)
    requires i < |r.slots|
    ensures var r' := Maintain(Ring(r.slots[i := s], ctl, st), env);
            && Account(r', k, b) + Is(r.slots[i].Stage(k), b) + Shelved(r.store, k, b)
               == Account(r, k, b) + Is(s.Stage(k), b) + Shelved(st, k, b)
            && RawAccount(r', raw) + Is(r.slots[i].raw, raw) + r.store.returned[raw]
               == RawAccount(r, raw) + Is(s.raw, raw) + st.returned[raw]
            && r'.store.alloc == st.alloc
            && FixedPoint(r')
  {
    SlotUpdateCounts(r.slots, i, s, k, b, raw);
    MaintainEffect(Ring(r.slots[i := s], ctl, st), env, k, b, raw);
  }

  lemma ControlStepBooks(r: Ring, ctl: Control, env: nat -> bool, k: Kind, b: Buf, raw: Raw)
    ensures Balanced(r, Maintain(r.(ctl := ctl), env), k, b, raw)
    ensures FixedPoint(Maintain(r.(ctl := ctl), env))
  {
    MaintainEffect(r.(ctl := ctl), env, k, b, raw);
  }

  lemma EncodeAdvanceBooks(r: Ring, i: nat, env: nat -> bool, k: Kind, b: Buf, raw: Raw)
    requires i < |r.slots|
    ensures Balanced(r, EncodeAdvance(r, i, env), k, b, raw)
    ensures FixedPoint(EncodeAdvance(r, i, env))
  {
    var r1 := r.(slots := ConsumedAll(r.slots, r.slots[i].frame));
    assert Stages(r1.slots, k) == Stages(r.slots, k);
    assert Raws(r1.slots) == Raws(r.slots);
    MaintainEffect(r1, env, k, b, raw);
  }

  /** Clearing one slot puts its stage buffers back and drops only a driver buffer from the books. */
  lemma ClearAtBooks(r: Ring, i: nat, env: nat -> bool, k: Kind, b: Buf)
    requires i < |r.slots|
    ensures BufBalanced(r, ClearAt(r, i, env), k, b)
  {
    var s := r.slots[i];
    var st0 := DiscardRaw(s, r.store);
    var st1 := Put(st0, Rgb, s.rgb, env);
    var st2 := Put(st1, Nv12, s.nv12, env);
    PutShelved(st0, Rgb, s.rgb, env, k, b);
    PutShelved(st1, Nv12, s.nv12, env, k, b);
    PutShelved(st2, Jpeg, s.jpeg, env, k, b);
    SlotUpdateCounts(r.slots, i, EMPTY_SLOT, k, b, Heap(0));
  }

  lemma BufBalancedTransitive(r: Ring, p: Ring, q: Ring, k: Kind, b: Buf)
    requires BufBalanced(r, p, k, b) && BufBalanced(p, q, k, b)
    ensures BufBalanced(r, q, k, b)
  {
  }

  lemma ClearStepBooks(r: Ring, p: Ring, i: nat, env: nat -> bool, k: Kind, b: Buf)
    requires i < |p.slots| && BufBalanced(r, p, k, b)
    ensures BufBalanced(r, ClearAt(p, i, env), k, b)
  {
    hide BufBalanced, ClearAt;
    ClearAtBooks(p, i, env, k, b);
    BufBalancedTransitive(r, p, ClearAt(p, i, env), k, b);
  }

  lemma {:induction false} ClearUpToBooks(r: Ring, n: nat, env: nat -> bool, k: Kind, b: Buf)
    requires n <= |r.slots|
    ensures BufBalanced(r, ClearUpTo(r, n, env), k, b)
  {
    hide ClearAt;
    if n > 0 {
      hide BufBalanced;
      ClearUpToBooks(r, n - 1, env, k, b);
      ClearStepBooks(r, ClearUpTo(r, n - 1, env), n - 1, env, k, b);
    }
  }

  lemma PutKeepsReturned(st: Store, k: Kind, o: Option<Buf>, env: nat -> bool)
    ensures Put(st, k, o, env).returned == st.returned
  {
  }

  lemma DiscardedReturned(s: Slot, st: Store, env: nat -> bool)
    ensures Discarded(s, st, env).returned == DiscardRaw(s, st).returned
  {
    PutKeepsReturned(DiscardRaw(s, st), Rgb, s.rgb, env);
    var st1 := Put(DiscardRaw(s, st), Rgb, s.rgb, env);
    PutKeepsReturned(st1, Nv12, s.nv12, env);
    PutKeepsReturned(Put(st1, Nv12, s.nv12, env), Jpeg, s.jpeg, env);
    hide Put;
  }

  lemma ClearAtRaws(r: Ring, i: nat, env: nat -> bool, raw: Raw)
    requires i < |r.slots|
    ensures var r' := ClearAt(r, i, env);
            if raw.Heap? then RawAccount(r', raw) == RawAccount(r, raw)
            else r'.store.returned[raw] == r.store.returned[raw]
  {
    SlotUpdateCounts(r.slots, i, EMPTY_SLOT, Rgb, Buf(0, 0), raw);
    DiscardedReturned(r.slots[i], r.store, env);
    hide Discarded;
  }

  /** Emptying the slots frees every heap copy of raw data in them, and gives no driver buffer back. */
  lemma {:induction false} ClearUpToRaws(r: Ring, n: nat, env: nat -> bool, raw: Raw)
    requires n <= |r.slots|
    ensures var r' := ClearUpTo(r, n, env);
            if raw.Heap? then RawAccount(r', raw) == RawAccount(r, raw)
            else r'.store.returned[raw] == r.store.returned[raw]
  {
    hide ClearAt, RawAccount;
    if n > 0 {
      ClearUpToRaws(r, n - 1, env, raw);
      ClearAtRaws(ClearUpTo(r, n - 1, env), n - 1, env, raw);
    }
  }
}
