/** The frame ring in place: the operations as the C code performs them on its slot array. */
module FrameRingImpl {
  import opened Common
  import opened FrameRingModel
  import opened FrameRingOps

  class FrameRing {
    const slots: array<Slot>
    /** Whether the n-th pool-node allocation of this run succeeds. */
    const nodeOk: nat -> bool

    var produceSeq: nat
    var displaySeq: nat
    var aiActive: bool
    var recActive: bool
    var quiescing: bool
    var captureDropped: nat
    var driverDropped: nat
    var inferDropped: nat
    var renderSkipped: nat
    var encodeSkipped: nat
    var pools: PerKind<seq<Buf>>
    var puts: nat
    ghost var alloc: seq<Block>
    ghost var freed: PerKind<multiset<Buf>>
    ghost var returned: multiset<Raw>
    var blocks: nat

    ghost predicate Valid()
      reads this
    {
      slots.Length == RING_N && blocks == |alloc|
    }

    ghost function Ctl(): Control
      reads this
    {
      Control(produceSeq, displaySeq, aiActive, recActive, quiescing,
              captureDropped, driverDropped, inferDropped, renderSkipped, encodeSkipped)
    }

    ghost function Books(): Store
      reads this
    {
      Store(pools, puts, alloc, freed, returned)
    }

    /** The ring as a value. */
    ghost function Value(): Ring
      reads this, slots
    {
      Ring(slots[..], Ctl(), Books())
    }

    constructor (nodeOk: nat -> bool)
      ensures Valid() && fresh(slots) && this.nodeOk == nodeOk
      ensures Value() == Ring(seq(RING_N, _ => EMPTY_SLOT),
                              Control(0, 0, false, false, false, 0, 0, 0, 0, 0),
                              Store(PerKind([], [], []), 0, [], PerKind(multiset{}, multiset{}, multiset{}), multiset{}))
    {
      slots := new Slot[RING_N](_ => EMPTY_SLOT);
      this.nodeOk := nodeOk;
      produceSeq, displaySeq := 0, 0;
      aiActive, recActive, quiescing := false, false, false;
      captureDropped, driverDropped, inferDropped, renderSkipped, encodeSkipped := 0, 0, 0, 0, 0;
      pools := PerKind([], [], []);
      puts, blocks := 0, 0;
      alloc, freed, returned := [], PerKind(multiset{}, multiset{}, multiset{}), multiset{};
      new;
      assert slots[..] == seq(RING_N, _ => EMPTY_SLOT);
    }

    // ---------------------------------------------------------------- pools

    method BufTake(k: Kind, minCap: nat, mallocOk: bool) returns (out: Option<Buf>)
      requires Valid()
      modifies this
      ensures Valid()
      ensures (Books(), out) == Take(old(Books()), k, minCap, mallocOk) && Ctl() == old(Ctl())
    {
      var pool := pools.At(k);
      var i := 0;
      while i < |pool| && pool[i].cap < minCap
        invariant i <= |pool|
        invariant forall j :: 0 <= j < i ==> pool[j].cap < minCap
      {
        i := i + 1;
      }
      assert i == FirstFit(pool, minCap);
      if i < |pool| {
        pools := pools.With(k, pool[..i] + pool[i + 1..]);
        out := Some(pool[i]);
      } else if mallocOk {
        out := Some(Buf(blocks, minCap));
        alloc, blocks := alloc + [Block(k, minCap)], blocks + 1;
      } else {
        out := None;
      }
    }

    method BufPut(k: Kind, b: Option<Buf>)
      requires Valid()
      modifies this
      ensures Valid()
      ensures Books() == Put(old(Books()), k, b, nodeOk) && Ctl() == old(Ctl())
    {
      if b.None? {
        return;
      }
      if nodeOk(puts) {
        pools := pools.With(k, [b.value] + pools.At(k));
      } else {
        freed := freed.With(k, freed.At(k) + multiset{b.value});
      }
      puts := puts + 1;
    }

    // ---------------------------------------------------------------- release pass

    method MaintainRaw(c: Control, i: nat)
      requires Valid() && c == Ctl() && i < slots.Length
      modifies this, slots
      ensures Valid() && Ctl() == c
      ensures Books() == CollectRaw(c, old(slots[i]), old(Books()))
      ensures slots[..] == old(slots[..])[i := WithoutRaw(c, old(slots[i]))]
    {
      var s := slots[i];
      if RawReleasable(c, s) {
        returned := returned + multiset{s.raw.value};
        slots[i] := s.(raw := None);
      }
    }

    method MaintainStage(c: Control, i: nat, k: Kind)
      requires Valid() && c == Ctl() && i < slots.Length
      modifies this, slots
      ensures Valid() && Ctl() == c
      ensures Books() == CollectStage(c, old(slots[i]), old(Books()), k, nodeOk)
      ensures slots[..] == old(slots[..])[i := WithoutStage(c, old(slots[i]), k)]
    {
      var s := slots[i];
      if StageReleasable(c, s, k) {
        BufPut(k, s.Stage(k));
        slots[i] := DropStage(s, k);
      }
    }

    method MaintainSlot(i: nat)
      requires Valid() && i < slots.Length
      modifies this, slots
      ensures Valid() && Ctl() == old(Ctl())
      ensures Books() == Collected(old(Ctl()), old(slots[i]), old(Books()), nodeOk)
      ensures slots[..] == old(slots[..])[i := Cleaned(old(Ctl()), old(slots[i]))]
    {
      var c := Control(produceSeq, displaySeq, aiActive, recActive, quiescing,
                       captureDropped, driverDropped, inferDropped, renderSkipped, encodeSkipped);
      ghost var all, s, st := slots[..], slots[i], Books();
      if slots[i].frame == 0 {
        assert all == all[i := Cleaned(c, s)];
        return;
      }
      InPlaceIsCleaned(c, s, st, nodeOk);
      MaintainRaw(c, i);
      MaintainStage(c, i, Rgb);
      MaintainStage(c, i, Jpeg);
      MaintainStage(c, i, Nv12);
      assert slots[..] == all[i := slots[i]];
    }

    method Maintain()
      requires Valid()
      modifies this, slots
      ensures Valid() && Value() == FrameRingModel.Maintain(old(Value()), nodeOk)
    {
      ghost var r := Value();
      for i := 0 to RING_N
        invariant Valid() && Value() == MaintainUpTo(r, i, nodeOk)
      {
        MaintainSlot(i);
      }
    }

    // ---------------------------------------------------------------- capture

    /** Reserves the slot of the next frame; false when it is still in use. */
    method ProduceSlot() returns (ok: bool)
      requires Valid()
      modifies this, slots
      ensures Valid() && (Value(), ok) == FrameRingOps.ProduceSlot(old(Value()), nodeOk)
    {
      Maintain();
      var i := SlotIndex(produceSeq + 1);
      ok := Reusable(slots[i]);
      if ok {
        slots[i] := EMPTY_SLOT.(frame := produceSeq + 1);
      }
    }

    method Fill(w: int, h: int, fmt: int, raw: Raw)
      requires Valid()
      modifies slots
      ensures Valid() && Value() == FrameRingOps.Fill(old(Value()), w, h, fmt, raw)
    {
      var i := SlotIndex(produceSeq + 1);
      slots[i] := slots[i].(raw := Some(raw), w := w, h := h, fmt := fmt);
    }

    method ProduceCommit()
      requires Valid()
      modifies this, slots
      ensures Valid() && Value() == FrameRingOps.ProduceCommit(old(Value()), nodeOk)
    {
      produceSeq := slots[SlotIndex(produceSeq + 1)].frame;
      Maintain();
    }

    /** The capture thread's critical section: publish the dequeued buffer, or count a drop. */
    method Capture(w: int, h: int, fmt: int, raw: Raw) returns (ok: bool)
      requires Valid()
      modifies this, slots
      ensures Valid() && (Value(), ok) == FrameRingOps.Capture(old(Value()), w, h, fmt, raw, nodeOk)
    {
      ok := ProduceSlot();
      if ok {
        Fill(w, h, fmt, raw);
        ProduceCommit();
      } else {
        captureDropped := captureDropped + 1;
      }
    }

    // ---------------------------------------------------------------- inference

    method InferClaim(q: nat) returns (hit: bool)
      requires Valid()
      modifies slots
      ensures Valid() && Value() == FrameRingOps.InferClaim(old(Value()), q)
      ensures hit == Claimable(old(Value()), q)
    {
      if quiescing || q == 0 || q > produceSeq {
        return false;
      }
      var i := SlotIndex(q);
      if slots[i].frame != q || slots[i].raw.None? {
        return false;
      }
      slots[i] := slots[i].(claims := slots[i].claims + 1);
      return true;
    }

    method InferUnclaim(i: nat, decodeOk: bool)
      requires Valid() && i < slots.Length
      modifies this, slots
      ensures Valid() && Value() == FrameRingOps.InferUnclaim(old(Value()), i, decodeOk, nodeOk)
    {
      if slots[i].claims > 0 {
        slots[i] := slots[i].(claims := slots[i].claims - 1);
      }
      slots[i] := slots[i].(inferDone := true);
      if !decodeOk {
        inferDropped := inferDropped + 1;
      }
      assert slots[..] == old(slots[..])[i := Unclaimed(old(slots[i]))];
      Maintain();
    }

    method AttachRgb(i: nat, rgb: Option<Buf>)
      requires Valid() && i < slots.Length
      modifies slots
      ensures Valid() && Value() == WithSlot(old(Value()), i, old(slots[i]).(rgb := rgb, rgbDone := true))
    {
      slots[i] := slots[i].(rgb := rgb, rgbDone := true);
    }

    // ---------------------------------------------------------------- display and encode

    method AttachOutputs(i: nat, nv12: Option<Buf>, jpeg: Option<Buf>)
      requires Valid() && i < slots.Length
      modifies slots
      ensures Valid() && Value() == WithSlot(old(Value()), i, old(slots[i]).(nv12 := nv12, jpeg := jpeg))
    {
      slots[i] := slots[i].(nv12 := nv12, jpeg := jpeg);
    }

    method DisplayCommit(i: nat)
      requires Valid() && i < slots.Length
      modifies this, slots
      ensures Valid() && Value() == FrameRingOps.DisplayCommit(old(Value()), i, nodeOk)
    {
      ghost var r := Value();
      var s := slots[i];
      slots[i] := s.(displayDone := true);
      if s.frame > displaySeq + 1 && s.frame > displaySeq {
        renderSkipped := renderSkipped + (s.frame - displaySeq - 1);
      }
      displaySeq := s.frame;
      assert slots[..] == r.slots[i := s.(displayDone := true)];
      assert Value() == Displayed(r, i);
      Maintain();
    }

    /** Index of the newest displayed frame beyond `next` that still has its NV12 buffer. */
    method EncodePick(next: nat) returns (best: Option<nat>)
      requires Valid()
      ensures best == FrameRingOps.EncodePick(Value(), next)
    {
      best := None;
      for i := 0 to RING_N
        invariant best == EncodePickUpTo(slots[..], i, next)
      {
        var s := slots[i];
        if EncodeCandidate(s, next) && (best.None? || s.frame > slots[best.value].frame) {
          best := Some(i);
        }
      }
    }

    method EncodeAdvance(i: nat)
      requires Valid() && i < slots.Length
      modifies this, slots
      ensures Valid() && displaySeq == old(displaySeq)
      ensures forall k :: 0 <= k < RING_N ==>
                var s, q := old(slots[..])[k], old(slots[i]).frame;
                && slots[k].frame == s.frame
                && (0 < s.frame <= q ==> slots[k].encodeDone && (slots[k].nv12.None? || s.frame == displaySeq))
                && (s.frame > q ==> slots[k].encodeDone == s.encodeDone)
      ensures Value() == FrameRingOps.EncodeAdvance(old(Value()), i, nodeOk)
    {
      var q := slots[i].frame;
      for j := 0 to RING_N
        invariant Valid() && Ctl() == old(Ctl()) && Books() == old(Books())
        invariant forall k :: 0 <= k < RING_N ==>
          slots[k] == if k < j then Consumed(old(slots[..])[k], q) else old(slots[..])[k]
      {
        if slots[j].frame != 0 && slots[j].frame <= q && !slots[j].encodeDone {
          slots[j] := slots[j].(encodeDone := true);
        }
      }
      assert slots[..] == ConsumedAll(old(slots[..]), q);
      Maintain();
    }

    method EncodeSkip(i: nat)
      requires Valid() && i < slots.Length
      modifies this, slots
      ensures Valid() && Value() == FrameRingOps.EncodeSkip(old(Value()), i, nodeOk)
    {
      EncodeAdvance(i);
      encodeSkipped := encodeSkipped + 1;
    }

    /** Takes the NV12 frame out of slot i and marks everything up to it as consumed. */
    method Steal(i: nat) returns (b: Option<Buf>)
      requires Valid() && i < slots.Length
      modifies this, slots
      ensures Valid() && b == old(slots[i]).nv12
      ensures Value() == FrameRingOps.EncodeAdvance(
                WithSlot(old(Value()), i, old(slots[i]).(nv12 := None)), i, nodeOk)
    {
      b := slots[i].nv12;
      slots[i] := slots[i].(nv12 := None);
      EncodeAdvance(i);
    }

    // ---------------------------------------------------------------- modes and quiesce

    method SetAiActive(on: bool)
      requires Valid()
      modifies this, slots
      ensures Valid() && aiActive == on && recActive == old(recActive)
      ensures Value() == FrameRingOps.SetAiActive(old(Value()), on, nodeOk)
    {
      if aiActive != on {
        aiActive := on;
        Maintain();
      }
    }

    method SetRecActive(on: bool)
      requires Valid()
      modifies this, slots
      ensures Valid() && recActive == on && aiActive == old(aiActive)
      ensures Value() == FrameRingOps.SetRecActive(old(Value()), on, nodeOk)
    {
      if recActive != on {
        recActive := on;
        Maintain();
      }
    }

    method QuiesceBegin()
      requires Valid()
      modifies this
      ensures Valid() && quiescing && Value() == FrameRingOps.QuiesceBegin(old(Value()))
    {
      quiescing := true;
    }

    method ClearSlot(i: nat)
      requires Valid() && i < slots.Length
      modifies this, slots
      ensures Valid() && Value() == ClearAt(old(Value()), i, nodeOk)
    {
      var s := slots[i];
      if s.raw.Some? && s.raw.value.Heap? {
        returned := returned + multiset{s.raw.value};
      }
      BufPut(Rgb, s.rgb);
      BufPut(Nv12, s.nv12);
      BufPut(Jpeg, s.jpeg);
      slots[i] := EMPTY_SLOT;
    }

    /** One wake-up of the quiesce wait: clears the ring if no claim is left. */
    method TryQuiesce() returns (done: bool)
      requires Valid()
      modifies this, slots
      ensures Valid() && done == NoClaims(old(Value()))
      ensures done ==> !quiescing && forall i :: 0 <= i < RING_N ==> slots[i] == EMPTY_SLOT
      ensures Value() == if done then ClearAll(old(Value()), nodeOk) else old(Value())
    {
      var claims := 0;
      for i := 0 to RING_N
        invariant claims == 0 <==> forall j :: 0 <= j < i ==> slots[j].claims == 0
        invariant claims >= 0
      {
        claims := claims + slots[i].claims;
      }
      done := claims == 0;
      if done {
        for i := 0 to RING_N
          invariant Valid() && Value() == ClearUpTo(old(Value()), i, nodeOk)
        {
          ClearSlot(i);
        }
        quiescing := false;
      }
    }
  }

  /** A slot without its buffer of kind k. */
  function DropStage(s: Slot, k: Kind): Slot {
    match k
    case Rgb => s.(rgb := None)
    case Nv12 => s.(nv12 := None)
    case Jpeg => s.(jpeg := None)
  }

  function WithoutRaw(c: Control, s: Slot): Slot {
    if RawReleasable(c, s) then s.(raw := None) else s
  }

  function WithoutStage(c: Control, s: Slot, k: Kind): Slot {
    if StageReleasable(c, s, k) then DropStage(s, k) else s
  }

  /** What one stage's test leaves does not affect the test of another. */
  lemma StageAside(c: Control, s: Slot, k: Kind, j: Kind)
    requires k != j
    ensures StageReleasable(c, WithoutStage(c, s, k), j) == StageReleasable(c, s, j)
    ensures WithoutStage(c, s, k).Stage(j) == s.Stage(j) && WithoutStage(c, s, k).frame == s.frame
  {
  }

  lemma RawAside(c: Control, s: Slot, j: Kind)
    ensures StageReleasable(c, WithoutRaw(c, s), j) == StageReleasable(c, s, j)
    ensures WithoutRaw(c, s).Stage(j) == s.Stage(j) && WithoutRaw(c, s).frame == s.frame
  {
    hide RawReleasable;
  }

  lemma InPlaceSlot(c: Control, s: Slot)
    requires s.frame != 0
    ensures WithoutStage(c, WithoutStage(c, WithoutStage(c, WithoutRaw(c, s), Rgb), Jpeg), Nv12) == Cleaned(c, s)
  {
    hide RawReleasable, StageReleasable;
    var s1 := WithoutRaw(c, s);
    var s2 := WithoutStage(c, s1, Rgb);
    RawAside(c, s, Rgb);
    RawAside(c, s, Jpeg);
    RawAside(c, s, Nv12);
    StageAside(c, s1, Rgb, Jpeg);
    StageAside(c, s1, Rgb, Nv12);
    StageAside(c, s2, Jpeg, Nv12);
  }

  /** Testing each stage on the slot as the previous ones left it decides the same as testing them up front. */
  lemma InPlaceIsCleaned(c: Control, s: Slot, st: Store, env: nat -> bool)
    requires s.frame != 0
    ensures var s1, st1 := WithoutRaw(c, s), CollectRaw(c, s, st);
            var s2, st2 := WithoutStage(c, s1, Rgb), CollectStage(c, s1, st1, Rgb, env);
            var s3, st3 := WithoutStage(c, s2, Jpeg), CollectStage(c, s2, st2, Jpeg, env);
            WithoutStage(c, s3, Nv12) == Cleaned(c, s) && CollectStage(c, s3, st3, Nv12, env) == Collected(c, s, st, env)
  {
    hide Put, RawReleasable, StageReleasable, Cleaned, CollectRaw, WithoutRaw, WithoutStage;
    InPlaceSlot(c, s);
    var s1 := WithoutRaw(c, s);
    var s2 := WithoutStage(c, s1, Rgb);
    RawAside(c, s, Rgb);
    RawAside(c, s, Jpeg);
    RawAside(c, s, Nv12);
    StageAside(c, s1, Rgb, Jpeg);
    StageAside(c, s1, Rgb, Nv12);
    StageAside(c, s2, Jpeg, Nv12);
  }
}
