/** Composer, recorder, mode switches and camera restart keep the ring invariant. */
module PipelineRender {
  import opened Common
  import opened FrameRingModel
  import opened FrameRingOps
  import opened Pipeline
  import opened PipelineInvariant

  // ---------------------------------------------------------------- composer

  lemma PickedKept(p: Pipe, nvOk: bool, wantJpeg: bool, jpOk: bool)
    requires RingInv(p) && p.composer.Chosen?
    ensures RingInv(Picked(p, nvOk, wantJpeg, jpOk))
  {
    var p' := Picked(p, nvOk, wantJpeg, jpOk);
    var f := p.composer.frame;
    var s := p.ring.slots[SlotIndex(f)];
    assert SlotOk(p.ring.ctl, ClaimedUpTo(p), Holders(p, s.frame), SlotIndex(f), s);
    assert p'.ring.slots == p.ring.slots && p'.ring.ctl == p.ring.ctl;
    assert p'.feeder == p.feeder && p'.queue == p.queue && p'.workers == p.workers;
    SlotsKept(p, p');
  }

  lemma IncreasingSnoc(xs: seq<nat>, x: nat)
    requires Increasing(xs) && LastOr0(xs) < x
    ensures Increasing(xs + [x]) && LastOr0(xs + [x]) == x
  {
    if xs != [] {
      assert forall i :: 0 <= i < |xs| ==> xs[i] <= xs[|xs| - 1];
    }
  }

  /** The slot as the commit leaves it before the release pass. */
  function Shown(s: Slot, c: Composer, ok: bool): Slot
    requires c.Rendering?
  {
    if ok then s.(nv12 := c.nv12, jpeg := c.jpeg, displayDone := true) else s.(displayDone := true)
  }

  function ShownControl(c: Control, f: nat): Control
    requires f > c.displaySeq
  {
    c.(renderSkipped := c.renderSkipped + (f - c.displaySeq - 1), displaySeq := f)
  }

  lemma RenderCommitShape(r: Ring, c: Composer, ok: bool, env: nat -> bool)
    requires |r.slots| == RING_N && c.Rendering? && c.frame > r.ctl.displaySeq
    requires Renderable(r.slots[SlotIndex(c.frame)], c.frame)
    ensures var i := SlotIndex(c.frame);
            RenderCommit(r, c, ok, env) ==
            Maintain(Ring(r.slots[i := Shown(r.slots[i], c, ok)], ShownControl(r.ctl, c.frame),
                          if ok then r.store else PutBoth(r.store, c.nv12, c.jpeg, env)), env)
  {
    var i := SlotIndex(c.frame);
    var s := r.slots[i];
    assert r.slots[i := s.(nv12 := c.nv12, jpeg := c.jpeg)][i := Shown(s, c, true)] == r.slots[i := Shown(s, c, true)];
  }

  lemma RenderedHit(p: Pipe, p': Pipe, ok: bool, st: Store, env: nat -> bool)
    requires RingInv(p) && p.composer.Rendering?
    requires Renderable(p.ring.slots[SlotIndex(p.composer.frame)], p.composer.frame)
    requires var i := SlotIndex(p.composer.frame);
             p'.ring == Maintain(Ring(p.ring.slots[i := Shown(p.ring.slots[i], p.composer, ok)],
                                      ShownControl(p.ring.ctl, p.composer.frame), st), env)
    requires p' == p.(ring := p'.ring, composer := Resting, shown := p.shown + [p.composer.frame])
    ensures RingInv(p')
  {
    var f := p.composer.frame;
    var i := SlotIndex(f);
    var s := p.ring.slots[i];
    assert SlotOk(p.ring.ctl, ClaimedUpTo(p), Holders(p, s.frame), i, s);
    forall g: nat ensures Holders(p', g) == Holders(p, g) {}
    SlotReplacedKept(p, p', i, Shown(s, p.composer, ok));
    IncreasingSnoc(p.shown, f);
  }

  lemma RenderedKept(p: Pipe, ok: bool, env: nat -> bool)
    requires RingInv(p) && p.composer.Rendering?
    ensures RingInv(Rendered(p, ok, env))
  {
    var p' := Rendered(p, ok, env);
    if Renderable(p.ring.slots[SlotIndex(p.composer.frame)], p.composer.frame) {
      RenderCommitShape(p.ring, p.composer, ok, env);
      var st := if ok then p.ring.store else PutBoth(p.ring.store, p.composer.nv12, p.composer.jpeg, env);
      RenderedHit(p, p', ok, st, env);
    } else {
      assert p'.ring.slots == p.ring.slots && p'.ring.ctl == p.ring.ctl;
      SlotsKept(p, p');
    }
  }

  lemma RegrownKept(p: Pipe, cap: nat)
    requires RingInv(p) && p.composer.Rendering?
    ensures RingInv(Regrown(p, cap))
  {
    var p' := Regrown(p, cap);
    assert p'.ring.slots == p.ring.slots && p'.ring.ctl == p.ring.ctl;
    assert p'.feeder == p.feeder && p'.queue == p.queue && p'.workers == p.workers;
    SlotsKept(p, p');
  }

  // ---------------------------------------------------------------- every slot cleaned in place

  /** All slots rewritten by a local change that keeps their legality, then cleaned. */
  ghost predicate AllCleaned(p: Pipe, p': Pipe, slots: seq<Slot>) {
    && |p.ring.slots| == |p'.ring.slots| == |slots| == RING_N
    && p'.ring.ctl.produceSeq == p.ring.ctl.produceSeq && p'.ring.ctl.displaySeq == p.ring.ctl.displaySeq
    && p'.feeder == p.feeder && p'.queue == p.queue && p'.workers == p.workers && p'.lastSeq == p.lastSeq
    && p'.composer == p.composer && p'.nextSeq == p.nextSeq && p'.clears == p.clears
    && (forall i :: 0 <= i < RING_N ==>
          && slots[i].frame == p.ring.slots[i].frame && slots[i].rgb == p.ring.slots[i].rgb
          && slots[i].rgbDone == p.ring.slots[i].rgbDone
          && p'.ring.slots[i] == Cleaned(p'.ring.ctl, slots[i]))
  }

  lemma AllCleanedKept(p: Pipe, p': Pipe, slots: seq<Slot>)
    requires RingInv(p) && AllCleaned(p, p', slots)
    requires forall i :: 0 <= i < RING_N ==>
      SlotOk(p.ring.ctl, ClaimedUpTo(p), Holders(p, slots[i].frame), i, slots[i])
    ensures SlotsOk(p') && FixedPoint(p'.ring) && ClaimsOk(p') && ComposerOk(p')
  {
    forall f: nat ensures Holders(p', f) == Holders(p, f) {}
    forall i | 0 <= i < RING_N
      ensures SlotOk(p'.ring.ctl, ClaimedUpTo(p'), Holders(p', p'.ring.slots[i].frame), i, p'.ring.slots[i])
      ensures Cleaned(p'.ring.ctl, p'.ring.slots[i]) == p'.ring.slots[i]
    {
      var s := slots[i];
      CleanedOk(p.ring.ctl, p'.ring.ctl, ClaimedUpTo(p), ClaimedUpTo(p'), Holders(p, s.frame), i, s);
      CleanedTwice(p'.ring.ctl, s);
    }
  }

  lemma ModeKept(p: Pipe, p': Pipe, c: Control, env: nat -> bool)
    requires RingInv(p) && p' == p.(ring := Maintain(p.ring.(ctl := c), env))
    requires c == p.ring.ctl.(aiActive := c.aiActive, recActive := c.recActive)
    ensures RingInv(p')
  {
    AllCleanedKept(p, p', p.ring.slots);
  }

  // ---------------------------------------------------------------- recorder

  lemma ConsumedOk(c: Control, upTo: nat, held: nat, i: nat, s: Slot, q: nat)
    requires SlotOk(c, upTo, held, i, s)
    ensures SlotOk(c, upTo, held, i, Consumed(s, q)) && SlotOk(c, upTo, held, i, Consumed(s, q).(nv12 := None))
  {
  }

  /** The slots as the recorder leaves them before the release pass. */
  function Marked(slots: seq<Slot>, i: nat, steal: bool): (slots': seq<Slot>)
    requires i < |slots|
    ensures |slots'| == |slots|
  {
    ConsumedAll(if steal then slots[i := slots[i].(nv12 := None)] else slots, slots[i].frame)
  }

  lemma MarkedOk(p: Pipe, i: nat, steal: bool)
    requires RingInv(p) && i < RING_N
    ensures var marked := Marked(p.ring.slots, i, steal);
            forall j :: 0 <= j < RING_N ==>
              SlotOk(p.ring.ctl, ClaimedUpTo(p), Holders(p, marked[j].frame), j, marked[j])
  {
    var marked := Marked(p.ring.slots, i, steal);
    forall j | 0 <= j < RING_N
      ensures SlotOk(p.ring.ctl, ClaimedUpTo(p), Holders(p, marked[j].frame), j, marked[j])
    {
      var s := p.ring.slots[j];
      assert SlotOk(p.ring.ctl, ClaimedUpTo(p), Holders(p, s.frame), j, s);
      ConsumedOk(p.ring.ctl, ClaimedUpTo(p), Holders(p, s.frame), j, s, p.ring.slots[i].frame);
    }
  }

  /** The release rules look at the cursors and modes, not at the counters. */
  lemma CleanedSameModes(c: Control, c': Control, s: Slot)
    requires c'.produceSeq == c.produceSeq && c'.displaySeq == c.displaySeq
    requires c'.aiActive == c.aiActive && c'.recActive == c.recActive
    ensures Cleaned(c', s) == Cleaned(c, s)
  {
  }

  lemma AdvancedSlots(r: Ring, r': Ring, i: nat, steal: bool, env: nat -> bool)
    requires i < |r.slots|
    requires r'.slots == Maintain(r.(slots := Marked(r.slots, i, steal)), env).slots
    requires r'.ctl == r.ctl.(encodeSkipped := r'.ctl.encodeSkipped)
    ensures forall j :: 0 <= j < |r.slots| ==>
              && r'.slots[j] == Cleaned(r'.ctl, Marked(r.slots, i, steal)[j])
              && Marked(r.slots, i, steal)[j].frame == r.slots[j].frame
              && Marked(r.slots, i, steal)[j].rgb == r.slots[j].rgb
              && Marked(r.slots, i, steal)[j].rgbDone == r.slots[j].rgbDone
  {
    var marked := Marked(r.slots, i, steal);
    forall j | 0 <= j < |r.slots| ensures r'.slots[j] == Cleaned(r'.ctl, marked[j]) {
      CleanedSameModes(r.ctl, r'.ctl, marked[j]);
    }
  }

  lemma AdvancedKept(p: Pipe, p': Pipe, i: nat, steal: bool, env: nat -> bool)
    requires RingInv(p) && i < RING_N
    requires p'.ring.slots == Maintain(p.ring.(slots := Marked(p.ring.slots, i, steal)), env).slots
    requires p'.ring.ctl == p.ring.ctl.(encodeSkipped := p'.ring.ctl.encodeSkipped)
    requires p'.feeder == p.feeder && p'.queue == p.queue && p'.workers == p.workers && p'.lastSeq == p.lastSeq
    requires p'.composer == p.composer && p'.nextSeq == p.nextSeq && p'.clears == p.clears
    ensures SlotsOk(p') && FixedPoint(p'.ring) && ClaimsOk(p') && ComposerOk(p')
  {
    MarkedOk(p, i, steal);
    AdvancedSlots(p.ring, p'.ring, i, steal, env);
    AllCleanedKept(p, p', Marked(p.ring.slots, i, steal));
  }

  lemma RecorderKept(p: Pipe, sameSize: bool, env: nat -> bool)
    requires RingInv(p)
    ensures RingInv(RecorderTook(p, sameSize, env))
  {
    var p' := RecorderTook(p, sameSize, env);
    var pick := EncodePick(p.ring, p.recSeq);
    if pick.Some? {
      AdvancedKept(p, p', pick.value, sameSize, env);
      if sameSize {
        IncreasingSnoc(p.stolen, p.ring.slots[pick.value].frame);
      }
    }
  }

  // ---------------------------------------------------------------- camera restart

  /** Once no claim is held the slots can be emptied: no thread still refers to one by its claim. */
  lemma ClearKept(p: Pipe, p': Pipe, env: nat -> bool)
    requires RingInv(p) && NoClaims(p.ring)
    requires p' == p.(ring := ClearAll(p.ring, env), phase := p'.phase, clears := p.clears + 1)
    ensures RingInv(p')
  {
    forall f: nat ensures Holders(p', f) == Holders(p, f) == 0 {
      if Holders(p, f) > 0 {
        HeldSlot(p, f);
      }
    }
  }
}
