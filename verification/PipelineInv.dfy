/**
 * What every critical section of the pipeline keeps: slot states, claims, the release
 * discipline and the cursors.
 */
module PipelineInvariant {
  import opened Common
  import opened FrameRingModel
  import opened FrameRingOps
  import opened Pipeline

  // ---------------------------------------------------------------- who holds a claim

  function FeederFrame(f: Feeder): Option<nat> {
    match f
    case Waiting => None
    case Decoding(frame, _, _, _) => Some(frame)
    case Handing(job) => Some(job.frame)
  }

  function JobFrames(jobs: seq<Job>): (xs: seq<Option<nat>>)
    ensures |xs| == |jobs|
    ensures forall i :: 0 <= i < |jobs| ==> xs[i] == if jobs[i].rgb.Some? then Some(jobs[i].frame) else None
  {
    seq(|jobs|, i requires 0 <= i < |jobs| => if jobs[i].rgb.Some? then Some(jobs[i].frame) else None)
  }

  function WorkerFrame(w: Worker): Option<nat> {
    if w.Inferring? then Some(w.job.frame) else None
  }

  function WorkerFrames(ws: seq<Worker>): (xs: seq<Option<nat>>)
    ensures |xs| == |ws|
    ensures forall i :: 0 <= i < |ws| ==> xs[i] == WorkerFrame(ws[i])
  {
    seq(|ws|, i requires 0 <= i < |ws| => WorkerFrame(ws[i]))
  }

  /** How many threads and queue entries hold the claim on frame f. */
  function Holders(p: Pipe, f: nat): nat {
    Is(FeederFrame(p.feeder), f) + Count(JobFrames(p.queue.jobs), f) + Count(WorkerFrames(p.workers), f)
  }

  /** Every frame up to here has been claimed or passed over. */
  function ClaimedUpTo(p: Pipe): nat {
    if p.feeder.Decoding? && p.feeder.frame > p.lastSeq then p.feeder.frame else p.lastSeq
  }

  // ---------------------------------------------------------------- slots

  /** State of slot i when `held` holders claim its frame and frames up to `upTo` were claimed. */
  ghost predicate SlotOk(c: Control, upTo: nat, held: nat, i: nat, s: Slot) {
    if s.frame == 0 then s == EMPTY_SLOT
    else
      && SlotIndex(s.frame) == i && s.frame <= c.produceSeq < s.frame + RING_N
      && s.claims == held
      && (s.claims > 0 ==> s.raw.Some? && s.rgb.None?)
      && (s.rgb.Some? ==> s.rgbDone)
      && (s.rgb.Some? && s.raw.Some? ==> s.frame <= upTo)
      && (s.nv12.Some? || s.jpeg.Some? ==> s.displayDone)
      && (s.displayDone ==> s.frame <= c.displaySeq)
      && (s.frame == c.produceSeq ==> s.raw.Some?)
  }

  /** The release pass keeps a slot's state legal, also after the cursors moved forward. */
  lemma CleanedOk(c: Control, c': Control, upTo: nat, upTo': nat, held: nat, i: nat, s: Slot)
    requires SlotOk(c, upTo, held, i, s)
    requires c'.produceSeq == c.produceSeq && c'.displaySeq >= c.displaySeq && upTo' >= upTo
    ensures SlotOk(c', upTo', held, i, Cleaned(c', s))
  {
  }

  lemma CleanedTwice(c: Control, s: Slot)
    ensures Cleaned(c, Cleaned(c, s)) == Cleaned(c, s)
  {
  }

  ghost predicate SlotsOk(p: Pipe)
    requires |p.ring.slots| == RING_N
  {
    forall i :: 0 <= i < RING_N ==>
      SlotOk(p.ring.ctl, ClaimedUpTo(p), Holders(p, p.ring.slots[i].frame), i, p.ring.slots[i])
  }

  /** A held claim is on the slot that still carries the frame, and nobody else holds it. */
  ghost predicate ClaimsOk(p: Pipe)
    requires |p.ring.slots| == RING_N
  {
    && (forall f: nat :: Holders(p, f) > 0 ==>
          && Holders(p, f) == 1 && 0 < f <= ClaimedUpTo(p)
          && p.ring.slots[SlotIndex(f)].frame == f)
    && (p.feeder.Decoding? ==> p.feeder.frame > p.lastSeq)
    && ClaimedUpTo(p) <= p.ring.ctl.produceSeq
  }

  ghost predicate JobsOk(p: Pipe) {
    && (p.feeder.Handing? ==> p.feeder.job.rgb.Some?)
    && (forall i :: 0 <= i < |p.workers| && p.workers[i].Inferring? ==> p.workers[i].job.rgb.Some?)
    && QueueOk(p.queue)
    && match p.pool
       case Draining(n) => forall j :: 0 <= j < |p.queue.jobs| && j < n ==> p.queue.jobs[j].rgb.None?
       case Stopped => p.queue.count == 0 && forall j :: 0 <= j < |p.queue.jobs| ==> p.queue.jobs[j].rgb.None?
       case _ => LiveIsOwned(p.queue)
  }

  ghost predicate Increasing(xs: seq<nat>) {
    forall i, j :: 0 <= i < j < |xs| ==> xs[i] < xs[j]
  }

  function LastOr0(xs: seq<nat>): nat { if xs == [] then 0 else xs[|xs| - 1] }

  /** Display commits and recorder steals only ever move forward. */
  ghost predicate CursorsOk(p: Pipe) {
    && Increasing(p.shown) && LastOr0(p.shown) == p.ring.ctl.displaySeq
    && |p.shown| + p.ring.ctl.renderSkipped == p.ring.ctl.displaySeq
    && p.ring.ctl.displaySeq <= p.nextSeq <= p.ring.ctl.produceSeq
    && Increasing(p.stolen) && LastOr0(p.stolen) <= p.recSeq
  }

  /** The slot being rendered keeps its pixels, unless the camera restart cleared it meanwhile. */
  ghost predicate ComposerOk(p: Pipe)
    requires |p.ring.slots| == RING_N
  {
    match p.composer
    case Rendering(f, _, _, rgb, _, _, epoch) =>
      var s := p.ring.slots[SlotIndex(f)];
      && p.nextSeq == f && f > p.ring.ctl.displaySeq && epoch <= p.clears
      && (epoch == p.clears ==> s.frame == f)
      && (s.frame == f ==> s.rgb == Some(rgb) && s.rgbDone)
    case _ => true
  }

  ghost predicate RingInv(p: Pipe) {
    && |p.ring.slots| == RING_N
    && SlotsOk(p) && FixedPoint(p.ring) && ClaimsOk(p) && JobsOk(p) && CursorsOk(p) && ComposerOk(p)
  }

  /**
   * Claim stability: as long as some thread or queue entry holds the claim on frame f, the
   * slot still carries f with its raw data, its claim count is exactly that one holder, and
   * it owns no decoded picture.
   */
  lemma HeldSlot(p: Pipe, f: nat)
    requires RingInv(p) && Holders(p, f) > 0
    ensures var s := p.ring.slots[SlotIndex(f)];
            s.frame == f && s.claims == 1 && s.raw.Some? && s.rgb.None?
  {
    var i := SlotIndex(f);
    assert SlotOk(p.ring.ctl, ClaimedUpTo(p), Holders(p, p.ring.slots[i].frame), i, p.ring.slots[i]);
  }

  // ---------------------------------------------------------------- steps that leave the slots alone

  /** The two states agree on everything that SlotsOk and ClaimsOk look at. */
  ghost predicate SameClaims(p: Pipe, p': Pipe) {
    && ClaimedUpTo(p') == ClaimedUpTo(p)
    && (forall f: nat :: Holders(p', f) == Holders(p, f))
    && (p'.feeder.Decoding? ==> p'.feeder.frame > p'.lastSeq)
  }

  /** Slots untouched, control unchanged but for counters: slot invariants carry over. */
  lemma SlotsKept(p: Pipe, p': Pipe)
    requires RingInv(p) && SameClaims(p, p')
    requires p'.ring.slots == p.ring.slots
    requires p'.ring.ctl.produceSeq == p.ring.ctl.produceSeq && p'.ring.ctl.displaySeq == p.ring.ctl.displaySeq
    requires p'.ring.ctl.aiActive == p.ring.ctl.aiActive && p'.ring.ctl.recActive == p.ring.ctl.recActive
    ensures SlotsOk(p') && FixedPoint(p'.ring) && ClaimsOk(p')
  {
    forall i | 0 <= i < RING_N
      ensures SlotOk(p'.ring.ctl, ClaimedUpTo(p'), Holders(p', p'.ring.slots[i].frame), i, p'.ring.slots[i])
      ensures Cleaned(p'.ring.ctl, p'.ring.slots[i]) == p'.ring.slots[i]
    {
      var s := p.ring.slots[i];
      assert SlotOk(p.ring.ctl, ClaimedUpTo(p), Holders(p, s.frame), i, s);
      assert Cleaned(p.ring.ctl, s) == s;
    }
  }

  // ---------------------------------------------------------------- one slot replaced, then the release pass

  /** Slot i becomes s' and the release pass runs under the new control block. */
  ghost predicate SlotReplaced(p: Pipe, p': Pipe, i: nat, s': Slot) {
    && |p.ring.slots| == |p'.ring.slots| == RING_N && i < RING_N
    && p.ring.slots[i].frame != 0 && s'.frame == p.ring.slots[i].frame
    && p'.ring.ctl.produceSeq == p.ring.ctl.produceSeq
    && (forall j :: 0 <= j < RING_N ==>
          p'.ring.slots[j] == Cleaned(p'.ring.ctl, if j == i then s' else p.ring.slots[j]))
  }

  lemma SlotReplacedKept(p: Pipe, p': Pipe, i: nat, s': Slot)
    requires RingInv(p) && SlotReplaced(p, p', i, s')
    requires p'.ring.ctl.displaySeq >= p.ring.ctl.displaySeq && ClaimedUpTo(p') >= ClaimedUpTo(p)
    requires forall f: nat :: f != s'.frame ==> Holders(p', f) == Holders(p, f)
    requires SlotOk(p'.ring.ctl, ClaimedUpTo(p'), Holders(p', s'.frame), i, s')
    ensures SlotsOk(p') && FixedPoint(p'.ring)
  {
    var c, c' := p.ring.ctl, p'.ring.ctl;
    var upTo, upTo' := ClaimedUpTo(p), ClaimedUpTo(p');
    forall j | 0 <= j < RING_N
      ensures SlotOk(c', upTo', Holders(p', p'.ring.slots[j].frame), j, p'.ring.slots[j])
      ensures Cleaned(c', p'.ring.slots[j]) == p'.ring.slots[j]
    {
      var s := if j == i then s' else p.ring.slots[j];
      CleanedTwice(c', s);
      if j == i {
        CleanedOk(c', c', upTo', upTo', Holders(p', s.frame), j, s);
      } else {
        assert SlotOk(c, upTo, Holders(p, s.frame), j, s);
        var held := if s.frame == s'.frame then s.claims else Holders(p', s.frame);
        CleanedOk(c, c', upTo, upTo', held, j, s);
      }
    }
  }

  /** The picture under the composer's hands survives any step that leaves its slot's rgb alone. */
  lemma ComposerKept(p: Pipe, p': Pipe, i: nat, s': Slot)
    requires RingInv(p) && SlotReplaced(p, p', i, s')
    requires p'.composer == p.composer && p'.nextSeq == p.nextSeq && p'.clears == p.clears
    requires p'.ring.ctl.displaySeq == p.ring.ctl.displaySeq
    requires p.ring.slots[i].rgb.Some? ==> s'.rgb == p.ring.slots[i].rgb && s'.rgbDone
    ensures ComposerOk(p')
  {
  }

  /** A claim is given up, with or without handing the decoded picture to the slot. */
  function Freed(s: Slot, written: Option<Buf>): Slot {
    if written.Some? then Unclaimed(s.(rgb := written, rgbDone := true)) else Unclaimed(s)
  }

  lemma ReleaseKept(p: Pipe, p': Pipe, fr: nat, written: Option<Buf>)
    requires RingInv(p) && Holders(p, fr) > 0
    requires forall f: nat :: Holders(p', f) + (if f == fr then 1 else 0) == Holders(p, f)
    requires ClaimedUpTo(p') == ClaimedUpTo(p) && (p'.feeder.Decoding? ==> p'.feeder.frame > p'.lastSeq)
    requires SlotReplaced(p, p', SlotIndex(fr), Freed(p.ring.slots[SlotIndex(fr)], written))
    requires p'.ring.ctl.displaySeq == p.ring.ctl.displaySeq
    requires p'.composer == p.composer && p'.nextSeq == p.nextSeq && p'.clears == p.clears
    ensures SlotsOk(p') && FixedPoint(p'.ring) && ClaimsOk(p') && ComposerOk(p')
  {
    var i := SlotIndex(fr);
    var s := p.ring.slots[i];
    assert s.frame == fr && SlotOk(p.ring.ctl, ClaimedUpTo(p), Holders(p, fr), i, s);
    SlotReplacedKept(p, p', i, Freed(s, written));
    ComposerKept(p, p', i, Freed(s, written));
  }
}
