/** Each step of the pipeline keeps the ring invariant. */
module PipelineSteps {
  import opened Common
  import opened FrameRingModel
  import opened FrameRingOps
  import opened Pipeline
  import opened PipelineInvariant

  // ---------------------------------------------------------------- claims passing from hand to hand

  lemma WorkerHolders(p: Pipe, i: nat, w: Worker, f: nat)
    requires i < |p.workers|
    ensures Holders(WithWorker(p, i, w), f) + Is(WorkerFrame(p.workers[i]), f)
         == Holders(p, f) + Is(WorkerFrame(w), f)
  {
    assert WorkerFrames(p.workers[i := w]) == WorkerFrames(p.workers)[i := WorkerFrame(w)];
    CountUpdate(WorkerFrames(p.workers), i, WorkerFrame(w), f);
  }

  function JobFrame(job: Job): Option<nat> {
    if job.rgb.Some? then Some(job.frame) else None
  }

  lemma JobHolders(jobs: seq<Job>, i: nat, job: Job, f: nat)
    requires i < |jobs|
    ensures Count(JobFrames(jobs[i := job]), f) + Is(JobFrame(jobs[i]), f)
         == Count(JobFrames(jobs), f) + Is(JobFrame(job), f)
  {
    assert JobFrames(jobs[i := job]) == JobFrames(jobs)[i := JobFrame(job)];
    CountUpdate(JobFrames(jobs), i, JobFrame(job), f);
  }

  lemma WorkerHolds(p: Pipe, i: nat)
    requires i < |p.workers| && p.workers[i].Inferring?
    ensures Holders(p, p.workers[i].job.frame) > 0
  {
    CountCovers(WorkerFrames(p.workers), i, p.workers[i].job.frame);
  }

  lemma JobHolds(p: Pipe, j: nat)
    requires j < |p.queue.jobs| && p.queue.jobs[j].rgb.Some?
    ensures Holders(p, p.queue.jobs[j].frame) > 0
  {
    CountCovers(JobFrames(p.queue.jobs), j, p.queue.jobs[j].frame);
  }

  // ---------------------------------------------------------------- steps that give up a claim

  lemma AbandonReplaces(p: Pipe, p': Pipe, job: Job, env: nat -> bool)
    requires RingInv(p) && Holders(p, job.frame) > 0
    requires p'.ring == Abandon(p.ring, job, env)
    ensures SlotReplaced(p, p', SlotIndex(job.frame), Freed(p.ring.slots[SlotIndex(job.frame)], None))
    ensures p'.ring.ctl == p.ring.ctl
  {
    var i := SlotIndex(job.frame);
    assert SlotOk(p.ring.ctl, ClaimedUpTo(p), Holders(p, job.frame), i, p.ring.slots[i]);
  }

  lemma WriteBackReplaces(p: Pipe, p': Pipe, job: Job, env: nat -> bool)
    requires RingInv(p) && Holders(p, job.frame) > 0 && job.rgb.Some?
    requires p'.ring == WriteBack(p.ring, job, env)
    ensures SlotReplaced(p, p', SlotIndex(job.frame), Freed(p.ring.slots[SlotIndex(job.frame)], job.rgb))
    ensures p'.ring.ctl == p.ring.ctl
  {
    var i := SlotIndex(job.frame);
    assert SlotOk(p.ring.ctl, ClaimedUpTo(p), Holders(p, job.frame), i, p.ring.slots[i]);
  }

  lemma WorkerAbandonKept(p: Pipe, i: nat, env: nat -> bool)
    requires RingInv(p) && Enabled(p, WorkerAbandon(i))
    ensures RingInv(Next(p, WorkerAbandon(i), env))
  {
    var p' := Next(p, WorkerAbandon(i), env);
    var job := p.workers[i].job;
    WorkerHolds(p, i);
    AbandonReplaces(p, p', job, env);
    forall f: nat ensures Holders(p', f) + (if f == job.frame then 1 else 0) == Holders(p, f) {
      WorkerHolders(p, i, Idle, f);
    }
    ReleaseKept(p, p', job.frame, None);
  }

  lemma WorkerWriteKept(p: Pipe, i: nat, env: nat -> bool)
    requires RingInv(p) && Enabled(p, WorkerWrite(i))
    ensures RingInv(Next(p, WorkerWrite(i), env))
  {
    var p' := Next(p, WorkerWrite(i), env);
    var job := p.workers[i].job;
    WorkerHolds(p, i);
    WriteBackReplaces(p, p', job, env);
    forall f: nat ensures Holders(p', f) + (if f == job.frame then 1 else 0) == Holders(p, f) {
      WorkerHolders(p, i, Reporting(job.frame), f);
    }
    ReleaseKept(p, p', job.frame, job.rgb);
  }

  lemma FeederRejectedKept(p: Pipe, env: nat -> bool)
    requires RingInv(p) && Enabled(p, FeederHand) && !p.pool.Running?
    ensures RingInv(Next(p, FeederHand, env))
  {
    var p' := Next(p, FeederHand, env);
    var job := p.feeder.job;
    AbandonReplaces(p, p', job, env);
    ReleaseKept(p, p', job.frame, None);
  }

  lemma FeederFailedKept(p: Pipe, env: nat -> bool)
    requires RingInv(p) && Enabled(p, FeederDecoded(false))
    ensures RingInv(Next(p, FeederDecoded(false), env))
  {
    var p' := Next(p, FeederDecoded(false), env);
    var f := p.feeder.frame;
    var i := SlotIndex(f);
    assert SlotOk(p.ring.ctl, ClaimedUpTo(p), Holders(p, f), i, p.ring.slots[i]);
    ReleaseKept(p, p', f, None);
  }

  lemma DrainJobKept(p: Pipe, env: nat -> bool)
    requires RingInv(p) && p.pool.Draining? && p.pool.next < |p.queue.jobs| && p.queue.jobs[p.pool.next].rgb.Some?
    ensures RingInv(DrainNext(p, env))
  {
    var p' := DrainNext(p, env);
    var n := p.pool.next;
    var job := p.queue.jobs[n];
    JobHolds(p, n);
    assert p'.ring == Abandon(p.ring, job, env);
    AbandonReplaces(p, p', job, env);
    forall f: nat ensures Holders(p', f) + (if f == job.frame then 1 else 0) == Holders(p, f) {
      JobHolders(p.queue.jobs, n, job.(rgb := None), f);
    }
    DrainedJobsOk(p, env);
    ReleaseKept(p, p', job.frame, None);
  }

  lemma DrainedJobsOk(p: Pipe, env: nat -> bool)
    requires Shaped(p) && JobsOk(p) && p.pool.Draining?
    requires p.pool.next < |p.queue.jobs| && p.queue.jobs[p.pool.next].rgb.Some?
    ensures JobsOk(DrainNext(p, env))
  {
    hide Abandon;
  }

  lemma DrainKept(p: Pipe, env: nat -> bool)
    requires RingInv(p) && Enabled(p, StopDrain)
    ensures RingInv(Next(p, StopDrain, env))
  {
    if p.pool.Draining? && p.pool.next < |p.queue.jobs| && p.queue.jobs[p.pool.next].rgb.Some? {
      DrainJobKept(p, env);
    } else {
      SlotsKept(p, Next(p, StopDrain, env));
    }
  }

  // ---------------------------------------------------------------- steps that pass a claim on

  lemma FeederDecodedKept(p: Pipe, env: nat -> bool)
    requires RingInv(p) && Enabled(p, FeederDecoded(true))
    ensures RingInv(Next(p, FeederDecoded(true), env))
  {
    SlotsKept(p, Next(p, FeederDecoded(true), env));
  }

  lemma EnqueueLive(q: JobQueue, job: Job)
    requires QueueOk(q) && LiveIsOwned(q) && q.count < QUEUE_CAP && job.rgb.Some?
    ensures QueueOk(Enqueue(q, job)) && LiveIsOwned(Enqueue(q, job))
    ensures q.jobs[q.tail].rgb.None?
  {
  }

  lemma PopLive(q: JobQueue)
    requires QueueOk(q) && LiveIsOwned(q) && q.count > 0
    ensures QueueOk(Pop(q).0) && LiveIsOwned(Pop(q).0)
    ensures Pop(q).1.rgb.Some?
  {
  }

  lemma FeederQueuedKept(p: Pipe, env: nat -> bool)
    requires RingInv(p) && Enabled(p, FeederHand) && p.pool.Running?
    ensures RingInv(Next(p, FeederHand, env))
  {
    var p' := Next(p, FeederHand, env);
    EnqueueLive(p.queue, p.feeder.job);
    forall f: nat ensures Holders(p', f) == Holders(p, f) {
      JobHolders(p.queue.jobs, p.queue.tail, p.feeder.job, f);
    }
    SlotsKept(p, p');
  }

  lemma WorkerPopKept(p: Pipe, i: nat, env: nat -> bool)
    requires RingInv(p) && Enabled(p, WorkerPop(i))
    ensures RingInv(Next(p, WorkerPop(i), env))
  {
    var p' := Next(p, WorkerPop(i), env);
    var (q, job) := Pop(p.queue);
    PopLive(p.queue);
    forall f: nat ensures Holders(p', f) == Holders(p, f) {
      JobHolders(p.queue.jobs, p.queue.head, job.(rgb := None), f);
      WorkerHolders(p.(queue := q), i, Inferring(job), f);
    }
    SlotsKept(p, p');
  }

  lemma WorkerMovesKept(p: Pipe, i: nat, s: Step, env: nat -> bool)
    requires RingInv(p) && (s == WorkerExit(i) || s == WorkerReport(i)) && Enabled(p, s)
    ensures RingInv(Next(p, s, env))
  {
    var p' := Next(p, s, env);
    forall f: nat ensures Holders(p', f) == Holders(p, f) {
      WorkerHolders(p, i, p'.workers[i], f);
    }
    SlotsKept(p, p');
  }

  // ---------------------------------------------------------------- claiming

  lemma SlotOkLater(c: Control, upTo: nat, upTo': nat, held: nat, i: nat, s: Slot)
    requires SlotOk(c, upTo, held, i, s) && upTo <= upTo'
    ensures SlotOk(c, upTo', held, i, s)
  {
  }

  lemma FeederIdleKept(p: Pipe, mallocOk: bool)
    requires RingInv(p) && p.feeder.Waiting? && NextClaim(p.ring, p.lastSeq) > p.ring.ctl.produceSeq
    ensures RingInv(Claimed(p, mallocOk))
  {
    var p' := Claimed(p, mallocOk);
    assert p' == p.(lastSeq := p'.lastSeq) && p.lastSeq <= p'.lastSeq <= p.ring.ctl.produceSeq;
    forall f: nat ensures Holders(p', f) == Holders(p, f) {}
    forall i | 0 <= i < RING_N
      ensures SlotOk(p.ring.ctl, ClaimedUpTo(p'), Holders(p', p.ring.slots[i].frame), i, p.ring.slots[i])
    {
      var s := p.ring.slots[i];
      SlotOkLater(p.ring.ctl, ClaimedUpTo(p), ClaimedUpTo(p'), Holders(p, s.frame), i, s);
    }
  }

  /** A slot whose raw is claimed for the first time. */
  lemma SlotOkClaimed(c: Control, upTo: nat, i: nat, s: Slot)
    requires SlotOk(c, upTo, 0, i, s) && Cleaned(c, s) == s && s.raw.Some? && s.frame > upTo
    ensures SlotOk(c, s.frame, 1, i, s.(claims := 1)) && Cleaned(c, s.(claims := 1)) == s.(claims := 1)
  {
  }

  /** The feeder takes the first claim on frame q, which lies beyond all frames claimed before. */
  ghost predicate FirstClaim(p: Pipe, p': Pipe, q: nat)
    requires |p.ring.slots| == RING_N
  {
    var s := p.ring.slots[SlotIndex(q)];
    && ClaimedUpTo(p) < q <= p.ring.ctl.produceSeq && ClaimedUpTo(p') == q
    && s.frame == q && s.raw.Some? && s.claims == 0
    && p'.ring.slots == p.ring.slots[SlotIndex(q) := s.(claims := 1)]
    && p'.ring.ctl == p.ring.ctl
    && (p'.feeder.Decoding? ==> p'.feeder.frame > p'.lastSeq)
    && forall f: nat :: Holders(p', f) == Holders(p, f) + if f == q then 1 else 0
  }

  lemma ClaimedClaims(p: Pipe, p': Pipe, q: nat)
    requires RingInv(p) && FirstClaim(p, p', q)
    ensures ClaimsOk(p')
  {
    hide Holders, ClaimedUpTo, SlotsOk, FixedPoint, JobsOk, CursorsOk, ComposerOk;
  }

  lemma ClaimedSlots(p: Pipe, p': Pipe, q: nat)
    requires RingInv(p) && FirstClaim(p, p', q)
    ensures SlotsOk(p') && FixedPoint(p'.ring)
  {
    var c := p.ring.ctl;
    forall i | 0 <= i < RING_N
      ensures SlotOk(c, q, Holders(p', p'.ring.slots[i].frame), i, p'.ring.slots[i])
      ensures Cleaned(c, p'.ring.slots[i]) == p'.ring.slots[i]
    {
      var s := p.ring.slots[i];
      assert SlotOk(c, ClaimedUpTo(p), Holders(p, s.frame), i, s);
      if i == SlotIndex(q) {
        SlotOkClaimed(c, ClaimedUpTo(p), i, s);
      } else {
        SlotOkLater(c, ClaimedUpTo(p), q, Holders(p, s.frame), i, s);
      }
    }
  }

  lemma FeederClaimKept(p: Pipe, mallocOk: bool)
    requires RingInv(p) && p.feeder.Waiting? && NextClaim(p.ring, p.lastSeq) <= p.ring.ctl.produceSeq
    ensures RingInv(Claimed(p, mallocOk))
  {
    var p' := Claimed(p, mallocOk);
    var q := NextClaim(p.ring, p.lastSeq);
    var k := SlotIndex(q);
    assert Holders(p, q) == 0;
    assert p.ring.slots[k].claims == 0 by {
      assert SlotOk(p.ring.ctl, ClaimedUpTo(p), Holders(p, q), k, p.ring.slots[k]);
    }
    assert p'.ring.ctl == p.ring.ctl && p'.ring.slots == p.ring.slots[k := p.ring.slots[k].(claims := 1)];
    assert p'.queue == p.queue && p'.workers == p.workers && p'.feeder.Decoding? && p'.feeder.frame == q;
    forall f: nat ensures Holders(p', f) == Holders(p, f) + if f == q then 1 else 0 {}
    assert FirstClaim(p, p', q);
    assert JobsOk(p') && CursorsOk(p') && ComposerOk(p');
    hide FirstClaim, ClaimsOk, SlotsOk, FixedPoint;
    ClaimedClaims(p, p', q);
    ClaimedSlots(p, p', q);
  }

  // ---------------------------------------------------------------- capture

  lemma OlderSlotOk(c: Control, upTo: nat, held: nat, i: nat, s: Slot)
    requires SlotOk(c, upTo, held, i, s) && i < RING_N && i != SlotIndex(c.produceSeq + 1)
    ensures var c' := c.(produceSeq := c.produceSeq + 1); SlotOk(c', upTo, held, i, Cleaned(c', s))
  {
  }

  lemma FrameSlotOk(c: Control, upTo: nat, w: int, h: int, fmt: int, raw: Raw)
    ensures var c' := c.(produceSeq := c.produceSeq + 1);
            var s0 := FrameSlot(c.produceSeq + 1, w, h, fmt, raw);
            SlotOk(c', upTo, 0, SlotIndex(c.produceSeq + 1), s0) && Cleaned(c', s0) == s0
  {
  }

  lemma CleanedFrame(c: Control, s: Slot)
    ensures Cleaned(c, s).frame == s.frame
  {
  }

  lemma CapturedSlot(p: Pipe, r': Ring, w: int, h: int, fmt: int, raw: Raw, env: nat -> bool, i: nat)
    requires RingInv(p) && i < RING_N
    requires r' == Maintain(Published(p.ring, FrameSlot(p.ring.ctl.produceSeq + 1, w, h, fmt, raw)), env)
    ensures SlotOk(r'.ctl, ClaimedUpTo(p), Holders(p, r'.slots[i].frame), i, r'.slots[i])
    ensures Cleaned(r'.ctl, r'.slots[i]) == r'.slots[i]
  {
    hide SlotOk, Cleaned;
    var c := p.ring.ctl;
    var upTo := ClaimedUpTo(p);
    if i == SlotIndex(c.produceSeq + 1) {
      assert Holders(p, c.produceSeq + 1) == 0;
      FrameSlotOk(c, upTo, w, h, fmt, raw);
    } else {
      var s := p.ring.slots[i];
      assert SlotOk(c, upTo, Holders(p, s.frame), i, s);
      OlderSlotOk(c, upTo, Holders(p, s.frame), i, s);
      CleanedFrame(r'.ctl, s);
      CleanedTwice(r'.ctl, s);
    }
  }

  lemma CapturedSlots(p: Pipe, p': Pipe, w: int, h: int, fmt: int, raw: Raw, env: nat -> bool)
    requires RingInv(p) && p' == p.(ring := p'.ring, hand := p'.hand)
    requires p'.ring == Maintain(Published(p.ring, FrameSlot(p.ring.ctl.produceSeq + 1, w, h, fmt, raw)), env)
    ensures SlotsOk(p') && FixedPoint(p'.ring)
  {
    forall i | 0 <= i < RING_N
      ensures SlotOk(p'.ring.ctl, ClaimedUpTo(p'), Holders(p', p'.ring.slots[i].frame), i, p'.ring.slots[i])
      ensures Cleaned(p'.ring.ctl, p'.ring.slots[i]) == p'.ring.slots[i]
    {
      CapturedSlot(p, p'.ring, w, h, fmt, raw, env, i);
    }
  }

  /** A slot that can be reused carries neither a claim nor the picture being rendered. */
  lemma CapturedRest(p: Pipe, p': Pipe, w: int, h: int, fmt: int, raw: Raw, env: nat -> bool)
    requires RingInv(p) && p' == p.(ring := p'.ring, hand := p'.hand)
    requires Reusable(p.ring.slots[SlotIndex(p.ring.ctl.produceSeq + 1)])
    requires p'.ring == Maintain(Published(p.ring, FrameSlot(p.ring.ctl.produceSeq + 1, w, h, fmt, raw)), env)
    ensures ClaimsOk(p') && CursorsOk(p') && ComposerOk(p') && JobsOk(p')
  {
    var k := SlotIndex(p.ring.ctl.produceSeq + 1);
    var s := p.ring.slots[k];
    assert SlotOk(p.ring.ctl, ClaimedUpTo(p), Holders(p, s.frame), k, s);
    forall f: nat ensures Holders(p', f) == Holders(p, f) {}
    forall f: nat | Holders(p', f) > 0 ensures p'.ring.slots[SlotIndex(f)].frame == f {
      assert p.ring.slots[SlotIndex(f)].frame == f;
    }
  }

  lemma CaptureKept(p: Pipe, p': Pipe, w: int, h: int, fmt: int, raw: Raw, env: nat -> bool)
    requires RingInv(p) && p' == p.(ring := Capture(p.ring, w, h, fmt, raw, env).0, hand := p'.hand)
    ensures RingInv(p')
  {
    CaptureAtRest(p.ring, w, h, fmt, raw, env);
    if Reusable(p.ring.slots[SlotIndex(p.ring.ctl.produceSeq + 1)]) {
      CapturedSlots(p, p', w, h, fmt, raw, env);
      CapturedRest(p, p', w, h, fmt, raw, env);
    } else {
      SlotsKept(p, p');
    }
  }
}
