/** What becomes of frames, pictures and buffers in the runs of the pipeline. */
module PipelineOutcomes {
  import opened Common
  import opened FrameRingModel
  import opened FrameRingOps
  import opened Pipeline
  import opened PipelineInvariant
  import opened PipelineSafety
  import opened PipelineFlow
  import Steps = PipelineSteps
  import Render = PipelineRender
  import Theorems = PipelineTheorems

  // ---------------------------------------------------------------- claims

  /** Claims are banned only while a restart waits for the ring to empty; a restart lifts the ban. */
  lemma BannedOnlyInRestart(ps: seq<Pipe>, ss: seq<Step>, env: nat -> bool, n: nat)
    requires Run(ps, ss, env) && n < |ps|
    ensures ps[n].ring.ctl.quiescing <==> ps[n].phase.Quiescing?
  {
    RunFlow(ps, ss, env, n);
    hide Run, RingInv, SlotsFlow, HandsFit;
  }

  /** Slot i holds a captured frame that still has its raw data. */
  predicate HasRaw(r: Ring, i: nat)
    requires i < |r.slots|
  {
    r.slots[i].frame != 0 && r.slots[i].raw.Some?
  }

  /**
   * While the camera streams, before and after any number of restarts, a captured frame can be
   * claimed for as long as its raw data is there.
   */
  lemma ClaimableIff(ps: seq<Pipe>, ss: seq<Step>, env: nat -> bool, n: nat, i: nat)
    requires Run(ps, ss, env) && n < |ps| && ps[n].phase.Streaming? && i < RING_N
    ensures |ps[n].ring.slots| == RING_N
    ensures Claimable(ps[n].ring, ps[n].ring.slots[i].frame) <==> HasRaw(ps[n].ring, i)
  {
    RunFlow(ps, ss, env, n);
    var p := ps[n];
    assert SlotOk(p.ring.ctl, ClaimedUpTo(p), Holders(p, p.ring.slots[i].frame), i, p.ring.slots[i]);
    hide Run, SlotsFlow, HandsFit, Holders, ClaimedUpTo;
  }

  /**
   * The idle feeder's next turn takes a claim exactly when some frame beyond its cursor has raw
   * data, and then on the first such frame.
   */
  lemma FeederTakesFirst(ps: seq<Pipe>, ss: seq<Step>, env: nat -> bool, n: nat, mallocOk: bool)
    requires Run(ps, ss, env) && n < |ps| && ps[n].phase.Streaming? && ps[n].feeder.Waiting?
    ensures Shaped(ps[n]) && |ps[n].ring.slots| == RING_N
    ensures var p, f := ps[n], Claimed(ps[n], mallocOk).feeder;
            && (f.Decoding? <==> exists i :: 0 <= i < RING_N && HasRaw(p.ring, i) && p.ring.slots[i].frame > p.lastSeq)
            && (f.Decoding? ==>
                  && f.frame > p.lastSeq && p.ring.slots[SlotIndex(f.frame)].frame == f.frame
                  && HasRaw(p.ring, SlotIndex(f.frame))
                  && forall i :: 0 <= i < RING_N && HasRaw(p.ring, i) && p.ring.slots[i].frame > p.lastSeq ==>
                       f.frame <= p.ring.slots[i].frame)
  {
    RunFlow(ps, ss, env, n);
    var p := ps[n];
    var q := NextClaim(p.ring, p.lastSeq);
    forall i | 0 <= i < RING_N && HasRaw(p.ring, i) && p.ring.slots[i].frame > p.lastSeq
      ensures q <= p.ring.slots[i].frame <= p.ring.ctl.produceSeq
    {
      ClaimableIff(ps, ss, env, n, i);
      assert SlotOk(p.ring.ctl, ClaimedUpTo(p), Holders(p, p.ring.slots[i].frame), i, p.ring.slots[i]);
    }
    hide Run, RingInv, SlotsFlow, HandsFit, Take;
  }

  lemma FeederDrains(p: Pipe, s: Step, env: nat -> bool, f: nat)
    requires RingInv(p) && p.ring.ctl.quiescing && Enabled(p, s)
    requires s.FeederClaim? || s.FeederDecoded? || s.FeederHand?
    ensures Holders(Next(p, s, env), f) <= Holders(p, f)
  {
    match s
    case FeederClaim(mallocOk) =>
      assert NextClaim(p.ring, p.lastSeq) > p.ring.ctl.produceSeq;
      hide RingInv;
    case FeederDecoded(_) => hide RingInv;
    case FeederHand =>
      if p.pool.Running? {
        Steps.EnqueueLive(p.queue, p.feeder.job);
        Steps.JobHolders(p.queue.jobs, p.queue.tail, p.feeder.job, f);
      }
      hide RingInv, Abandon;
  }

  lemma PopDrains(p: Pipe, i: nat, f: nat)
    requires RingInv(p) && Enabled(p, WorkerPop(i))
    ensures Holders(Popped(p, i), f) <= Holders(p, f)
  {
    Steps.PopLive(p.queue);
    var (q, job) := Pop(p.queue);
    hide RingInv;
    Steps.JobHolders(p.queue.jobs, p.queue.head, job.(rgb := None), f);
    Steps.WorkerHolders(p.(queue := q), i, Inferring(job), f);
  }

  /** A worker that changes its own state and goes on holding no other frame. */
  lemma WorkerDrains(p: Pipe, p': Pipe, i: nat, w: Worker, f: nat)
    requires i < |p.workers| && p' == WithWorker(p.(ring := p'.ring, results := p'.results), i, w)
    requires Is(WorkerFrame(w), f) <= Is(WorkerFrame(p.workers[i]), f)
    ensures Holders(p', f) <= Holders(p, f)
  {
    Steps.WorkerHolders(p, i, w, f);
  }

  lemma WorkerStepDrains(p: Pipe, s: Step, env: nat -> bool, f: nat)
    requires Shaped(p) && Enabled(p, s)
    requires s.WorkerExit? || s.WorkerAbandon? || s.WorkerWrite? || s.WorkerReport?
    ensures Holders(Next(p, s, env), f) <= Holders(p, f)
  {
    var p' := Next(p, s, env);
    hide Abandon, WriteBack, Holders;
    match s
    case WorkerExit(i) => WorkerDrains(p, p', i, Exited, f);
    case WorkerAbandon(i) => WorkerDrains(p, p', i, Idle, f);
    case WorkerWrite(i) => WorkerDrains(p, p', i, Reporting(p.workers[i].job.frame), f);
    case WorkerReport(i) => WorkerDrains(p, p', i, Idle, f);
  }

  lemma DrainDrains(p: Pipe, env: nat -> bool, f: nat)
    requires Shaped(p)
    ensures Holders(DrainNext(p, env), f) <= Holders(p, f)
  {
    hide Abandon;
    if p.pool.Draining? && p.pool.next < |p.queue.jobs| && p.queue.jobs[p.pool.next].rgb.Some? {
      Steps.JobHolders(p.queue.jobs, p.pool.next, p.queue.jobs[p.pool.next].(rgb := None), f);
    }
  }

  /** While a restart waits, claims are only given up: no step adds a holder of any frame. */
  lemma ClaimsDrain(p: Pipe, s: Step, env: nat -> bool, f: nat)
    requires RingInv(p) && FlowInv(p) && p.phase.Quiescing? && Enabled(p, s)
    ensures Holders(Next(p, s, env), f) <= Holders(p, f)
  {
    assert p.ring.ctl.quiescing;
    hide RingInv, FlowInv;
    match s
    case FeederClaim(_) => FeederDrains(p, s, env, f);
    case FeederDecoded(_) => FeederDrains(p, s, env, f);
    case FeederHand => FeederDrains(p, s, env, f);
    case StopDrain => DrainDrains(p, env, f);
    case WorkerPop(i) => PopDrains(p, i, f);
    case _ =>
      if s.WorkerExit? || s.WorkerAbandon? || s.WorkerWrite? || s.WorkerReport? {
        WorkerStepDrains(p, s, env, f);
      }
  }

  // ---------------------------------------------------------------- buffers given back

  /**
   * A frame's NV12 picture is gone once the recorder has passed it, or when nobody records, unless
   * it is the frame on display.
   */
  lemma OutputsGivenBack(ps: seq<Pipe>, ss: seq<Step>, env: nat -> bool, n: nat, i: nat)
    requires Run(ps, ss, env) && n < |ps| && i < RING_N
    ensures |ps[n].ring.slots| == RING_N
    ensures var p, s := ps[n], ps[n].ring.slots[i];
            && p.recSeq <= p.ring.ctl.displaySeq
            && (s.nv12.Some? && s.frame != p.ring.ctl.displaySeq ==> p.ring.ctl.recActive && s.frame > p.recSeq)
            && (s.jpeg.Some? ==> s.frame == p.ring.ctl.displaySeq)
  {
    RunFlow(ps, ss, env, n);
    var p, s := ps[n], ps[n].ring.slots[i];
    assert SlotOk(p.ring.ctl, ClaimedUpTo(p), Holders(p, s.frame), i, s) && Cleaned(p.ring.ctl, s) == s;
    assert MarkOk(s, p.recSeq);
    hide Run, RingInv, HandsFit, Holders, ClaimedUpTo;
  }

  /**
   * Raw data of a frame that is neither the newest nor held by a thread is waited for by somebody:
   * the feeder has not come to it, or with detection off a recording has not.
   */
  lemma RawGivenBack(ps: seq<Pipe>, ss: seq<Step>, env: nat -> bool, n: nat, i: nat)
    requires Run(ps, ss, env) && n < |ps| && i < RING_N && !ps[n].phase.Quiescing?
    ensures |ps[n].ring.slots| == RING_N
    ensures var p, s := ps[n], ps[n].ring.slots[i];
            s.raw.Some? && s.frame != p.ring.ctl.produceSeq && Holders(p, s.frame) == 0 ==>
              if p.ring.ctl.aiActive then s.frame > ClaimedUpTo(p) else p.ring.ctl.recActive && s.frame > p.recSeq
  {
    RunFlow(ps, ss, env, n);
    var p, s := ps[n], ps[n].ring.slots[i];
    assert SlotOk(p.ring.ctl, ClaimedUpTo(p), Holders(p, s.frame), i, s) && Cleaned(p.ring.ctl, s) == s;
    assert MarkOk(s, p.recSeq) && DoneOk(s, p.ring.ctl.quiescing, ClaimedUpTo(p)) && BanOk(p);
    hide Run, RingInv, HandsFit, SlotsFlow, Holders, ClaimedUpTo;
  }

  /** Nothing the slot gave up was still needed, under the cursors of p'. */
  ghost predicate NothingLost(p': Pipe, s: Slot, s': Slot) {
    var c := p'.ring.ctl;
    && (s.raw.Some? && s'.raw != s.raw ==>
          && s'.frame != c.produceSeq && s'.claims == 0
          && if c.aiActive then s'.frame <= ClaimedUpTo(p') else !c.recActive || s'.frame <= p'.recSeq)
    && (s.rgb.Some? && s'.rgb != s.rgb ==> s'.frame <= c.displaySeq)
    && (s.nv12.Some? && s'.nv12 != s.nv12 ==>
          || p'.recorder == Encoding(s.nv12.value)
          || (s'.frame != c.displaySeq && (!c.recActive || s'.frame <= p'.recSeq)))
    && (s.jpeg.Some? && s'.jpeg != s.jpeg ==> s'.frame != c.displaySeq)
  }

  lemma SlotKeeps(p': Pipe, s: Slot, s': Slot, x: Option<Buf>, y: Option<Buf>)
    requires GivenUp(p'.ring.ctl, s, s', x, y) && s'.frame == s.frame != 0
    requires MarkOk(s', p'.recSeq) && DoneOk(s', p'.ring.ctl.quiescing, ClaimedUpTo(p'))
    requires x.Some? ==> s.rgb.None?
    requires y.Some? ==> s.nv12.None? && s.jpeg.None?
    ensures NothingLost(p', s, s')
  {
  }

  /** A slot that a steady step leaves with its frame lost nothing that was needed. */
  lemma SteadyKeeps(p: Pipe, p': Pipe, i: nat, k: nat, x: Option<Buf>, y: Option<Buf>)
    requires Steady(p.ring, p'.ring, k, x, y) && i < RING_N && p.ring.slots[i].frame != 0 && FlowInv(p')
    requires x.Some? && k < RING_N ==> p.ring.slots[k].rgb.None?
    requires y.Some? && k < RING_N ==> p.ring.slots[k].nv12.None? && p.ring.slots[k].jpeg.None?
    ensures NothingLost(p', p.ring.slots[i], p'.ring.slots[i])
  {
    var s, s' := p.ring.slots[i], p'.ring.slots[i];
    assert Evolves(s, s', if i == k then x else None, if i == k then y else None);
    assert MarkOk(s', p'.recSeq) && DoneOk(s', p'.ring.ctl.quiescing, ClaimedUpTo(p'));
    hide FlowInv, MarkOk, DoneOk, ClaimedUpTo;
    SlotKeeps(p', s, s', if i == k then x else None, if i == k then y else None);
  }

  lemma UnchangedKeeps(p: Pipe, p': Pipe, i: nat)
    requires |p.ring.slots| == RING_N && p'.ring.slots == p.ring.slots && i < RING_N
    ensures NothingLost(p', p.ring.slots[i], p'.ring.slots[i])
  {
  }

  /** Steps that change no slot's buffers. */
  predicate Aside(s: Step) {
    || s.Dequeue? || s.DriverGap? || s.ReturnBuffer? || s.CameraStop? || s.StreamOff? || s.StreamOn?
    || s.WorkerPop? || s.WorkerExit? || s.WorkerReport? || s.ComposerPop? || s.ComposerTake? || s.ComposerRealloc?
    || s.RecorderReturn? || s.StopPool?
  }

  lemma AsideKeeps(p: Pipe, s: Step, env: nat -> bool, i: nat)
    requires Shaped(p) && Enabled(p, s) && Aside(s) && i < RING_N
    ensures |Next(p, s, env).ring.slots| == RING_N
    ensures NothingLost(Next(p, s, env), p.ring.slots[i], Next(p, s, env).ring.slots[i])
  {
    assert Next(p, s, env).ring.slots == p.ring.slots;
    hide Next;
    UnchangedKeeps(p, Next(p, s, env), i);
  }

  lemma ClaimKeeps(p: Pipe, mallocOk: bool, i: nat)
    requires RingInv(p) && p.feeder.Waiting? && i < RING_N
    ensures |Claimed(p, mallocOk).ring.slots| == RING_N
    ensures NothingLost(Claimed(p, mallocOk), p.ring.slots[i], Claimed(p, mallocOk).ring.slots[i])
  {
    ClaimedShape(p, mallocOk);
    hide RingInv, Claimed, ClaimedUpTo;
  }

  lemma FeederKeeps(p: Pipe, s: Step, env: nat -> bool, i: nat)
    requires RingInv(p) && Enabled(p, s) && (s.FeederDecoded? || s.FeederHand?) && i < RING_N
    requires FlowInv(Next(p, s, env)) && p.ring.slots[i].frame != 0
    ensures NothingLost(Next(p, s, env), p.ring.slots[i], Next(p, s, env).ring.slots[i])
  {
    var p' := Next(p, s, env);
    if s == FeederDecoded(false) {
      HeldSlot(p, p.feeder.frame);
      FailedSteady(p.ring, SlotIndex(p.feeder.frame), Put(p.ring.store, Rgb, p.feeder.rgb, env), env);
      hide RingInv, FlowInv, Steady, NothingLost, Put, InferUnclaim;
      SteadyKeeps(p, p', i, 0, None, None);
    } else if s.FeederHand? && !p.pool.Running? {
      AbandonSteady(p.ring, p.feeder.job, env);
      hide RingInv, FlowInv, Steady, NothingLost, Abandon;
      SteadyKeeps(p, p', i, 0, None, None);
    } else {
      assert p'.ring.slots == p.ring.slots;
      hide RingInv, FlowInv;
      UnchangedKeeps(p, p', i);
    }
  }

  lemma WorkerKeeps(p: Pipe, s: Step, env: nat -> bool, i: nat)
    requires RingInv(p) && Enabled(p, s) && (s.WorkerAbandon? || s.WorkerWrite?) && i < RING_N
    requires FlowInv(Next(p, s, env)) && p.ring.slots[i].frame != 0
    ensures NothingLost(Next(p, s, env), p.ring.slots[i], Next(p, s, env).ring.slots[i])
  {
    var p', job := Next(p, s, env), p.workers[s.i].job;
    Steps.WorkerHolds(p, s.i);
    HeldSlot(p, job.frame);
    assert job.rgb.Some?;
    hide RingInv, FlowInv, Steady, NothingLost, Abandon, WriteBack;
    if s.WorkerAbandon? {
      AbandonSteady(p.ring, job, env);
      SteadyKeeps(p, p', i, 0, None, None);
    } else {
      WriteBackSteady(p.ring, job, env);
      SteadyKeeps(p, p', i, SlotIndex(job.frame), job.rgb, None);
    }
  }

  lemma CommitKeeps(p: Pipe, ok: bool, env: nat -> bool, i: nat)
    requires RingInv(p) && Enabled(p, ComposerCommit(ok)) && i < RING_N
    requires FlowInv(Rendered(p, ok, env)) && p.ring.slots[i].frame != 0
    ensures NothingLost(Rendered(p, ok, env), p.ring.slots[i], Rendered(p, ok, env).ring.slots[i])
  {
    var p', c := Rendered(p, ok, env), p.composer;
    var k := SlotIndex(c.frame);
    var s := p.ring.slots[k];
    assert SlotOk(p.ring.ctl, ClaimedUpTo(p), Holders(p, s.frame), k, s);
    assert s.frame == c.frame ==> s.nv12.None? && s.jpeg.None?;
    CommitSteady(p.ring, c, ok, env);
    hide RingInv, FlowInv, Steady, NothingLost, RenderCommit, SlotOk;
    SteadyKeeps(p, p', i, k, None, if s.frame == c.frame then c.nv12 else None);
  }

  lemma SwitchKeeps(p: Pipe, p': Pipe, c: Control, env: nat -> bool, i: nat)
    requires |p.ring.slots| == RING_N && c == p.ring.ctl.(aiActive := c.aiActive, recActive := c.recActive)
    requires p'.ring == (if c == p.ring.ctl then p.ring else Maintain(p.ring.(ctl := c), env))
    requires FlowInv(p') && i < RING_N && p.ring.slots[i].frame != 0
    ensures NothingLost(p', p.ring.slots[i], p'.ring.slots[i])
  {
    hide FlowInv, Steady, NothingLost, Maintain;
    if c == p.ring.ctl {
      UnchangedKeeps(p, p', i);
    } else {
      ModeSteady(p.ring, c, env);
      SteadyKeeps(p, p', i, 0, None, None);
    }
  }

  lemma DrainKeeps(p: Pipe, env: nat -> bool, i: nat)
    requires Shaped(p) && i < RING_N && FlowInv(DrainNext(p, env)) && p.ring.slots[i].frame != 0
    ensures NothingLost(DrainNext(p, env), p.ring.slots[i], DrainNext(p, env).ring.slots[i])
  {
    var p' := DrainNext(p, env);
    hide FlowInv, Steady, NothingLost, Abandon;
    if p.pool.Draining? && p.pool.next < |p.queue.jobs| && p.queue.jobs[p.pool.next].rgb.Some? {
      AbandonSteady(p.ring, p.queue.jobs[p.pool.next], env);
      SteadyKeeps(p, p', i, 0, None, None);
    } else {
      UnchangedKeeps(p, p', i);
    }
  }

  /** A slot the recorder passed: its picture went to the recorder, or nobody needs it. */
  lemma ConsumedKeeps(p': Pipe, c: Control, s: Slot, s': Slot, steal: bool)
    requires s' == Cleaned(p'.ring.ctl, Taken(s, p'.recSeq, steal)) && s.frame != 0
    requires MarkOk(s', p'.recSeq) && DoneOk(s', p'.ring.ctl.quiescing, ClaimedUpTo(p'))
    requires steal && s.nv12.Some? ==> p'.recorder == Encoding(s.nv12.value)
    ensures NothingLost(p', s, s')
  {
  }

  lemma RecorderKeeps(p: Pipe, sameSize: bool, env: nat -> bool, i: nat)
    requires RingInv(p) && i < RING_N && FlowInv(RecorderTook(p, sameSize, env)) && p.ring.slots[i].frame != 0
    ensures NothingLost(RecorderTook(p, sameSize, env), p.ring.slots[i], RecorderTook(p, sameSize, env).ring.slots[i])
  {
    var p', pick := RecorderTook(p, sameSize, env), EncodePick(p.ring, p.recSeq);
    if pick.Some? {
      TookRing(p, sameSize, env);
      assert MarkOk(p'.ring.slots[i], p'.recSeq)
          && DoneOk(p'.ring.slots[i], p'.ring.ctl.quiescing, ClaimedUpTo(p'));
      hide RingInv, FlowInv, Cleaned, Taken, MarkOk, DoneOk, NothingLost, ClaimedUpTo;
      ConsumedKeeps(p', p'.ring.ctl, p.ring.slots[i], p'.ring.slots[i], sameSize && i == pick.value);
    } else {
      UnchangedKeeps(p, p', i);
    }
  }

  lemma PublishedKeeps(p: Pipe, p': Pipe, s: Slot, env: nat -> bool, i: nat)
    requires RingInv(p) && FlowInv(p') && i < RING_N && s.frame == p.ring.ctl.produceSeq + 1
    requires p'.ring == Maintain(Published(p.ring, s), env)
    requires p'.ring.slots[i].frame == p.ring.slots[i].frame != 0
    ensures NothingLost(p', p.ring.slots[i], p'.ring.slots[i])
  {
    var slot, slot' := p.ring.slots[i], p'.ring.slots[i];
    assert SlotOk(p.ring.ctl, ClaimedUpTo(p), Holders(p, slot.frame), i, slot);
    assert slot' == Cleaned(p'.ring.ctl, slot);
    assert MarkOk(slot', p'.recSeq) && DoneOk(slot', p'.ring.ctl.quiescing, ClaimedUpTo(p'));
    hide *;
    NothingNew(slot);
    CleanedGivesUp(p'.ring.ctl, slot, slot, None, None);
    SlotKeeps(p', slot, slot', None, None);
  }

  lemma CaptureKeeps(p: Pipe, p': Pipe, w: int, h: int, fmt: int, raw: Raw, env: nat -> bool, i: nat)
    requires RingInv(p) && FlowInv(p') && i < RING_N && p'.ring == Capture(p.ring, w, h, fmt, raw, env).0
    requires p'.ring.slots[i].frame == p.ring.slots[i].frame != 0
    ensures NothingLost(p', p.ring.slots[i], p'.ring.slots[i])
  {
    CaptureAtRest(p.ring, w, h, fmt, raw, env);
    hide RingInv, FlowInv, Capture, NothingLost, Maintain, Published;
    if Reusable(p.ring.slots[SlotIndex(p.ring.ctl.produceSeq + 1)]) {
      PublishedKeeps(p, p', FrameSlot(p.ring.ctl.produceSeq + 1, w, h, fmt, raw), env, i);
    } else {
      UnchangedKeeps(p, p', i);
    }
  }

  lemma NothingNew(s: Slot)
    ensures Before(s, s, None, None)
  {
  }

  /**
   * Nothing is given back early: in every run, a slot that keeps its frame gives up its raw data only
   * when it is not the newest, no thread holds it, and the feeder or else the recording has come to it;
   * its RGB picture only when the display has; its NV12 picture only to the recorder, or off display
   * when no recording needs it any more; its JPEG picture only when off display.
   */
  lemma KeptWhileNeeded(ps: seq<Pipe>, ss: seq<Step>, env: nat -> bool, n: nat, i: nat)
    requires Run(ps, ss, env) && n < |ss| && i < RING_N
    ensures |ps[n].ring.slots| == |ps[n + 1].ring.slots| == RING_N
    ensures var s, s' := ps[n].ring.slots[i], ps[n + 1].ring.slots[i];
            s'.frame == s.frame != 0 ==> NothingLost(ps[n + 1], s, s')
  {
    RunFlow(ps, ss, env, n);
    RunFlow(ps, ss, env, n + 1);
    assert Shaped(ps[n]) && Enabled(ps[n], ss[n]) && ps[n + 1] == Next(ps[n], ss[n], env);
    assert |ps[n].ring.slots| == |ps[n + 1].ring.slots| == RING_N;
    hide Run, RingInv, FlowInv, NothingLost, Enabled, Shaped;
    if ps[n + 1].ring.slots[i].frame == ps[n].ring.slots[i].frame != 0 {
      StepKeeps(ps[n], ss[n], env, i);
    }
  }

  lemma StepKeeps(p: Pipe, s: Step, env: nat -> bool, i: nat)
    requires RingInv(p) && Shaped(p) && Enabled(p, s) && FlowInv(Next(p, s, env)) && i < RING_N
    requires Next(p, s, env).ring.slots[i].frame == p.ring.slots[i].frame != 0
    ensures NothingLost(Next(p, s, env), p.ring.slots[i], Next(p, s, env).ring.slots[i])
  {
    hide RingInv, FlowInv, NothingLost;
    match s
    case FeederClaim(mallocOk) => ClaimKeeps(p, mallocOk, i);
    case FeederDecoded(_) => FeederKeeps(p, s, env, i);
    case FeederHand => FeederKeeps(p, s, env, i);
    case WorkerAbandon(_) => WorkerKeeps(p, s, env, i);
    case WorkerWrite(_) => WorkerKeeps(p, s, env, i);
    case ComposerCommit(ok) => CommitKeeps(p, ok, env, i);
    case RecorderTake(sameSize) => RecorderKeeps(p, sameSize, env, i);
    case SetAi(on) => SwitchKeeps(p, Next(p, s, env), p.ring.ctl.(aiActive := on), env, i);
    case SetRec(on) => SwitchKeeps(p, Next(p, s, env), p.ring.ctl.(recActive := on), env, i);
    case StopDrain => DrainKeeps(p, env, i);
    case CaptureFrame(w, h, fmt) => CaptureKeeps(p, Next(p, s, env), w, h, fmt, Mmap(p.hand.vbuf), env, i);
    case CameraClear =>
    case _ => AsideKeeps(p, s, env, i);
  }

  /** What stands in the way of a capture, told from the threads' cursors. */
  ghost predicate WaitedFor(p: Pipe, s: Slot) {
    var c := p.ring.ctl;
    || Holders(p, s.frame) > 0
    || (s.raw.Some? && c.aiActive && s.frame > ClaimedUpTo(p))
    || (s.raw.Some? && !c.aiActive && c.recActive && s.frame > p.recSeq)
    || (s.rgb.Some? && s.frame > c.displaySeq)
    || (s.frame == c.displaySeq && (s.nv12.Some? || s.jpeg.Some?))
    || (s.nv12.Some? && c.recActive && s.frame > p.recSeq)
  }

  /**
   * A streaming camera's frame is dropped exactly when the frame 32 before it is still waited for: by
   * a thread that holds it, by the feeder or recorder that has not come to it, by the composer, as
   * the frame on display, or as a picture the recorder has not come to.
   */
  lemma DroppedIff(ps: seq<Pipe>, ss: seq<Step>, env: nat -> bool, n: nat, w: int, h: int, fmt: int, raw: Raw)
    requires Run(ps, ss, env) && n < |ps| && ps[n].phase.Streaming?
    ensures |ps[n].ring.slots| == RING_N
    ensures var p := ps[n]; var s := p.ring.slots[SlotIndex(p.ring.ctl.produceSeq + 1)];
            !Capture(p.ring, w, h, fmt, raw, env).1
            <==> s.frame != 0 && s.frame + 32 == p.ring.ctl.produceSeq + 1 && WaitedFor(p, s)
  {
    RunFlow(ps, ss, env, n);
    var p := ps[n];
    var i := SlotIndex(p.ring.ctl.produceSeq + 1);
    var s := p.ring.slots[i];
    assert SlotOk(p.ring.ctl, ClaimedUpTo(p), Holders(p, s.frame), i, s);
    assert MarkOk(s, p.recSeq) && DoneOk(s, p.ring.ctl.quiescing, ClaimedUpTo(p)) && BanOk(p);
    Theorems.CaptureRefusedIff(p, w, h, fmt, raw, env);
    hide Run, RingInv, HandsFit, SlotsFlow, Holders, ClaimedUpTo, Capture;
  }

  // ---------------------------------------------------------------- sizes

  /**
   * Every picture fits its buffer: a slot's RGB and NV12 pictures have room for the frame's size,
   * and so have the buffers of the threads that are about to write them.
   */
  lemma PicturesFit(ps: seq<Pipe>, ss: seq<Step>, env: nat -> bool, n: nat, i: nat)
    requires Run(ps, ss, env) && n < |ps| && i < RING_N
    ensures |ps[n].ring.slots| == RING_N
    ensures var s := ps[n].ring.slots[i];
            s.w > 0 && s.h > 0 ==>
              && (s.rgb.Some? ==> s.rgb.value.cap >= s.w * s.h * 3)
              && (s.nv12.Some? ==> s.nv12.value.cap >= s.w * s.h * 3 / 2)
    ensures var p, s := ps[n], ps[n].ring.slots[i];
            s.frame != 0 && s.w > 0 && s.h > 0 ==>
              && (p.feeder.Decoding? && p.feeder.frame == s.frame && p.feeder.rgb.Some? ==>
                    p.feeder.rgb.value.cap >= s.w * s.h * 3 && p.feeder.w == s.w && p.feeder.h == s.h)
              && (p.composer.Rendering? && p.composer.frame == s.frame && p.composer.nv12.Some? ==>
                    p.composer.nv12.value.cap >= s.w * s.h * 3 / 2 && p.composer.w == s.w && p.composer.h == s.h)
    ensures var p, s := ps[n], ps[n].ring.slots[i];
            forall k :: 0 <= k < |p.workers| && p.workers[k].Inferring? ==>
              var job := p.workers[k].job;
              s.frame != 0 && job.frame == s.frame && job.rgb.Some? && s.w > 0 && s.h > 0 ==>
                job.rgb.value.cap >= s.w * s.h * 3 && job.w == s.w && job.h == s.h
  {
    RunFlow(ps, ss, env, n);
    var p, s := ps[n], ps[n].ring.slots[i];
    assert SlotOk(p.ring.ctl, ClaimedUpTo(p), Holders(p, s.frame), i, s) && SlotFits(s);
    hide Run, RingInv, SlotsFlow, MarkOk, DoneOk, Holders, ClaimedUpTo;
    assert s.frame != 0 ==> SlotIndex(s.frame) == i;
    forall k | 0 <= k < |p.workers| && p.workers[k].Inferring?
      ensures var job := p.workers[k].job;
              s.frame != 0 && job.frame == s.frame && job.rgb.Some? && s.w > 0 && s.h > 0 ==>
                job.rgb.value.cap >= s.w * s.h * 3 && job.w == s.w && job.h == s.h
    {
      assert WorkerFits(p.ring, p.workers[k]);
    }
  }

  /** The composer's buffers: room for the picture, and a JPEG buffer of 64 KiB exactly if somebody watches. */
  lemma OutputsTaken(st: Store, w: int, h: int, wantJpeg: bool)
    requires w > 0 && h > 0
    ensures var (_, nv12, jpeg) := TakeBoth(st, FrameBytes(w, h) * 3 / 2, true, wantJpeg, true);
            && nv12.Some? && nv12.value.cap >= w * h * 3 / 2
            && (jpeg.Some? <==> wantJpeg) && (jpeg.Some? ==> jpeg.value.cap >= 65536)
  {
    TakeShelved(st, Nv12, FrameBytes(w, h) * 3 / 2, true, Nv12, Buf(0, 0));
    var st1 := Take(st, Nv12, FrameBytes(w, h) * 3 / 2, true).0;
    TakeShelved(st1, Jpeg, JPEG_CAP, true, Jpeg, Buf(0, 0));
    hide Take;
  }

  // ---------------------------------------------------------------- what one step brings about

  /** A worker's picture arrives in the slot of its frame, whose claim ends; no other slot changes. */
  lemma PictureWritten(p: Pipe, i: nat, env: nat -> bool)
    requires RingInv(p) && i < |p.workers| && p.workers[i].Inferring?
    ensures var p', job := Next(p, WorkerWrite(i), env), p.workers[i].job; var k := SlotIndex(job.frame);
            && |p'.ring.slots| == RING_N && p'.workers[i] == Reporting(job.frame)
            && p'.ring.slots[k].frame == job.frame && p'.ring.slots[k].claims == 0 && p'.ring.slots[k].inferDone
            && p'.ring.slots[k].rgb == (if job.frame <= p.ring.ctl.displaySeq then None else job.rgb)
            && forall j :: 0 <= j < RING_N && j != k ==> p'.ring.slots[j] == p.ring.slots[j]
  {
    var p', job := Next(p, WorkerWrite(i), env), p.workers[i].job;
    Steps.WorkerHolds(p, i);
    HeldSlot(p, job.frame);
    assert job.rgb.Some?;
    Steps.WriteBackReplaces(p, p', job, env);
    forall j | 0 <= j < RING_N && j != SlotIndex(job.frame) ensures p'.ring.slots[j] == p.ring.slots[j] {
      assert Cleaned(p.ring.ctl, p.ring.slots[j]) == p.ring.slots[j];
    }
    hide RingInv, WriteBack;
  }

  /**
   * When the composer commits while its frame is still in the ring, that frame becomes the one on
   * display; with a successful drawing its slot holds exactly the two outputs, else none, and the
   * picture drawn into is given back.
   */
  lemma FrameShown(p: Pipe, ok: bool, env: nat -> bool)
    requires RingInv(p) && p.composer.Rendering? && p.composer.epoch == p.clears
    ensures var p', c := Rendered(p, ok, env), p.composer; var k := SlotIndex(c.frame);
            && |p'.ring.slots| == RING_N && p'.composer.Resting?
            && p'.ring.ctl.displaySeq == c.frame > p.ring.ctl.displaySeq && p'.shown == p.shown + [c.frame]
            && p'.ring.slots[k].frame == c.frame && p'.ring.slots[k].displayDone && p'.ring.slots[k].rgb.None?
            && p'.ring.slots[k].nv12 == (if ok then c.nv12 else None)
            && p'.ring.slots[k].jpeg == (if ok then c.jpeg else None)
  {
    var c := p.composer;
    var k := SlotIndex(c.frame);
    var s := p.ring.slots[k];
    assert SlotOk(p.ring.ctl, ClaimedUpTo(p), Holders(p, s.frame), k, s);
    assert Renderable(s, c.frame) && c.frame > p.ring.ctl.displaySeq;
    hide RingInv, SlotOk, Put;
    assert s.nv12.None? && s.jpeg.None? by { NoOutputYet(p.ring.ctl, ClaimedUpTo(p), Holders(p, s.frame), k, s); }
    Render.RenderCommitShape(p.ring, c, ok, env);
    hide Holders, ClaimedUpTo, RenderCommit;
  }

  lemma NoOutputYet(c: Control, upTo: nat, held: nat, i: nat, s: Slot)
    requires SlotOk(c, upTo, held, i, s) && s.frame > c.displaySeq
    ensures s.nv12.None? && s.jpeg.None?
  {
  }

  /** Slot i holds a picture that the recorder has not come to. */
  predicate Recordable(p: Pipe, i: nat)
    requires i < |p.ring.slots|
  {
    p.ring.slots[i].frame > p.recSeq && p.ring.slots[i].nv12.Some?
  }

  /** The newest picture the recorder has not come to. */
  ghost predicate NewestRecordable(p: Pipe, i: nat) {
    && i < |p.ring.slots| && Recordable(p, i)
    && forall j :: 0 <= j < |p.ring.slots| && Recordable(p, j) ==> p.ring.slots[j].frame <= p.ring.slots[i].frame
  }

  /** That slot is the one the recorder picks; without one it picks nothing. */
  lemma PickIsNewest(p: Pipe)
    requires RingInv(p)
    ensures forall i: nat :: NewestRecordable(p, i) <==> EncodePick(p.ring, p.recSeq) == Some(i)
  {
    var pick := EncodePick(p.ring, p.recSeq);
    forall i: nat | i < RING_N && p.ring.slots[i].frame != 0
      ensures SlotIndex(p.ring.slots[i].frame) == i
      ensures Recordable(p, i) ==> EncodeCandidate(p.ring.slots[i], p.recSeq)
    {
      assert SlotOk(p.ring.ctl, ClaimedUpTo(p), Holders(p, p.ring.slots[i].frame), i, p.ring.slots[i]);
    }
    hide RingInv;
  }

  /**
   * The recorder's turn takes the newest picture it has not come to out of its slot, or counts it as
   * skipped when the size changed; without such a picture it does nothing.
   */
  lemma RecorderTakesNewest(p: Pipe, sameSize: bool, env: nat -> bool)
    requires RingInv(p)
    ensures (exists i: nat :: NewestRecordable(p, i)) || RecorderTook(p, sameSize, env) == p
    ensures forall i: nat :: NewestRecordable(p, i) ==>
              var p', s := RecorderTook(p, sameSize, env), p.ring.slots[i];
              && p'.recSeq == s.frame && |p'.ring.slots| == RING_N
              && (sameSize ==> p'.recorder == Encoding(s.nv12.value) && p'.stolen == p.stolen + [s.frame]
                               && p'.ring.slots[i].nv12.None?
                               && p'.ring.ctl.encodeSkipped == p.ring.ctl.encodeSkipped)
              && (!sameSize ==> p'.recorder == p.recorder && p'.stolen == p.stolen
                                && p'.ring.ctl.encodeSkipped == p.ring.ctl.encodeSkipped + 1)
  {
    PickIsNewest(p);
    var pick := EncodePick(p.ring, p.recSeq);
    hide RingInv, Maintain, NewestRecordable;
    if pick.Some? {
      assert NewestRecordable(p, pick.value);
      TookRing(p, sameSize, env);
    }
  }

  // ---------------------------------------------------------------- the job queue

  /** The queued jobs, oldest first. */
  function Queued(q: JobQueue): seq<Job>
    requires |q.jobs| == QUEUE_CAP && q.head < QUEUE_CAP && q.count <= QUEUE_CAP
  {
    Window(q.jobs, q.head, q.count)
  }

  /** Workers get the jobs in the order the feeder handed them over. */
  lemma QueueIsFifo(q: JobQueue, job: Job)
    requires QueueOk(q)
    ensures q.count < QUEUE_CAP ==> Queued(Enqueue(q, job)) == Queued(q) + [job]
    ensures q.count > 0 ==> Queued(q) == [Pop(q).1] + Queued(Pop(q).0)
  {
    WrapIsMod(q.head + q.count, QUEUE_CAP);
    if q.count < QUEUE_CAP { WindowPush(q.jobs, q.head, q.count, job); }
    if q.count > 0 {
      WrapIsMod(q.head + 1, QUEUE_CAP);
      WindowPop(q.jobs, q.head, q.count);
      var rest := Pop(q).0;
      forall k | 0 <= k < q.count - 1
        ensures Queued(rest)[k] == Window(q.jobs, Wrap(q.head + 1, QUEUE_CAP), q.count - 1)[k] {}
    }
  }

  /** The composer's pops, n of them in a row. */
  function PoppedTimes(p: Pipe, n: nat): Pipe {
    if n == 0 then p else ComposerPopped(PoppedTimes(p, n - 1))
  }

  /** An idle composer that drains the queued results ends up with the newest of them. */
  lemma {:induction false} NewestIsChosen(p: Pipe, n: nat)
    requires p.composer.Resting? && p.results != [] && n <= |p.results|
    ensures var p' := PoppedTimes(p, n);
            && p'.results == p.results[n..]
            && (n > 0 ==> p'.composer == Chosen(p.results[n - 1], false))
            && (n == |p.results| ==> ComposerPopped(p').composer == Chosen(p.results[n - 1], true))
  {
    if n > 0 {
      NewestIsChosen(p, n - 1);
    }
  }

  // ---------------------------------------------------------------- counters

  /** Steps of the first n that offered a frame, and how many frames the driver reported missing. */
  function Offered(ss: seq<Step>, n: nat): nat
    requires n <= |ss|
  {
    if n == 0 then 0 else Offered(ss, n - 1) + if ss[n - 1].CaptureFrame? then 1 else 0
  }

  function Missing(ss: seq<Step>, n: nat): nat
    requires n <= |ss|
  {
    if n == 0 then 0 else Missing(ss, n - 1) + if ss[n - 1].DriverGap? then ss[n - 1].n else 0
  }

  function Undecodable(ss: seq<Step>, n: nat): nat
    requires n <= |ss|
  {
    if n == 0 then 0 else Undecodable(ss, n - 1) + if ss[n - 1] == FeederDecoded(false) then 1 else 0
  }

  /** How the counters move in one step. */
  ghost predicate Counted(c: Control, c': Control, offered: nat, missing: nat, undecodable: nat) {
    && c'.produceSeq + c'.captureDropped == c.produceSeq + c.captureDropped + offered
    && c'.driverDropped == c.driverDropped + missing && c'.inferDropped == c.inferDropped + undecodable
  }

  lemma JobCounts(r: Ring, job: Job, env: nat -> bool)
    requires |r.slots| == RING_N
    ensures Abandon(r, job, env).ctl == r.ctl && WriteBack(r, job, env).ctl == r.ctl
  {
    hide MaintainUpTo, Put;
  }

  lemma PoolCounts(p: Pipe, s: Step, env: nat -> bool)
    requires Shaped(p) && Enabled(p, s)
    requires s.FeederClaim? || s.FeederDecoded? || s.FeederHand? || s.WorkerPop? || s.WorkerExit? || s.WorkerAbandon?
             || s.WorkerWrite? || s.WorkerReport? || s.StopDrain?
    ensures Counted(p.ring.ctl, Next(p, s, env).ring.ctl, 0, 0, if s == FeederDecoded(false) then 1 else 0)
  {
    hide Abandon, WriteBack, MaintainUpTo, Put, Take;
    match s
    case FeederHand => JobCounts(p.ring, p.feeder.job, env);
    case WorkerAbandon(i) => JobCounts(p.ring, p.workers[i].job, env);
    case WorkerWrite(i) => JobCounts(p.ring, p.workers[i].job, env);
    case StopDrain =>
      if p.pool.Draining? && p.pool.next < |p.queue.jobs| { JobCounts(p.ring, p.queue.jobs[p.pool.next], env); }
    case _ =>
  }

  lemma RecorderCounts(p: Pipe, sameSize: bool, env: nat -> bool)
    ensures Counted(p.ring.ctl, RecorderTook(p, sameSize, env).ring.ctl, 0, 0, 0)
  {
    hide Maintain;
    if EncodePick(p.ring, p.recSeq).Some? { TookRing(p, sameSize, env); }
  }

  lemma OutputCounts(p: Pipe, s: Step, env: nat -> bool)
    requires Shaped(p) && Enabled(p, s)
    requires s.ComposerPop? || s.ComposerTake? || s.ComposerRealloc? || s.ComposerCommit? || s.RecorderReturn?
             || s.SetAi? || s.SetRec? || s.StopPool?
    ensures Counted(p.ring.ctl, Next(p, s, env).ring.ctl, 0, 0, 0)
  {
    hide MaintainUpTo, Put, PutBoth, TakeBoth;
  }

  lemma CameraCounts(p: Pipe, s: Step, env: nat -> bool)
    requires Shaped(p) && Enabled(p, s)
    requires s.Dequeue? || s.DriverGap? || s.ReturnBuffer? || s.CameraStop? || s.CameraClear? || s.StreamOff? || s.StreamOn?
    ensures Counted(p.ring.ctl, Next(p, s, env).ring.ctl, 0, if s.DriverGap? then s.n else 0, 0)
  {
  }

  lemma CaptureCounts(p: Pipe, s: Step, env: nat -> bool)
    requires RingInv(p) && Enabled(p, s) && s.CaptureFrame?
    ensures Counted(p.ring.ctl, Next(p, s, env).ring.ctl, 1, 0, 0)
  {
    CaptureAtRest(p.ring, s.w, s.h, s.fmt, Mmap(p.hand.vbuf), env);
    hide RingInv, Capture, MaintainUpTo;
  }

  lemma CounterStep(p: Pipe, s: Step, env: nat -> bool)
    requires RingInv(p) && Enabled(p, s)
    ensures Counted(p.ring.ctl, Next(p, s, env).ring.ctl, if s.CaptureFrame? then 1 else 0,
                    if s.DriverGap? then s.n else 0, if s == FeederDecoded(false) then 1 else 0)
  {
    assert Shaped(p);
    hide RingInv, Counted, Enabled;
    if s.CaptureFrame? {
      CaptureCounts(p, s, env);
    } else if s.RecorderTake? {
      RecorderCounts(p, s.sameSize, env);
    } else {
      hide Next;
      if s.Dequeue? || s.DriverGap? || s.ReturnBuffer? || s.CameraStop? || s.CameraClear? || s.StreamOff? || s.StreamOn? {
        CameraCounts(p, s, env);
      } else if s.ComposerPop? || s.ComposerTake? || s.ComposerRealloc? || s.ComposerCommit? || s.RecorderReturn?
                || s.SetAi? || s.SetRec? || s.StopPool? {
        OutputCounts(p, s, env);
      } else {
        PoolCounts(p, s, env);
      }
    }
  }

  /**
   * The counters account for every frame: each one offered was published or counted as dropped, and
   * each driver gap and undecodable frame was counted.
   */
  lemma {:induction false} EveryFrameCounted(ps: seq<Pipe>, ss: seq<Step>, env: nat -> bool, n: nat)
    requires Run(ps, ss, env) && n < |ps|
    ensures var c := ps[n].ring.ctl;
            && c.produceSeq + c.captureDropped == Offered(ss, n)
            && c.driverDropped == Missing(ss, n) && c.inferDropped == Undecodable(ss, n)
  {
    hide Next, Enabled;
    if n > 0 {
      EveryFrameCounted(ps, ss, env, n - 1);
      RunInv(ps, ss, env, n - 1);
      hide RingInv, Init;
      CounterStep(ps[n - 1], ss[n - 1], env);
    }
  }
}
