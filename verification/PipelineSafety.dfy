/** The pipeline's safety theorems, over single steps and over whole runs. */
module PipelineSafety {
  import opened Common
  import opened FrameRingModel
  import opened FrameRingOps
  import opened Pipeline
  import opened PipelineInvariant
  import opened PipelineBooks
  import Steps = PipelineSteps
  import Render = PipelineRender

  ghost predicate PipeInv(p: Pipe) {
    RingInv(p) && BooksOk(p) && DriverOk(p)
  }

  // ---------------------------------------------------------------- the ring invariant, step by step

  lemma CameraKept(p: Pipe, s: Step, env: nat -> bool)
    requires RingInv(p) && Enabled(p, s)
    requires s.Dequeue? || s.DriverGap? || s.ReturnBuffer? || s.CameraStop? || s.StreamOff? || s.StreamOn?
    ensures RingInv(Next(p, s, env))
  {
    var p' := Next(p, s, env);
    assert p'.ring.slots == p.ring.slots && p'.feeder == p.feeder && p'.queue == p.queue && p'.workers == p.workers;
    SlotsKept(p, p');
  }

  lemma QuietKept(p: Pipe, s: Step, env: nat -> bool)
    requires RingInv(p) && Enabled(p, s) && (s.ComposerPop? || s.RecorderReturn? || s.StopPool?)
    ensures RingInv(Next(p, s, env))
  {
    var p' := Next(p, s, env);
    assert p'.ring.slots == p.ring.slots && p'.feeder == p.feeder && p'.queue == p.queue && p'.workers == p.workers;
    SlotsKept(p, p');
  }

  lemma FeederKept(p: Pipe, s: Step, env: nat -> bool)
    requires RingInv(p) && Enabled(p, s) && (s.FeederClaim? || s.FeederDecoded? || s.FeederHand?)
    ensures RingInv(Next(p, s, env))
  {
    match s
    case FeederClaim(mallocOk) =>
      if NextClaim(p.ring, p.lastSeq) > p.ring.ctl.produceSeq {
        Steps.FeederIdleKept(p, mallocOk);
      } else {
        Steps.FeederClaimKept(p, mallocOk);
      }
    case FeederDecoded(ok) =>
      if ok { Steps.FeederDecodedKept(p, env); } else { Steps.FeederFailedKept(p, env); }
    case FeederHand =>
      if p.pool.Running? { Steps.FeederQueuedKept(p, env); } else { Steps.FeederRejectedKept(p, env); }
  }

  lemma WorkerKept(p: Pipe, s: Step, env: nat -> bool)
    requires RingInv(p) && Enabled(p, s)
    requires s.WorkerPop? || s.WorkerExit? || s.WorkerAbandon? || s.WorkerWrite? || s.WorkerReport?
    ensures RingInv(Next(p, s, env))
  {
    match s
    case WorkerPop(i) => Steps.WorkerPopKept(p, i, env);
    case WorkerExit(i) => Steps.WorkerMovesKept(p, i, s, env);
    case WorkerAbandon(i) => Steps.WorkerAbandonKept(p, i, env);
    case WorkerWrite(i) => Steps.WorkerWriteKept(p, i, env);
    case WorkerReport(i) => Steps.WorkerMovesKept(p, i, s, env);
  }

  lemma OutputKept(p: Pipe, s: Step, env: nat -> bool)
    requires RingInv(p) && Enabled(p, s)
    requires s.ComposerTake? || s.ComposerRealloc? || s.ComposerCommit? || s.RecorderTake? || s.StopDrain?
    ensures RingInv(Next(p, s, env))
  {
    match s
    case ComposerTake(nvOk, wantJpeg, jpOk) => Render.PickedKept(p, nvOk, wantJpeg, jpOk);
    case ComposerRealloc(cap) => Render.RegrownKept(p, cap);
    case ComposerCommit(ok) => Render.RenderedKept(p, ok, env);
    case RecorderTake(sameSize) => Render.RecorderKept(p, sameSize, env);
    case StopDrain => Steps.DrainKept(p, env);
  }

  lemma ModeStepKept(p: Pipe, s: Step, env: nat -> bool)
    requires RingInv(p) && Enabled(p, s) && (s.SetAi? || s.SetRec?)
    ensures RingInv(Next(p, s, env))
  {
    assert Shaped(p);
    hide RingInv, Maintain;
    if s.SetAi? && p.ring.ctl.aiActive != s.on {
      Render.ModeKept(p, Next(p, s, env), p.ring.ctl.(aiActive := s.on), env);
    } else if s.SetRec? && p.ring.ctl.recActive != s.on {
      Render.ModeKept(p, Next(p, s, env), p.ring.ctl.(recActive := s.on), env);
    } else {
      assert Next(p, s, env) == p;
    }
  }

  /** Every critical section keeps the ring invariant; in particular the ring stays at rest. */
  lemma RingInvStep(p: Pipe, s: Step, env: nat -> bool)
    requires RingInv(p) && Enabled(p, s)
    ensures RingInv(Next(p, s, env))
  {
    if s.FeederClaim? || s.FeederDecoded? || s.FeederHand? {
      FeederKept(p, s, env);
    } else if s.WorkerPop? || s.WorkerExit? || s.WorkerAbandon? || s.WorkerWrite? || s.WorkerReport? {
      WorkerKept(p, s, env);
    } else if s.ComposerTake? || s.ComposerRealloc? || s.ComposerCommit? || s.RecorderTake? || s.StopDrain? {
      OutputKept(p, s, env);
    } else if s.SetAi? || s.SetRec? {
      ModeStepKept(p, s, env);
    } else if s.ComposerPop? || s.RecorderReturn? || s.StopPool? {
      QuietKept(p, s, env);
    } else if s.CaptureFrame? {
      Steps.CaptureKept(p, Next(p, s, env), s.w, s.h, s.fmt, Mmap(p.hand.vbuf), env);
    } else if s.CameraClear? {
      Render.ClearKept(p, Next(p, s, env), env);
    } else {
      CameraKept(p, s, env);
    }
  }

  // ---------------------------------------------------------------- ownership, step by step

  predicate CameraStep(s: Step) {
    || s.Dequeue? || s.DriverGap? || s.ReturnBuffer? || s.CaptureFrame?
    || s.CameraStop? || s.CameraClear? || s.StreamOff? || s.StreamOn?
  }

  lemma FeederConserves(p: Pipe, s: Step, env: nat -> bool, k: Kind, b: Buf, v: nat)
    requires RingInv(p) && Enabled(p, s) && (s.FeederClaim? || s.FeederDecoded? || s.FeederHand?)
    ensures Conserves(p, Next(p, s, env), k, b, v)
  {
    match s
    case FeederClaim(mallocOk) => ClaimedConserves(p, mallocOk, k, b, v);
    case FeederDecoded(ok) => DecodedConserves(p, ok, env, k, b, v);
    case FeederHand => HandedConserves(p, env, k, b, v);
  }

  lemma WorkerConserves(p: Pipe, s: Step, env: nat -> bool, k: Kind, b: Buf, v: nat)
    requires RingInv(p) && Enabled(p, s)
    requires s.WorkerPop? || s.WorkerExit? || s.WorkerAbandon? || s.WorkerWrite? || s.WorkerReport?
    ensures Conserves(p, Next(p, s, env), k, b, v)
  {
    match s
    case WorkerPop(i) => PoppedConserves(p, i, k, b, v);
    case WorkerExit(i) =>
      assert p.(results := p.results) == p;
      WorkerMoveConserves(p, i, Exited, p.results, k, b, v);
    case WorkerAbandon(i) => WorkerAbandonConserves(p, i, env, k, b, v);
    case WorkerWrite(i) => WorkerWriteConserves(p, i, env, k, b, v);
    case WorkerReport(i) => WorkerMoveConserves(p, i, Idle, Next(p, s, env).results, k, b, v);
  }

  lemma RenderConserves(p: Pipe, s: Step, env: nat -> bool, k: Kind, b: Buf, v: nat)
    requires RingInv(p) && Enabled(p, s)
    requires s.ComposerPop? || s.ComposerTake? || s.ComposerRealloc? || s.ComposerCommit?
    ensures Conserves(p, Next(p, s, env), k, b, v)
  {
    hide Account, RawAccount, Allocated;
    match s
    case ComposerPop =>
    case ComposerTake(nvOk, wantJpeg, jpOk) => PickedConserves(p, nvOk, wantJpeg, jpOk, k, b, v);
    case ComposerRealloc(cap) => RegrownConserves(p, cap, k, b, v);
    case ComposerCommit(ok) => RenderedConserves(p, ok, env, k, b, v);
  }

  lemma ModeConserves(p: Pipe, p': Pipe, c: Control, env: nat -> bool, k: Kind, b: Buf, v: nat)
    requires p' == p.(ring := Maintain(p.ring.(ctl := c), env))
    ensures Conserves(p, p', k, b, v)
  {
    ControlStepBooks(p.ring, c, env, k, b, Mmap(v));
  }

  lemma OtherConserves(p: Pipe, s: Step, env: nat -> bool, k: Kind, b: Buf, v: nat)
    requires RingInv(p) && Enabled(p, s)
    requires s.RecorderTake? || s.RecorderReturn? || s.StopPool? || s.StopDrain?
    ensures Conserves(p, Next(p, s, env), k, b, v)
  {
    match s
    case RecorderTake(sameSize) => RecorderConserves(p, sameSize, env, k, b, v);
    case RecorderReturn => ReturnedConserves(p, env, k, b, v);
    case StopPool =>
    case StopDrain => DrainConserves(p, env, k, b, v);
  }

  lemma StepConserves(p: Pipe, s: Step, env: nat -> bool, k: Kind, b: Buf, v: nat)
    requires RingInv(p) && Enabled(p, s) && !CameraStep(s)
    ensures Conserves(p, Next(p, s, env), k, b, v)
  {
    if s.FeederClaim? || s.FeederDecoded? || s.FeederHand? {
      FeederConserves(p, s, env, k, b, v);
    } else if s.WorkerPop? || s.WorkerExit? || s.WorkerAbandon? || s.WorkerWrite? || s.WorkerReport? {
      WorkerConserves(p, s, env, k, b, v);
    } else if s.ComposerPop? || s.ComposerTake? || s.ComposerRealloc? || s.ComposerCommit? {
      RenderConserves(p, s, env, k, b, v);
    } else if s.SetAi? && p.ring.ctl.aiActive != s.on {
      ModeConserves(p, Next(p, s, env), p.ring.ctl.(aiActive := s.on), env, k, b, v);
    } else if s.SetRec? && p.ring.ctl.recActive != s.on {
      ModeConserves(p, Next(p, s, env), p.ring.ctl.(recActive := s.on), env, k, b, v);
    } else if s.SetAi? || s.SetRec? {
      assert Next(p, s, env) == p;
    } else {
      OtherConserves(p, s, env, k, b, v);
    }
  }

  /** Camera steps move driver buffers and pooled buffers, but no stage buffer gets lost or copied. */
  lemma CameraConserves(p: Pipe, s: Step, env: nat -> bool, k: Kind, b: Buf)
    requires RingInv(p) && Enabled(p, s) && CameraStep(s)
    ensures Places(Next(p, s, env), k, b) == Places(p, k, b)
    ensures Next(p, s, env).ring.store.alloc == p.ring.store.alloc
  {
    match s
    case CaptureFrame(w, h, fmt) => CaptureConserves(p, w, h, fmt, env, k, b);
    case CameraClear => ClearConserves(p, env, k, b);
    case _ =>
  }

  lemma CaptureConserves(p: Pipe, w: int, h: int, fmt: int, env: nat -> bool, k: Kind, b: Buf)
    requires Shaped(p) && FixedPoint(p.ring) && Enabled(p, CaptureFrame(w, h, fmt))
    ensures var p' := Next(p, CaptureFrame(w, h, fmt), env);
            Places(p', k, b) == Places(p, k, b) && p'.ring.store.alloc == p.ring.store.alloc
  {
    hide Capture, Account, RawAccount, FixedPoint;
    CaptureGains(p.ring, w, h, fmt, Mmap(p.hand.vbuf), env, k, b, Mmap(0));
  }

  lemma ClearConserves(p: Pipe, env: nat -> bool, k: Kind, b: Buf)
    requires Shaped(p) && Enabled(p, CameraClear)
    ensures var p' := Next(p, CameraClear, env);
            Places(p', k, b) == Places(p, k, b) && p'.ring.store.alloc == p.ring.store.alloc
  {
    hide ClearUpTo, Shelved;
    ClearUpToBooks(p.ring, RING_N, env, k, b);
  }

  lemma BooksStep(p: Pipe, s: Step, env: nat -> bool)
    requires RingInv(p) && BooksOk(p) && Enabled(p, s)
    ensures BooksOk(Next(p, s, env))
  {
    var p' := Next(p, s, env);
    forall k, b ensures Places(p', k, b) == Allocated(p'.ring.store, k, b) {
      assert Places(p, k, b) == Allocated(p.ring.store, k, b);
      if CameraStep(s) {
        CameraConserves(p, s, env, k, b);
      } else {
        StepConserves(p, s, env, k, b, 0);
      }
    }
  }

  // ---------------------------------------------------------------- driver buffers, step by step

  /** Away from the camera thread a slot's raw is only ever released. */
  ghost predicate RawsOnlyLeave(r: Ring, r': Ring) {
    |r'.slots| == |r.slots|
    && forall i :: 0 <= i < |r.slots| ==> r'.slots[i].raw.None? || r'.slots[i].raw == r.slots[i].raw
  }

  lemma FeederRaws(p: Pipe, s: Step, env: nat -> bool)
    requires Shaped(p) && Enabled(p, s) && (s.FeederClaim? || s.FeederDecoded? || s.FeederHand?)
    ensures RawsOnlyLeave(p.ring, Next(p, s, env).ring)
  {
  }

  lemma AbandonRaws(r: Ring, job: Job, env: nat -> bool)
    requires |r.slots| == RING_N
    ensures RawsOnlyLeave(r, Abandon(r, job, env)) && RawsOnlyLeave(r, WriteBack(r, job, env))
  {
  }

  lemma WorkerRaws(p: Pipe, s: Step, env: nat -> bool)
    requires Shaped(p) && Enabled(p, s)
    requires s.WorkerPop? || s.WorkerExit? || s.WorkerAbandon? || s.WorkerWrite? || s.WorkerReport?
    ensures RawsOnlyLeave(p.ring, Next(p, s, env).ring)
  {
    hide Abandon, WriteBack;
    if s.WorkerAbandon? || s.WorkerWrite? {
      AbandonRaws(p.ring, p.workers[s.i].job, env);
    }
  }

  lemma RenderRaws(p: Pipe, s: Step, env: nat -> bool)
    requires Shaped(p) && Enabled(p, s)
    requires s.ComposerPop? || s.ComposerTake? || s.ComposerRealloc? || s.ComposerCommit?
    ensures RawsOnlyLeave(p.ring, Next(p, s, env).ring)
  {
  }

  lemma AdvanceRaws(r: Ring, i: nat, s: Slot, env: nat -> bool)
    requires i < |r.slots| && s.raw == r.slots[i].raw
    ensures RawsOnlyLeave(r, EncodeAdvance(WithSlot(r, i, s), i, env))
  {
    hide MaintainUpTo;
    var r1 := WithSlot(r, i, s);
    forall j | 0 <= j < |r.slots| ensures Consumed(r1.slots[j], s.frame).raw == r.slots[j].raw {}
  }

  lemma RecorderRaws(p: Pipe, sameSize: bool, env: nat -> bool)
    ensures RawsOnlyLeave(p.ring, RecorderTook(p, sameSize, env).ring)
  {
    var pick := EncodePick(p.ring, p.recSeq);
    if pick.Some? {
      var s := p.ring.slots[pick.value];
      assert WithSlot(p.ring, pick.value, s) == p.ring;
      AdvanceRaws(p.ring, pick.value, if sameSize then s.(nv12 := None) else s, env);
    }
  }

  lemma OtherRaws(p: Pipe, s: Step, env: nat -> bool)
    requires Shaped(p) && Enabled(p, s)
    requires s.SetAi? || s.SetRec? || s.RecorderTake? || s.RecorderReturn? || s.StopPool? || s.StopDrain?
    ensures RawsOnlyLeave(p.ring, Next(p, s, env).ring)
  {
    if s.RecorderTake? {
      RecorderRaws(p, s.sameSize, env);
    }
  }

  lemma StepRawsOnlyLeave(p: Pipe, s: Step, env: nat -> bool)
    requires Shaped(p) && Enabled(p, s) && !CameraStep(s)
    ensures RawsOnlyLeave(p.ring, Next(p, s, env).ring)
  {
    if s.FeederClaim? || s.FeederDecoded? || s.FeederHand? {
      FeederRaws(p, s, env);
    } else if s.WorkerPop? || s.WorkerExit? || s.WorkerAbandon? || s.WorkerWrite? || s.WorkerReport? {
      WorkerRaws(p, s, env);
    } else if s.ComposerPop? || s.ComposerTake? || s.ComposerRealloc? || s.ComposerCommit? {
      RenderRaws(p, s, env);
    } else {
      OtherRaws(p, s, env);
    }
  }

  lemma ClearedPhases(p: Pipe, p': Pipe)
    requires RawsOnlyLeave(p.ring, p'.ring) && p'.phase == p.phase && p'.hand == p.hand && p'.nbuffers == p.nbuffers
    requires forall v: nat :: RawAccount(p'.ring, Mmap(v)) == RawAccount(p.ring, Mmap(v))
    requires DriverOk(p)
    ensures DriverOk(p')
  {
    if p.phase.Cleared? || p.phase.Off? {
      forall v: nat ensures p'.ring.store.returned[Mmap(v)] == p.ring.store.returned[Mmap(v)] {
        CountNone(Raws(p.ring.slots), Mmap(v));
        CountNone(Raws(p'.ring.slots), Mmap(v));
        assert RawAccount(p'.ring, Mmap(v)) == RawAccount(p.ring, Mmap(v));
      }
    } else {
      forall v: nat ensures DriverPlaces(p', v) == DriverPlaces(p, v) {
        assert RawAccount(p'.ring, Mmap(v)) == RawAccount(p.ring, Mmap(v));
      }
    }
  }

  lemma CaptureDriver(p: Pipe, w: int, h: int, fmt: int, env: nat -> bool, v: nat)
    requires RingInv(p) && Enabled(p, CaptureFrame(w, h, fmt))
    ensures DriverPlaces(Next(p, CaptureFrame(w, h, fmt), env), v) == DriverPlaces(p, v)
  {
    assert |p.ring.slots| == RING_N && FixedPoint(p.ring);
    hide RingInv, FixedPoint, Capture, Account, Allocated;
    CaptureGains(p.ring, w, h, fmt, Mmap(p.hand.vbuf), env, Rgb, Buf(0, 0), Mmap(v));
  }

  lemma StreamDriver(p: Pipe, s: Step, env: nat -> bool)
    requires RingInv(p) && DriverOk(p) && Enabled(p, s) && (s.StreamOff? || s.StreamOn?)
    ensures DriverOk(Next(p, s, env))
  {
    var p' := Next(p, s, env);
    if s.StreamOff? {
      forall v: nat ensures p'.ring.store.returned[Mmap(v)] == 0 {
        DriverResetAt(p.ring.store.returned, p.nbuffers, 0, v);
      }
    } else {
      forall v: nat ensures DriverPlaces(p', v) == if v < s.n then 1 else 0 {
        DriverResetAt(p.ring.store.returned, s.n, 1, v);
        CountNone(Raws(p.ring.slots), Mmap(v));
      }
    }
  }

  lemma QueueDriver(p: Pipe, s: Step, env: nat -> bool)
    requires DriverOk(p) && Shaped(p) && Enabled(p, s)
    requires s.Dequeue? || s.DriverGap? || s.ReturnBuffer? || s.CameraStop?
    ensures DriverOk(Next(p, s, env))
  {
    var p' := Next(p, s, env);
    forall v: nat ensures DriverPlaces(p', v) == DriverPlaces(p, v) {}
  }

  lemma CameraDriver(p: Pipe, s: Step, env: nat -> bool)
    requires RingInv(p) && DriverOk(p) && Enabled(p, s) && CameraStep(s)
    ensures DriverOk(Next(p, s, env))
  {
    if s.CaptureFrame? {
      forall v: nat ensures DriverPlaces(Next(p, s, env), v) == DriverPlaces(p, v) {
        CaptureDriver(p, s.w, s.h, s.fmt, env, v);
      }
    } else if s.StreamOff? || s.StreamOn? {
      StreamDriver(p, s, env);
    } else if s.CameraClear? {
      ClearDriver(p, env);
    } else {
      QueueDriver(p, s, env);
    }
  }

  /** The clear hands no driver buffer back: the driver takes them at STREAMOFF. */
  lemma ClearDriver(p: Pipe, env: nat -> bool)
    requires RingInv(p) && DriverOk(p) && Enabled(p, CameraClear)
    ensures DriverOk(Next(p, CameraClear, env))
  {
    forall v: nat | v >= p.nbuffers
      ensures Next(p, CameraClear, env).ring.store.returned[Mmap(v)] == 0
    {
      ClearUpToRaws(p.ring, RING_N, env, Mmap(v));
      assert DriverPlaces(p, v) == 0;
    }
  }

  lemma DriverStep(p: Pipe, s: Step, env: nat -> bool)
    requires RingInv(p) && DriverOk(p) && Enabled(p, s)
    ensures DriverOk(Next(p, s, env))
  {
    if CameraStep(s) {
      CameraDriver(p, s, env);
    } else {
      var p' := Next(p, s, env);
      StepRawsOnlyLeave(p, s, env);
      forall v: nat ensures RawAccount(p'.ring, Mmap(v)) == RawAccount(p.ring, Mmap(v)) {
        StepConserves(p, s, env, Rgb, Buf(0, 0), v);
      }
      assert p'.phase == p.phase && p'.hand == p.hand && p'.nbuffers == p.nbuffers;
      ClearedPhases(p, p');
    }
  }

  // ---------------------------------------------------------------- runs

  lemma PipeInvStep(p: Pipe, s: Step, env: nat -> bool)
    requires PipeInv(p) && Enabled(p, s)
    ensures PipeInv(Next(p, s, env))
  {
    RingInvStep(p, s, env);
    BooksStep(p, s, env);
    DriverStep(p, s, env);
  }

  /** Program start: empty ring and pools, camera off, inference pool just started. */
  ghost predicate Init(p: Pipe) {
    && p.ring.slots == seq(RING_N, _ => EMPTY_SLOT)
    && p.ring.ctl == Control(0, 0, p.ring.ctl.aiActive, p.ring.ctl.recActive, false, 0, 0, 0, 0, 0)
    && p.ring.store == Store(PerKind([], [], []), 0, [], PerKind(multiset{}, multiset{}, multiset{}), multiset{})
    && p.phase == Off && p.hand == Empty && p.pool == Running
    && p.queue == JobQueue(seq(QUEUE_CAP, _ => NO_JOB), 0, 0, 0)
    && p.feeder == Waiting && (forall i :: 0 <= i < |p.workers| ==> p.workers[i] == Idle)
    && p.lastSeq == 0 && p.nextSeq == 0 && p.recSeq == 0
    && p.composer == Resting && p.recorder == Polling && p.shown == [] && p.stolen == []
  }

  lemma InitHolders(p: Pipe, f: nat)
    requires Init(p)
    ensures Holders(p, f) == 0
  {
    CountNone(JobFrames(p.queue.jobs), f);
    CountNone(WorkerFrames(p.workers), f);
  }

  lemma InitInv(p: Pipe)
    requires Init(p)
    ensures PipeInv(p)
  {
    forall f: nat ensures Holders(p, f) == 0 { InitHolders(p, f); }
    forall k, b ensures Places(p, k, b) == Allocated(p.ring.store, k, b) {
      CountNone(Stages(p.ring.slots, k), b);
      CountNone(JobBufs(p.queue.jobs), b);
      CountNone(WorkerBufs(p.workers), b);
    }
  }

  /** ps is the sequence of states that the steps ss lead through, from program start. */
  ghost predicate Run(ps: seq<Pipe>, ss: seq<Step>, env: nat -> bool) {
    && |ps| == |ss| + 1 && Init(ps[0])
    && forall i :: 0 <= i < |ss| ==> Shaped(ps[i]) && Enabled(ps[i], ss[i]) && ps[i + 1] == Next(ps[i], ss[i], env)
  }

  /** Every state of every run, under every interleaving and every pattern of failures, is legal. */
  lemma {:induction false} RunInv(ps: seq<Pipe>, ss: seq<Step>, env: nat -> bool, n: nat)
    requires Run(ps, ss, env) && n < |ps|
    ensures PipeInv(ps[n])
  {
    if n == 0 {
      InitInv(ps[0]);
    } else {
      RunInv(ps, ss, env, n - 1);
      PipeInvStep(ps[n - 1], ss[n - 1], env);
    }
  }
}
