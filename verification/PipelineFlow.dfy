/**
 * The way of a frame through the pipeline: when it can be claimed, when its data is given back,
 * which picture ends up where, and that every picture fits the buffer it is written to.
 */
module PipelineFlow {
  import opened Common
  import opened FrameRingModel
  import opened FrameRingOps
  import opened Pipeline
  import opened PipelineInvariant
  import opened PipelineSafety
  import Render = PipelineRender

  // ---------------------------------------------------------------- how a step may change a slot

  /**
   * The slot keeps its frame, loses at most buffers, and may gain the pictures x and y; a claim
   * that goes away leaves the mark that the frame was looked at.
   */
  ghost predicate Evolves(s: Slot, s': Slot, x: Option<Buf>, y: Option<Buf>) {
    && s'.frame == s.frame && s'.w == s.w && s'.h == s.h
    && (s.inferDone ==> s'.inferDone) && s'.encodeDone == s.encodeDone
    && (s'.claims == 0 ==> s.claims == 0 || s'.inferDone)
    && (s'.inferDone ==> s.inferDone || s.claims > 0)
    && (s'.raw.None? || s'.raw == s.raw)
    && (s'.rgb.None? || s'.rgb == s.rgb || s'.rgb == x)
    && (s'.nv12.None? || s'.nv12 == s.nv12 || s'.nv12 == y)
  }

  /**
   * What a slot loses was done with: raw data that is not the newest, claimed by nobody and looked at by
   * whoever needs it; a picture that is not newer than the display; an NV12 picture that is not on
   * display and not needed by a recording; a JPEG picture that is not on display.
   */
  ghost predicate GivenUp(c: Control, s: Slot, s': Slot, x: Option<Buf>, y: Option<Buf>) {
    && (s'.raw == s.raw
        || (s'.frame != c.produceSeq && s'.claims == 0
            && if c.aiActive then s'.inferDone else s'.encodeDone || !c.recActive))
    && (s'.rgb == s.rgb || s.rgb.None? || (x.Some? && s'.rgb == x) || s'.frame <= c.displaySeq)
    && (s'.nv12 == s.nv12 || s.nv12.None? || (y.Some? && s'.nv12 == y)
        || (s'.frame != c.displaySeq && (s'.encodeDone || !c.recActive)))
    && (s'.jpeg == s.jpeg || s.jpeg.None? || y.Some? || s'.frame != c.displaySeq)
  }

  /** The slot as a step left it before the release pass. */
  ghost predicate Before(s: Slot, s': Slot, x: Option<Buf>, y: Option<Buf>) {
    && Evolves(s, s', x, y) && s'.raw == s.raw
    && (s'.rgb == s.rgb || (x.Some? && s'.rgb == x))
    && (s'.nv12 == s.nv12 || (y.Some? && s'.nv12 == y)) && (s'.jpeg == s.jpeg || y.Some?)
  }

  lemma CleanedGivesUp(c: Control, s: Slot, s': Slot, x: Option<Buf>, y: Option<Buf>)
    requires Before(s, s', x, y)
    ensures Evolves(s, Cleaned(c, s'), x, y) && GivenUp(c, s, Cleaned(c, s'), x, y)
  {
  }

  /** All slots evolve; only slot k may gain pictures. */
  ghost predicate Steady(r: Ring, r': Ring, k: nat, x: Option<Buf>, y: Option<Buf>) {
    && |r.slots| == |r'.slots| == RING_N
    && r'.ctl.produceSeq == r.ctl.produceSeq && r'.ctl.displaySeq >= r.ctl.displaySeq
    && r'.ctl.quiescing == r.ctl.quiescing
    && forall i :: 0 <= i < RING_N ==>
         && Evolves(r.slots[i], r'.slots[i], if i == k then x else None, if i == k then y else None)
         && GivenUp(r'.ctl, r.slots[i], r'.slots[i], if i == k then x else None, if i == k then y else None)
  }

  /** One slot changed, then the release pass. */
  lemma PassSteady(r: Ring, r': Ring, k: nat, s: Slot, ctl: Control, st: Store, env: nat -> bool,
                   x: Option<Buf>, y: Option<Buf>)
    requires |r.slots| == RING_N && k < RING_N && Before(r.slots[k], s, x, y)
    requires ctl.produceSeq == r.ctl.produceSeq && ctl.displaySeq >= r.ctl.displaySeq
    requires ctl.quiescing == r.ctl.quiescing
    requires r'.slots == Maintain(Ring(r.slots[k := s], ctl, st), env).slots && r'.ctl == ctl
    ensures Steady(r, r', k, x, y)
  {
    assert forall i :: 0 <= i < RING_N ==> r'.slots[i] == Cleaned(ctl, if i == k then s else r.slots[i]);
    hide Maintain, Cleaned;
    forall i | 0 <= i < RING_N
      ensures Evolves(r.slots[i], r'.slots[i], if i == k then x else None, if i == k then y else None)
      ensures GivenUp(ctl, r.slots[i], r'.slots[i], if i == k then x else None, if i == k then y else None)
    {
      CleanedGivesUp(ctl, r.slots[i], if i == k then s else r.slots[i],
                     if i == k then x else None, if i == k then y else None);
    }
    hide Evolves, GivenUp;
  }

  lemma UnchangedSteady(r: Ring, r': Ring)
    requires |r.slots| == RING_N && r'.slots == r.slots
    requires r'.ctl.produceSeq == r.ctl.produceSeq && r'.ctl.displaySeq == r.ctl.displaySeq
    requires r'.ctl.quiescing == r.ctl.quiescing
    ensures Steady(r, r', 0, None, None)
  {
  }

  lemma AbandonSteady(r: Ring, job: Job, env: nat -> bool)
    requires |r.slots| == RING_N
    ensures Steady(r, Abandon(r, job, env), 0, None, None)
  {
    hide Maintain, Put;
    var i := SlotIndex(job.frame);
    var s := r.slots[i];
    if s.frame == job.frame && s.claims > 0 {
      PassSteady(r, Abandon(r, job, env), i, Unclaimed(s), r.ctl, r.store, env, None, None);
    }
  }

  lemma WriteBackSteady(r: Ring, job: Job, env: nat -> bool)
    requires |r.slots| == RING_N && job.rgb.Some?
    ensures Steady(r, WriteBack(r, job, env), SlotIndex(job.frame),
                   if r.slots[SlotIndex(job.frame)].frame == job.frame then job.rgb else None, None)
  {
    hide Maintain, Put;
    var i := SlotIndex(job.frame);
    var s := r.slots[i];
    if s.frame == job.frame && s.claims > 0 {
      var s' := Unclaimed(s.(rgb := job.rgb, rgbDone := true));
      assert r.slots[i := s.(rgb := job.rgb, rgbDone := true)][i := s'] == r.slots[i := s'];
      PassSteady(r, WriteBack(r, job, env), i, s', r.ctl, r.store, env, job.rgb, None);
    }
  }

  lemma FailedSteady(r: Ring, i: nat, st: Store, env: nat -> bool)
    requires |r.slots| == RING_N && i < RING_N && r.slots[i].claims > 0
    ensures Steady(r, InferUnclaim(r.(store := st), i, false, env), 0, None, None)
  {
    hide Maintain;
    var ctl := r.ctl.(inferDropped := r.ctl.inferDropped + 1);
    PassSteady(r, InferUnclaim(r.(store := st), i, false, env), i, Unclaimed(r.slots[i]), ctl, st, env, None, None);
  }

  lemma CommitSteady(r: Ring, c: Composer, ok: bool, env: nat -> bool)
    requires |r.slots| == RING_N && c.Rendering? && c.frame > r.ctl.displaySeq && (ok ==> c.nv12.Some?)
    ensures Steady(r, RenderCommit(r, c, ok, env), SlotIndex(c.frame), None,
                   if r.slots[SlotIndex(c.frame)].frame == c.frame then c.nv12 else None)
  {
    hide Maintain, Put;
    var i := SlotIndex(c.frame);
    var s := r.slots[i];
    if Renderable(s, c.frame) {
      Render.RenderCommitShape(r, c, ok, env);
      var st := if ok then r.store else PutBoth(r.store, c.nv12, c.jpeg, env);
      PassSteady(r, RenderCommit(r, c, ok, env), i, Render.Shown(s, c, ok), Render.ShownControl(r.ctl, c.frame), st, env,
                 None, c.nv12);
    }
  }

  lemma ModeSteady(r: Ring, c: Control, env: nat -> bool)
    requires |r.slots| == RING_N && c == r.ctl.(aiActive := c.aiActive, recActive := c.recActive)
    ensures Steady(r, Maintain(r.(ctl := c), env), 0, None, None)
  {
    assert r.slots[0 := r.slots[0]] == r.slots;
    PassSteady(r, Maintain(r.(ctl := c), env), 0, r.slots[0], c, r.store, env, None, None);
  }

  // ---------------------------------------------------------------- what every step keeps

  /** A picture of three bytes a pixel fits. */
  predicate RgbFits(b: Option<Buf>, w: int, h: int) {
    b.Some? && w > 0 && h > 0 ==> b.value.cap >= w * h * 3
  }

  /** A picture of twelve bits a pixel fits. */
  predicate Nv12Fits(b: Option<Buf>, w: int, h: int) {
    b.Some? && w > 0 && h > 0 ==> b.value.cap >= w * h * 3 / 2
  }

  predicate SlotFits(s: Slot) { RgbFits(s.rgb, s.w, s.h) && Nv12Fits(s.nv12, s.w, s.h) }

  /** Frame f was published, and has that size for as long as its slot carries it. */
  predicate SizeIs(r: Ring, f: nat, w: int, h: int)
    requires |r.slots| == RING_N
  {
    && 0 < f <= r.ctl.produceSeq
    && var s := r.slots[SlotIndex(f)];
       s.frame == f ==> s.w == w && s.h == h
  }

  predicate JobFits(r: Ring, job: Job)
    requires |r.slots| == RING_N
  {
    job.rgb.Some? ==> SizeIs(r, job.frame, job.w, job.h) && RgbFits(job.rgb, job.w, job.h)
  }

  predicate FeederFits(r: Ring, f: Feeder)
    requires |r.slots| == RING_N
  {
    match f
    case Waiting => true
    case Decoding(frame, w, h, rgb) => SizeIs(r, frame, w, h) && RgbFits(rgb, w, h)
    case Handing(job) => JobFits(r, job)
  }

  predicate WorkerFits(r: Ring, w: Worker)
    requires |r.slots| == RING_N
  {
    w.Inferring? ==> JobFits(r, w.job)
  }

  predicate ComposerFits(r: Ring, c: Composer)
    requires |r.slots| == RING_N
  {
    c.Rendering? ==> SizeIs(r, c.frame, c.w, c.h) && Nv12Fits(c.nv12, c.w, c.h)
  }

  /** Every thread knows the size of its frame and holds a buffer that is large enough for it. */
  ghost predicate HandsFit(p: Pipe)
    requires |p.ring.slots| == RING_N
  {
    && FeederFits(p.ring, p.feeder) && ComposerFits(p.ring, p.composer)
    && (forall j :: 0 <= j < |p.queue.jobs| ==> JobFits(p.ring, p.queue.jobs[j]))
    && (forall i :: 0 <= i < |p.workers| ==> WorkerFits(p.ring, p.workers[i]))
  }

  /** Claims are banned exactly between the camera's stop and the clearing of the ring. */
  predicate BanOk(p: Pipe) { p.ring.ctl.quiescing <==> p.phase.Quiescing? }

  /** The recorder has marked exactly the frames up to its cursor. */
  predicate MarkOk(s: Slot, recSeq: nat) {
    s.frame != 0 ==> (s.encodeDone <==> s.frame <= recSeq)
  }

  /** The feeder's mark is on no frame it has not come to, and on all it has come to that nobody holds. */
  predicate DoneOk(s: Slot, quiescing: bool, upTo: nat) {
    s.frame != 0 ==>
      && (s.inferDone ==> s.frame <= upTo)
      && (!quiescing && s.frame <= upTo && s.claims == 0 && s.raw.Some? ==> s.inferDone)
  }

  ghost predicate SlotsFlow(p: Pipe) {
    forall i :: 0 <= i < |p.ring.slots| ==>
      && MarkOk(p.ring.slots[i], p.recSeq)
      && DoneOk(p.ring.slots[i], p.ring.ctl.quiescing, ClaimedUpTo(p))
      && SlotFits(p.ring.slots[i])
  }

  ghost predicate FlowInv(p: Pipe) {
    |p.ring.slots| == RING_N && BanOk(p) && p.recSeq <= p.ring.ctl.displaySeq && SlotsFlow(p) && HandsFit(p)
  }

  // ---------------------------------------------------------------- sizes are stable

  /** Slots carry the frames they carried, with their sizes, or newer ones. */
  ghost predicate SizesStable(r: Ring, r': Ring) {
    && |r.slots| == |r'.slots| == RING_N && r.ctl.produceSeq <= r'.ctl.produceSeq
    && forall i :: 0 <= i < RING_N && 0 < r'.slots[i].frame <= r.ctl.produceSeq ==>
         r'.slots[i].frame == r.slots[i].frame && r'.slots[i].w == r.slots[i].w && r'.slots[i].h == r.slots[i].h
  }

  lemma SteadySizes(r: Ring, r': Ring, k: nat, x: Option<Buf>, y: Option<Buf>)
    requires Steady(r, r', k, x, y)
    ensures SizesStable(r, r')
  {
    forall i | 0 <= i < RING_N
      ensures r'.slots[i].frame == r.slots[i].frame && r'.slots[i].w == r.slots[i].w && r'.slots[i].h == r.slots[i].h
    {
      assert Evolves(r.slots[i], r'.slots[i], if i == k then x else None, if i == k then y else None);
    }
  }

  lemma SizeStays(r: Ring, r': Ring, f: nat, w: int, h: int)
    requires SizesStable(r, r') && SizeIs(r, f, w, h)
    ensures SizeIs(r', f, w, h)
  {
  }

  lemma JobStays(r: Ring, r': Ring, job: Job)
    requires SizesStable(r, r') && JobFits(r, job)
    ensures JobFits(r', job)
  {
    if job.rgb.Some? { SizeStays(r, r', job.frame, job.w, job.h); }
  }

  /** Hands that did not change still fit. */
  lemma HandsStay(r: Ring, r': Ring, f: Feeder, c: Composer, jobs: seq<Job>, ws: seq<Worker>)
    requires SizesStable(r, r')
    ensures FeederFits(r, f) ==> FeederFits(r', f)
    ensures ComposerFits(r, c) ==> ComposerFits(r', c)
    ensures forall j :: 0 <= j < |jobs| && JobFits(r, jobs[j]) ==> JobFits(r', jobs[j])
    ensures forall i :: 0 <= i < |ws| && WorkerFits(r, ws[i]) ==> WorkerFits(r', ws[i])
  {
    assert |r.slots| == |r'.slots| == RING_N;
    hide SizeIs, JobFits, RgbFits, Nv12Fits, SizesStable;
    if FeederFits(r, f) {
      match f
      case Waiting =>
      case Decoding(frame, w, h, _) => SizeStays(r, r', frame, w, h);
      case Handing(job) => JobStays(r, r', job);
    }
    if ComposerFits(r, c) && c.Rendering? { SizeStays(r, r', c.frame, c.w, c.h); }
    forall j | 0 <= j < |jobs| && JobFits(r, jobs[j]) ensures JobFits(r', jobs[j]) { JobStays(r, r', jobs[j]); }
    forall i | 0 <= i < |ws| && WorkerFits(r, ws[i]) ensures WorkerFits(r', ws[i]) {
      if ws[i].Inferring? { JobStays(r, r', ws[i].job); }
    }
  }

  // ---------------------------------------------------------------- steps away from the camera

  lemma SlotEvolves(s: Slot, s': Slot, x: Option<Buf>, y: Option<Buf>, recSeq: nat, quiescing: bool, upTo: nat)
    requires Evolves(s, s', x, y) && MarkOk(s, recSeq) && DoneOk(s, quiescing, upTo) && SlotFits(s)
    requires s.frame != 0 && s.claims > 0 ==> s.frame <= upTo
    requires RgbFits(x, s.w, s.h) && Nv12Fits(y, s.w, s.h)
    ensures MarkOk(s', recSeq) && DoneOk(s', quiescing, upTo) && SlotFits(s')
  {
  }

  /** A claimed frame is one the feeder has come to. */
  lemma ClaimedIsPast(p: Pipe, i: nat)
    requires RingInv(p) && i < RING_N && p.ring.slots[i].frame != 0 && p.ring.slots[i].claims > 0
    ensures p.ring.slots[i].frame <= ClaimedUpTo(p)
  {
    var s := p.ring.slots[i];
    assert SlotOk(p.ring.ctl, ClaimedUpTo(p), Holders(p, s.frame), i, s);
    assert Holders(p, s.frame) > 0;
    hide SlotsOk, SlotOk, FixedPoint, JobsOk, CursorsOk, ComposerOk;
  }

  lemma FlowKept(p: Pipe, p': Pipe, k: nat, x: Option<Buf>, y: Option<Buf>)
    requires RingInv(p) && FlowInv(p) && Steady(p.ring, p'.ring, k, x, y)
    requires k < RING_N && RgbFits(x, p.ring.slots[k].w, p.ring.slots[k].h)
    requires Nv12Fits(y, p.ring.slots[k].w, p.ring.slots[k].h)
    requires (p'.phase.Quiescing? <==> p.phase.Quiescing?) && p'.recSeq == p.recSeq && ClaimedUpTo(p') == ClaimedUpTo(p)
    requires FeederFits(p.ring, p'.feeder) && ComposerFits(p.ring, p'.composer)
    requires forall j :: 0 <= j < |p'.queue.jobs| ==> JobFits(p.ring, p'.queue.jobs[j])
    requires forall i :: 0 <= i < |p'.workers| ==> WorkerFits(p.ring, p'.workers[i])
    ensures FlowInv(p')
  {
    SteadySizes(p.ring, p'.ring, k, x, y);
    HandsStay(p.ring, p'.ring, p'.feeder, p'.composer, p'.queue.jobs, p'.workers);
    hide RingInv, Evolves, MarkOk, DoneOk, SlotFits, RgbFits, Nv12Fits, FeederFits, ComposerFits, JobFits, WorkerFits,
         SizesStable, ClaimedUpTo;
    forall i | 0 <= i < RING_N
      ensures MarkOk(p'.ring.slots[i], p'.recSeq)
      ensures DoneOk(p'.ring.slots[i], p'.ring.ctl.quiescing, ClaimedUpTo(p'))
      ensures SlotFits(p'.ring.slots[i])
    {
      var s := p.ring.slots[i];
      if s.frame != 0 && s.claims > 0 { ClaimedIsPast(p, i); }
      assert Evolves(s, p'.ring.slots[i], if i == k then x else None, if i == k then y else None);
      NothingFits(s.w, s.h);
      SlotEvolves(s, p'.ring.slots[i], if i == k then x else None, if i == k then y else None,
                  p.recSeq, p.ring.ctl.quiescing, ClaimedUpTo(p));
    }
  }

  lemma NothingFits(w: int, h: int)
    ensures RgbFits(None, w, h) && Nv12Fits(None, w, h)
  {
  }

  /** Steps that touch no slot and no control flag. */
  lemma AsideFlow(p: Pipe, p': Pipe)
    requires RingInv(p) && FlowInv(p) && p'.ring.slots == p.ring.slots
    requires p'.ring.ctl == p.ring.ctl.(driverDropped := p'.ring.ctl.driverDropped)
    requires (p'.phase.Quiescing? <==> p.phase.Quiescing?) && p'.recSeq == p.recSeq && ClaimedUpTo(p') == ClaimedUpTo(p)
    requires FeederFits(p.ring, p'.feeder) && ComposerFits(p.ring, p'.composer)
    requires forall j :: 0 <= j < |p'.queue.jobs| ==> JobFits(p.ring, p'.queue.jobs[j])
    requires forall i :: 0 <= i < |p'.workers| ==> WorkerFits(p.ring, p'.workers[i])
    ensures FlowInv(p')
  {
    assert |p.ring.slots| == RING_N;
    hide RingInv, FlowInv, JobFits, WorkerFits, FeederFits, ComposerFits, ClaimedUpTo;
    UnchangedSteady(p.ring, p'.ring);
    NothingFits(p.ring.slots[0].w, p.ring.slots[0].h);
    FlowKept(p, p', 0, None, None);
  }

  // ---------------------------------------------------------------- camera

  lemma CameraFlow(p: Pipe, s: Step, env: nat -> bool)
    requires RingInv(p) && FlowInv(p) && Enabled(p, s)
    requires s.Dequeue? || s.DriverGap? || s.ReturnBuffer? || s.StreamOff? || s.StreamOn?
    ensures FlowInv(Next(p, s, env))
  {
    var p' := Next(p, s, env);
    assert p'.feeder == p.feeder && p'.queue == p.queue && p'.workers == p.workers && p'.composer == p.composer;
    assert p'.ring.slots == p.ring.slots && ClaimedUpTo(p') == ClaimedUpTo(p);
    hide RingInv, JobFits, WorkerFits, FeederFits, ComposerFits, ClaimedUpTo, SlotsFlow;
    AsideFlow(p, p');
  }

  lemma StopFlow(p: Pipe, env: nat -> bool)
    requires FlowInv(p) && Shaped(p) && Enabled(p, CameraStop)
    ensures FlowInv(Next(p, CameraStop, env))
  {
    var p' := Next(p, CameraStop, env);
    HandsStay(p.ring, p'.ring, p.feeder, p.composer, p.queue.jobs, p.workers);
    hide FeederFits, ComposerFits, JobFits, WorkerFits, SlotFits;
  }

  /** Clearing leaves empty slots and lifts the claim ban. */
  lemma ClearFlow(p: Pipe, env: nat -> bool)
    requires FlowInv(p) && Shaped(p) && Enabled(p, CameraClear)
    ensures FlowInv(Next(p, CameraClear, env))
  {
    var p' := Next(p, CameraClear, env);
    HandsStay(p.ring, p'.ring, p.feeder, p.composer, p.queue.jobs, p.workers);
    hide FeederFits, ComposerFits, JobFits, WorkerFits;
  }

  /** The release pass alone. */
  lemma CleanedEvolves(c: Control, s: Slot)
    ensures Evolves(s, Cleaned(c, s), None, None)
  {
  }

  lemma NewSlotFlow(c: Control, w: int, h: int, fmt: int, raw: Raw, recSeq: nat, quiescing: bool, upTo: nat)
    requires recSeq <= c.produceSeq && upTo <= c.produceSeq
    ensures var c' := c.(produceSeq := c.produceSeq + 1);
            var s := Cleaned(c', FrameSlot(c.produceSeq + 1, w, h, fmt, raw));
            MarkOk(s, recSeq) && DoneOk(s, quiescing, upTo) && SlotFits(s)
  {
  }

  /** Slot i after a capture: the new frame, or the old one after a release pass. */
  lemma PublishedSlot(r: Ring, r': Ring, w: int, h: int, fmt: int, raw: Raw, env: nat -> bool,
                      recSeq: nat, upTo: nat, i: nat)
    requires |r.slots| == RING_N && i < RING_N && recSeq <= r.ctl.produceSeq && upTo <= r.ctl.produceSeq
    requires r' == Maintain(Published(r, FrameSlot(r.ctl.produceSeq + 1, w, h, fmt, raw)), env)
    requires MarkOk(r.slots[i], recSeq) && DoneOk(r.slots[i], r.ctl.quiescing, upTo) && SlotFits(r.slots[i])
    requires r.slots[i].frame != 0 && r.slots[i].claims > 0 ==> r.slots[i].frame <= upTo
    ensures MarkOk(r'.slots[i], recSeq) && DoneOk(r'.slots[i], r'.ctl.quiescing, upTo) && SlotFits(r'.slots[i])
    ensures 0 < r'.slots[i].frame <= r.ctl.produceSeq ==>
              r'.slots[i].frame == r.slots[i].frame && r'.slots[i].w == r.slots[i].w && r'.slots[i].h == r.slots[i].h
  {
    var c, k, s := r.ctl, SlotIndex(r.ctl.produceSeq + 1), r.slots[i];
    assert r'.slots[i] == Cleaned(r'.ctl, if i == k then FrameSlot(c.produceSeq + 1, w, h, fmt, raw) else s);
    assert r'.ctl == c.(produceSeq := c.produceSeq + 1);
    hide Maintain, Published;
    if i == k {
      NewSlotFlow(c, w, h, fmt, raw, recSeq, c.quiescing, upTo);
    } else {
      CleanedEvolves(r'.ctl, s);
      NothingFits(s.w, s.h);
      SlotEvolves(s, r'.slots[i], None, None, recSeq, c.quiescing, upTo);
    }
  }

  lemma FlowAt(p: Pipe, i: nat)
    requires FlowInv(p) && i < RING_N
    ensures |p.ring.slots| == RING_N && MarkOk(p.ring.slots[i], p.recSeq) && SlotFits(p.ring.slots[i])
    ensures DoneOk(p.ring.slots[i], p.ring.ctl.quiescing, ClaimedUpTo(p))
  {
  }

  lemma CursorsBelow(p: Pipe)
    requires RingInv(p) && FlowInv(p)
    ensures ClaimedUpTo(p) <= p.ring.ctl.produceSeq && p.recSeq <= p.ring.ctl.produceSeq
  {
  }

  lemma PublishedAt(p: Pipe, p': Pipe, w: int, h: int, fmt: int, raw: Raw, env: nat -> bool, i: nat)
    requires RingInv(p) && FlowInv(p) && p' == p.(ring := p'.ring, hand := p'.hand) && i < RING_N
    requires p'.ring == Maintain(Published(p.ring, FrameSlot(p.ring.ctl.produceSeq + 1, w, h, fmt, raw)), env)
    ensures |p.ring.slots| == |p'.ring.slots| == RING_N
    ensures MarkOk(p'.ring.slots[i], p'.recSeq) && SlotFits(p'.ring.slots[i])
    ensures DoneOk(p'.ring.slots[i], p'.ring.ctl.quiescing, ClaimedUpTo(p'))
    ensures 0 < p'.ring.slots[i].frame <= p.ring.ctl.produceSeq ==>
              p'.ring.slots[i].frame == p.ring.slots[i].frame
              && p'.ring.slots[i].w == p.ring.slots[i].w && p'.ring.slots[i].h == p.ring.slots[i].h
  {
    hide RingInv, FlowInv, MarkOk, DoneOk, SlotFits, FrameSlot;
    CursorsBelow(p);
    FlowAt(p, i);
    assert p'.ring.ctl == p.ring.ctl.(produceSeq := p.ring.ctl.produceSeq + 1) && |p'.ring.slots| == RING_N;
    assert ClaimedUpTo(p') == ClaimedUpTo(p);
    hide *;
    if p.ring.slots[i].frame != 0 && p.ring.slots[i].claims > 0 { ClaimedIsPast(p, i); }
    PublishedSlot(p.ring, p'.ring, w, h, fmt, raw, env, p.recSeq, ClaimedUpTo(p), i);
  }

  lemma PublishedSlots(p: Pipe, p': Pipe, w: int, h: int, fmt: int, raw: Raw, env: nat -> bool)
    requires RingInv(p) && FlowInv(p) && p' == p.(ring := p'.ring, hand := p'.hand)
    requires p'.ring == Maintain(Published(p.ring, FrameSlot(p.ring.ctl.produceSeq + 1, w, h, fmt, raw)), env)
    ensures SlotsFlow(p') && SizesStable(p.ring, p'.ring)
    ensures p'.ring.ctl == p.ring.ctl.(produceSeq := p.ring.ctl.produceSeq + 1)
  {
    hide RingInv, FlowInv, MarkOk, DoneOk, SlotFits, Maintain, ClaimedUpTo, FrameSlot;
    PublishedAt(p, p', w, h, fmt, raw, env, 0);
    forall i | 0 <= i < RING_N
      ensures MarkOk(p'.ring.slots[i], p'.recSeq) && SlotFits(p'.ring.slots[i])
      ensures DoneOk(p'.ring.slots[i], p'.ring.ctl.quiescing, ClaimedUpTo(p'))
      ensures 0 < p'.ring.slots[i].frame <= p.ring.ctl.produceSeq ==>
                p'.ring.slots[i].frame == p.ring.slots[i].frame
                && p'.ring.slots[i].w == p.ring.slots[i].w && p'.ring.slots[i].h == p.ring.slots[i].h
    {
      PublishedAt(p, p', w, h, fmt, raw, env, i);
    }
  }

  lemma PublishedFlow(p: Pipe, p': Pipe, w: int, h: int, fmt: int, raw: Raw, env: nat -> bool)
    requires RingInv(p) && FlowInv(p) && p' == p.(ring := p'.ring, hand := p'.hand)
    requires p'.ring == Maintain(Published(p.ring, FrameSlot(p.ring.ctl.produceSeq + 1, w, h, fmt, raw)), env)
    ensures FlowInv(p')
  {
    hide RingInv, SlotsFlow, Maintain, Published, FeederFits, ComposerFits, JobFits, WorkerFits;
    PublishedSlots(p, p', w, h, fmt, raw, env);
    HandsStay(p.ring, p'.ring, p.feeder, p.composer, p.queue.jobs, p.workers);
  }

  lemma DroppedFlow(p: Pipe, p': Pipe)
    requires FlowInv(p) && p' == p.(ring := ProduceDrop(p.ring), hand := p'.hand)
    ensures FlowInv(p')
  {
    HandsStay(p.ring, p'.ring, p.feeder, p.composer, p.queue.jobs, p.workers);
    hide FeederFits, ComposerFits, JobFits, WorkerFits, SlotFits;
  }

  lemma CaptureFlow(p: Pipe, p': Pipe, w: int, h: int, fmt: int, raw: Raw, env: nat -> bool)
    requires RingInv(p) && FlowInv(p) && p' == p.(ring := Capture(p.ring, w, h, fmt, raw, env).0, hand := p'.hand)
    ensures FlowInv(p')
  {
    CaptureAtRest(p.ring, w, h, fmt, raw, env);
    hide RingInv, FlowInv, Capture;
    if Reusable(p.ring.slots[SlotIndex(p.ring.ctl.produceSeq + 1)]) {
      PublishedFlow(p, p', w, h, fmt, raw, env);
    } else {
      DroppedFlow(p, p');
    }
  }

  // ---------------------------------------------------------------- feeder

  /** What the feeder passes over on its way to frame q has no raw data any more. */
  lemma PassedOver(r: Ring, last: nat, i: nat)
    requires |r.slots| == RING_N && i < RING_N && !r.ctl.quiescing
    requires last < r.slots[i].frame < NextClaim(r, last)
    requires SlotIndex(r.slots[i].frame) == i && r.slots[i].frame <= r.ctl.produceSeq
    ensures r.slots[i].raw.None?
  {
    assert !Claimable(r, r.slots[i].frame);
  }

  /** A slot when the feeder has moved on to frame q, taking its claim. */
  function TakenBy(s: Slot, q: nat): Slot {
    if s.frame == q then s.(claims := s.claims + 1) else s
  }

  lemma ClaimSlot(s: Slot, q: nat, recSeq: nat, quiescing: bool, last: nat)
    requires MarkOk(s, recSeq) && DoneOk(s, quiescing, last) && SlotFits(s) && last <= q
    requires !quiescing && last < s.frame < q ==> s.raw.None?
    ensures MarkOk(TakenBy(s, q), recSeq) && DoneOk(TakenBy(s, q), quiescing, q) && SlotFits(TakenBy(s, q))
  {
  }

  lemma TakenFits(st: Store, w: int, h: int, mallocOk: bool)
    ensures RgbFits(Take(st, Rgb, FrameBytes(w, h) * 3, mallocOk).1, w, h)
  {
    TakeShelved(st, Rgb, FrameBytes(w, h) * 3, mallocOk, Rgb, Buf(0, 0));
  }

  /** The ring and cursor after the feeder's turn, in terms of the frame it stops at. */
  lemma ClaimedShape(p: Pipe, mallocOk: bool)
    requires RingInv(p) && p.feeder.Waiting?
    ensures var p', q := Claimed(p, mallocOk), NextClaim(p.ring, p.lastSeq);
            && p'.ring.ctl == p.ring.ctl && |p'.ring.slots| == RING_N
            && p.lastSeq <= ClaimedUpTo(p') && ClaimedUpTo(p) == p.lastSeq
            && p'.queue == p.queue && p'.workers == p.workers && p'.composer == p.composer
            && p'.phase == p.phase && p'.recSeq == p.recSeq
            && (forall i :: 0 <= i < RING_N ==> p'.ring.slots[i] == TakenBy(p.ring.slots[i], q))
            && (q <= p.ring.ctl.produceSeq ==> ClaimedUpTo(p') == q)
            && (q > p.ring.ctl.produceSeq ==> ClaimedUpTo(p') == q - 1 && p'.feeder.Waiting?)
  {
    var q := NextClaim(p.ring, p.lastSeq);
    hide FixedPoint, ClaimsOk, JobsOk, CursorsOk, ComposerOk, Take;
    forall i | 0 <= i < RING_N
      ensures Claimed(p, mallocOk).ring.slots[i] == TakenBy(p.ring.slots[i], q)
    {
      var s := p.ring.slots[i];
      assert SlotOk(p.ring.ctl, ClaimedUpTo(p), Holders(p, s.frame), i, s);
      assert q <= p.ring.ctl.produceSeq ==> Claimable(p.ring, q);
    }
  }

  lemma ClaimFlow(p: Pipe, mallocOk: bool)
    requires RingInv(p) && FlowInv(p) && p.feeder.Waiting?
    ensures FlowInv(Claimed(p, mallocOk))
  {
    var p', q := Claimed(p, mallocOk), NextClaim(p.ring, p.lastSeq);
    ClaimedShape(p, mallocOk);
    ClaimHands(p, mallocOk);
    forall i | 0 <= i < RING_N
      ensures MarkOk(p'.ring.slots[i], p'.recSeq) && SlotFits(p'.ring.slots[i])
      ensures DoneOk(p'.ring.slots[i], p'.ring.ctl.quiescing, ClaimedUpTo(p'))
    {
      var s := p.ring.slots[i];
      assert SlotOk(p.ring.ctl, ClaimedUpTo(p), Holders(p, s.frame), i, s);
      if !p.ring.ctl.quiescing && p.lastSeq < s.frame < q { PassedOver(p.ring, p.lastSeq, i); }
      assert q > p.ring.ctl.produceSeq && s.frame != 0 ==> s.frame <= p.ring.ctl.produceSeq < q;
      hide RingInv, Claimed, ClaimedUpTo;
      ClaimSlot(s, q, p.recSeq, p.ring.ctl.quiescing, p.lastSeq);
    }
    hide RingInv, Claimed, ClaimedUpTo, HandsFit, MarkOk, DoneOk, SlotFits;
  }

  lemma ClaimHands(p: Pipe, mallocOk: bool)
    requires RingInv(p) && FlowInv(p) && p.feeder.Waiting?
    ensures |Claimed(p, mallocOk).ring.slots| == RING_N && HandsFit(Claimed(p, mallocOk))
  {
    var p', q := Claimed(p, mallocOk), NextClaim(p.ring, p.lastSeq);
    ClaimedShape(p, mallocOk);
    var s := p.ring.slots[SlotIndex(q)];
    TakenFits(p.ring.store, s.w, s.h, mallocOk);
    hide RingInv, SlotsFlow, Take, ClaimedUpTo, JobFits, WorkerFits, ComposerFits;
    HandsStay(p.ring, p'.ring, p.feeder, p.composer, p.queue.jobs, p.workers);
  }

  lemma DecodedFlow(p: Pipe, ok: bool, env: nat -> bool)
    requires RingInv(p) && FlowInv(p) && Enabled(p, FeederDecoded(ok))
    ensures FlowInv(Decoded(p, ok, env))
  {
    var p' := Decoded(p, ok, env);
    assert ClaimedUpTo(p') == ClaimedUpTo(p) && FeederFits(p.ring, p'.feeder);
    if ok {
      hide RingInv, JobFits, WorkerFits, FeederFits, ComposerFits, ClaimedUpTo, SlotsFlow;
      AsideFlow(p, p');
    } else {
      HeldSlot(p, p.feeder.frame);
      hide RingInv, FlowInv, FeederFits, ClaimedUpTo, Put, InferUnclaim;
      var i := SlotIndex(p.feeder.frame);
      FailedSteady(p.ring, i, Put(p.ring.store, Rgb, p.feeder.rgb, env), env);
      UnclaimFlow(p, p', 0, None);
    }
  }

  /** Steps that give a claim up, possibly leaving the picture x in slot k. */
  lemma UnclaimFlow(p: Pipe, p': Pipe, k: nat, x: Option<Buf>)
    requires RingInv(p) && FlowInv(p) && Steady(p.ring, p'.ring, k, x, None)
    requires k < RING_N && RgbFits(x, p.ring.slots[k].w, p.ring.slots[k].h)
    requires p'.phase == p.phase && p'.recSeq == p.recSeq && ClaimedUpTo(p') == ClaimedUpTo(p)
    requires p'.composer == p.composer && (p'.feeder == p.feeder || p'.feeder.Waiting?)
    requires p'.queue == p.queue && p'.workers == p.workers
    ensures FlowInv(p')
  {
    assert FeederFits(p.ring, p'.feeder);
    hide RingInv, Steady, JobFits, WorkerFits, FeederFits, ComposerFits, ClaimedUpTo, SlotsFlow;
    NothingFits(p.ring.slots[k].w, p.ring.slots[k].h);
    FlowKept(p, p', k, x, None);
  }

  lemma HandedFlow(p: Pipe, env: nat -> bool)
    requires RingInv(p) && FlowInv(p) && Enabled(p, FeederHand)
    ensures FlowInv(Handed(p, env))
  {
    var p' := Handed(p, env);
    assert ClaimedUpTo(p') == ClaimedUpTo(p) && JobFits(p.ring, p.feeder.job);
    if p.pool.Running? {
      hide RingInv, JobFits, WorkerFits, ComposerFits, ClaimedUpTo, SlotsFlow;
      AsideFlow(p, p');
    } else {
      hide RingInv, FlowInv, JobFits, ClaimedUpTo, Abandon;
      assert |p.ring.slots| == RING_N;
      AbandonSteady(p.ring, p.feeder.job, env);
      NothingFits(p.ring.slots[0].w, p.ring.slots[0].h);
      UnclaimFlow(p, p', 0, None);
    }
  }

  // ---------------------------------------------------------------- workers

  lemma WorkerFlow(p: Pipe, s: Step, env: nat -> bool)
    requires RingInv(p) && FlowInv(p) && Enabled(p, s) && (s.WorkerPop? || s.WorkerExit? || s.WorkerReport?)
    ensures FlowInv(Next(p, s, env))
  {
    var p' := Next(p, s, env);
    assert ClaimedUpTo(p') == ClaimedUpTo(p);
    if s.WorkerPop? { assert JobFits(p.ring, Pop(p.queue).1); }
    hide RingInv, SizeIs, RgbFits, FeederFits, ComposerFits, ClaimedUpTo, SlotsFlow;
    AsideFlow(p, p');
  }

  lemma WorkersAside(p: Pipe, i: nat, w: Worker)
    requires |p.ring.slots| == RING_N && HandsFit(p) && i < |p.workers| && !w.Inferring?
    ensures HandsFit(WithWorker(p, i, w))
  {
    hide FeederFits, ComposerFits, JobFits;
  }

  lemma WorkerDoneFlow(p: Pipe, s: Step, env: nat -> bool)
    requires RingInv(p) && FlowInv(p) && Enabled(p, s) && (s.WorkerAbandon? || s.WorkerWrite?)
    ensures FlowInv(Next(p, s, env))
  {
    var p', job := Next(p, s, env), p.workers[s.i].job;
    var k := SlotIndex(job.frame);
    assert ClaimedUpTo(p') == ClaimedUpTo(p) && WorkerFits(p.ring, p.workers[s.i]) && job.rgb.Some?;
    WorkersAside(p, s.i, p'.workers[s.i]);
    hide Abandon, WriteBack, RingInv, ClaimedUpTo, SlotsFlow, FeederFits, ComposerFits;
    NothingFits(p.ring.slots[k].w, p.ring.slots[k].h);
    NothingFits(p.ring.slots[0].w, p.ring.slots[0].h);
    if s.WorkerAbandon? {
      AbandonSteady(p.ring, job, env);
      hide Steady, JobFits, WorkerFits;
      FlowKept(p, p', 0, None, None);
    } else {
      WriteBackSteady(p.ring, job, env);
      var x := if p.ring.slots[k].frame == job.frame then job.rgb else None;
      assert RgbFits(x, p.ring.slots[k].w, p.ring.slots[k].h);
      hide Steady, JobFits, WorkerFits, RgbFits;
      FlowKept(p, p', k, x, None);
    }
  }

  // ---------------------------------------------------------------- composer

  lemma TakenBothFits(st: Store, w: int, h: int, nvOk: bool, wantJpeg: bool, jpOk: bool)
    ensures Nv12Fits(TakeBoth(st, FrameBytes(w, h) * 3 / 2, nvOk, wantJpeg, jpOk).1, w, h)
  {
    TakeShelved(st, Nv12, FrameBytes(w, h) * 3 / 2, nvOk, Nv12, Buf(0, 0));
  }

  lemma PickedFits(p: Pipe, nvOk: bool, wantJpeg: bool, jpOk: bool)
    requires RingInv(p) && p.composer.Chosen?
    ensures ComposerFits(p.ring, Picked(p, nvOk, wantJpeg, jpOk).composer)
  {
    var f := p.composer.frame;
    var s := p.ring.slots[SlotIndex(f)];
    TakenBothFits(p.ring.store, s.w, s.h, nvOk, wantJpeg, jpOk);
    assert SlotOk(p.ring.ctl, ClaimedUpTo(p), Holders(p, s.frame), SlotIndex(f), s);
    hide TakeBoth, RingInv;
  }

  /** Only the composer's own state and the pools changed. */
  lemma ComposerAside(p: Pipe, p': Pipe)
    requires RingInv(p) && FlowInv(p) && p'.ring.slots == p.ring.slots && p'.ring.ctl == p.ring.ctl
    requires p' == p.(ring := p'.ring, composer := p'.composer, nextSeq := p'.nextSeq, results := p'.results)
    requires ComposerFits(p.ring, p'.composer)
    ensures FlowInv(p')
  {
    assert ClaimedUpTo(p') == ClaimedUpTo(p);
    hide RingInv, JobFits, WorkerFits, FeederFits, ComposerFits, SlotsFlow, ClaimedUpTo;
    AsideFlow(p, p');
  }

  lemma ComposerFlow(p: Pipe, s: Step, env: nat -> bool)
    requires RingInv(p) && FlowInv(p) && Enabled(p, s) && (s.ComposerPop? || s.ComposerTake? || s.ComposerRealloc?)
    ensures FlowInv(Next(p, s, env))
  {
    var p' := Next(p, s, env);
    assert |p.ring.slots| == RING_N && ComposerFits(p.ring, p.composer);
    hide RingInv, FlowInv, TakeBoth;
    if s.ComposerTake? { PickedFits(p, s.nvOk, s.wantJpeg, s.jpOk); }
    hide Nv12Fits, SizeIs;
    ComposerAside(p, p');
  }

  lemma CommitFlow(p: Pipe, ok: bool, env: nat -> bool)
    requires RingInv(p) && FlowInv(p) && p.composer.Rendering? && (ok ==> p.composer.nv12.Some?)
    ensures FlowInv(Rendered(p, ok, env))
  {
    var p', c := Rendered(p, ok, env), p.composer;
    var k := SlotIndex(c.frame);
    CommitSteady(p.ring, c, ok, env);
    assert ClaimedUpTo(p') == ClaimedUpTo(p) && ComposerFits(p.ring, c);
    var y := if p.ring.slots[k].frame == c.frame then c.nv12 else None;
    NothingFits(p.ring.slots[k].w, p.ring.slots[k].h);
    assert Nv12Fits(y, p.ring.slots[k].w, p.ring.slots[k].h);
    hide RingInv, Steady, RenderCommit, Nv12Fits, RgbFits, JobFits, WorkerFits, FeederFits, ClaimedUpTo, SlotsFlow;
    FlowKept(p, p', k, None, y);
  }

  // ---------------------------------------------------------------- recorder, modes, shutdown

  /** A slot when the recorder has consumed everything up to frame q, with or without taking its picture. */
  function Taken(s: Slot, q: nat, steal: bool): Slot {
    Consumed(if steal then s.(nv12 := None) else s, q)
  }

  lemma ConsumedFlow(c: Control, s: Slot, q: nat, steal: bool, recSeq: nat, quiescing: bool, upTo: nat)
    requires MarkOk(s, recSeq) && DoneOk(s, quiescing, upTo) && SlotFits(s) && recSeq <= q
    ensures var s' := Cleaned(c, Taken(s, q, steal));
            && MarkOk(s', q) && DoneOk(s', quiescing, upTo) && SlotFits(s')
            && s'.frame == s.frame && s'.w == s.w && s'.h == s.h
  {
  }

  /** The recorder's pick lies beyond its cursor and was displayed. */
  lemma PickBounds(p: Pipe)
    requires RingInv(p) && EncodePick(p.ring, p.recSeq).Some?
    ensures p.recSeq < p.ring.slots[EncodePick(p.ring, p.recSeq).value].frame <= p.ring.ctl.displaySeq
  {
    var i := EncodePick(p.ring, p.recSeq).value;
    assert SlotOk(p.ring.ctl, ClaimedUpTo(p), Holders(p, p.ring.slots[i].frame), i, p.ring.slots[i]);
  }

  lemma TookRing(p: Pipe, sameSize: bool, env: nat -> bool)
    requires EncodePick(p.ring, p.recSeq).Some?
    ensures var p', i := RecorderTook(p, sameSize, env), EncodePick(p.ring, p.recSeq).value;
            && |p'.ring.slots| == |p.ring.slots| && p'.recSeq == p.ring.slots[i].frame
            && p'.ring.ctl == p.ring.ctl.(encodeSkipped := p'.ring.ctl.encodeSkipped)
            && forall j :: 0 <= j < |p.ring.slots| ==>
                 p'.ring.slots[j] == Cleaned(p'.ring.ctl, Taken(p.ring.slots[j], p'.recSeq, sameSize && j == i))
  {
    var p', i := RecorderTook(p, sameSize, env), EncodePick(p.ring, p.recSeq).value;
    var marked := Render.Marked(p.ring.slots, i, sameSize);
    assert p'.ring.slots == Maintain(p.ring.(slots := marked), env).slots;
    forall j | 0 <= j < |p.ring.slots|
      ensures p'.ring.slots[j] == Cleaned(p'.ring.ctl, Taken(p.ring.slots[j], p'.recSeq, sameSize && j == i))
    {
      Render.CleanedSameModes(p.ring.ctl, p'.ring.ctl, marked[j]);
    }
    hide Cleaned, Maintain;
  }

  /** The recorder moved its cursor to frame q, consuming every slot up to it. */
  lemma ConsumedAllFlow(p: Pipe, p': Pipe, i: nat, steal: bool)
    requires FlowInv(p) && p.recSeq <= p'.recSeq <= p.ring.ctl.displaySeq && p'.phase == p.phase
    requires |p'.ring.slots| == RING_N && p'.ring.ctl == p.ring.ctl.(encodeSkipped := p'.ring.ctl.encodeSkipped)
    requires forall j :: 0 <= j < RING_N ==>
               p'.ring.slots[j] == Cleaned(p'.ring.ctl, Taken(p.ring.slots[j], p'.recSeq, steal && j == i))
    requires p'.feeder == p.feeder && p'.queue == p.queue && p'.workers == p.workers && p'.composer == p.composer
    requires ClaimedUpTo(p') == ClaimedUpTo(p)
    ensures FlowInv(p')
  {
    hide MarkOk, DoneOk, SlotFits, ClaimedUpTo, FeederFits, ComposerFits, JobFits, WorkerFits, Cleaned, Taken;
    forall j | 0 <= j < RING_N
      ensures MarkOk(p'.ring.slots[j], p'.recSeq) && SlotFits(p'.ring.slots[j])
      ensures DoneOk(p'.ring.slots[j], p'.ring.ctl.quiescing, ClaimedUpTo(p'))
      ensures p'.ring.slots[j].frame == p.ring.slots[j].frame
      ensures p'.ring.slots[j].w == p.ring.slots[j].w && p'.ring.slots[j].h == p.ring.slots[j].h
    {
      ConsumedFlow(p'.ring.ctl, p.ring.slots[j], p'.recSeq, steal && j == i, p.recSeq, p.ring.ctl.quiescing, ClaimedUpTo(p));
    }
    HandsStay(p.ring, p'.ring, p.feeder, p.composer, p.queue.jobs, p.workers);
  }

  lemma RecorderFlow(p: Pipe, sameSize: bool, env: nat -> bool)
    requires RingInv(p) && FlowInv(p)
    ensures FlowInv(RecorderTook(p, sameSize, env))
  {
    var p' := RecorderTook(p, sameSize, env);
    var pick := EncodePick(p.ring, p.recSeq);
    assert |p.ring.slots| == RING_N;
    hide RingInv, FlowInv;
    if pick.Some? {
      PickBounds(p);
      TookRing(p, sameSize, env);
      hide Cleaned, Taken;
      ConsumedAllFlow(p, p', pick.value, sameSize);
    }
  }

  lemma ModeFlow(p: Pipe, p': Pipe, c: Control, env: nat -> bool)
    requires RingInv(p) && FlowInv(p)
    requires p' == if c == p.ring.ctl then p else p.(ring := Maintain(p.ring.(ctl := c), env))
    requires c == p.ring.ctl.(aiActive := c.aiActive, recActive := c.recActive)
    ensures FlowInv(p')
  {
    assert |p.ring.slots| == RING_N && ClaimedUpTo(p') == ClaimedUpTo(p);
    hide RingInv, FlowInv, ClaimedUpTo, Maintain;
    if c != p.ring.ctl {
      ModeSteady(p.ring, c, env);
      NothingFits(p.ring.slots[0].w, p.ring.slots[0].h);
      UnclaimFlow(p, p', 0, None);
    }
  }

  lemma DrainFlow(p: Pipe, env: nat -> bool)
    requires RingInv(p) && FlowInv(p)
    ensures FlowInv(DrainNext(p, env))
  {
    var p' := DrainNext(p, env);
    assert ClaimedUpTo(p') == ClaimedUpTo(p);
    if p.pool.Draining? && p.pool.next < |p.queue.jobs| && p.queue.jobs[p.pool.next].rgb.Some? {
      var job := p.queue.jobs[p.pool.next];
      assert p'.ring == Abandon(p.ring, job, env);
      hide Abandon, RingInv, SizeIs, ClaimedUpTo, SlotsFlow, FeederFits, ComposerFits, WorkerFits;
      AbandonSteady(p.ring, job, env);
      NothingFits(p.ring.slots[0].w, p.ring.slots[0].h);
      FlowKept(p, p', 0, None, None);
    } else {
      hide Abandon, RingInv, JobFits, ClaimedUpTo, SlotsFlow, FeederFits, ComposerFits, WorkerFits;
      AsideFlow(p, p');
    }
  }

  lemma OtherFlow(p: Pipe, s: Step, env: nat -> bool)
    requires RingInv(p) && FlowInv(p) && Enabled(p, s) && (s.RecorderReturn? || s.StopPool?)
    ensures FlowInv(Next(p, s, env))
  {
    var p' := Next(p, s, env);
    assert ClaimedUpTo(p') == ClaimedUpTo(p);
    hide RingInv, JobFits, WorkerFits, FeederFits, ComposerFits, ClaimedUpTo, SlotsFlow;
    AsideFlow(p, p');
  }

  // ---------------------------------------------------------------- all steps, all runs

  lemma PoolFlow(p: Pipe, s: Step, env: nat -> bool)
    requires RingInv(p) && FlowInv(p) && Enabled(p, s)
    requires s.FeederClaim? || s.FeederDecoded? || s.FeederHand? || s.WorkerPop? || s.WorkerExit? || s.WorkerAbandon?
             || s.WorkerWrite? || s.WorkerReport? || s.StopDrain?
    ensures FlowInv(Next(p, s, env))
  {
    hide RingInv, FlowInv;
    match s
    case FeederClaim(mallocOk) => ClaimFlow(p, mallocOk);
    case FeederDecoded(ok) => DecodedFlow(p, ok, env);
    case FeederHand => HandedFlow(p, env);
    case WorkerAbandon(_) => WorkerDoneFlow(p, s, env);
    case WorkerWrite(_) => WorkerDoneFlow(p, s, env);
    case StopDrain => DrainFlow(p, env);
    case _ => WorkerFlow(p, s, env);
  }

  lemma FlowStep(p: Pipe, s: Step, env: nat -> bool)
    requires RingInv(p) && FlowInv(p) && Enabled(p, s)
    ensures FlowInv(Next(p, s, env))
  {
    assert Shaped(p);
    hide RingInv, FlowInv;
    match s
    case CaptureFrame(w, h, fmt) => CaptureFlow(p, Next(p, s, env), w, h, fmt, Mmap(p.hand.vbuf), env);
    case CameraStop => StopFlow(p, env);
    case CameraClear => ClearFlow(p, env);
    case ComposerPop => ComposerFlow(p, s, env);
    case ComposerTake(_, _, _) => ComposerFlow(p, s, env);
    case ComposerRealloc(_) => ComposerFlow(p, s, env);
    case ComposerCommit(ok) => CommitFlow(p, ok, env);
    case RecorderTake(sameSize) => RecorderFlow(p, sameSize, env);
    case RecorderReturn => OtherFlow(p, s, env);
    case StopPool => OtherFlow(p, s, env);
    case SetAi(on) => ModeFlow(p, Next(p, s, env), p.ring.ctl.(aiActive := on), env);
    case SetRec(on) => ModeFlow(p, Next(p, s, env), p.ring.ctl.(recActive := on), env);
    case _ =>
      if s.Dequeue? || s.DriverGap? || s.ReturnBuffer? || s.StreamOff? || s.StreamOn? {
        CameraFlow(p, s, env);
      } else {
        PoolFlow(p, s, env);
      }
  }

  lemma StartFlow(p: Pipe)
    requires Init(p)
    ensures FlowInv(p)
  {
  }

  lemma {:induction false} RunFlow(ps: seq<Pipe>, ss: seq<Step>, env: nat -> bool, n: nat)
    requires Run(ps, ss, env) && n < |ps|
    ensures FlowInv(ps[n]) && RingInv(ps[n])
  {
    RunInv(ps, ss, env, n);
    hide FlowInv, RingInv, Init, Enabled, Next;
    if n == 0 {
      StartFlow(ps[0]);
    } else {
      RunFlow(ps, ss, env, n - 1);
      FlowStep(ps[n - 1], ss[n - 1], env);
    }
  }
}
