/**
 * What a reload of the inference pool does to the books: conservation holds within one pool lifetime
 * only, and a run shows how a buffer gets lost.
 */
module PipelineReload {
  import opened Common
  import opened FrameRingModel
  import opened FrameRingOps
  import opened Pipeline
  import opened PipelineInvariant
  import opened PipelineBooks
  import opened PipelineSafety

  // ---------------------------------------------------------------- reload

  /** The pool stopped and started again: fresh threads and queues, and the feeder's cursor back at 0. */
  function Reloaded(p: Pipe): Pipe {
    p.(pool := Running, workers := seq(|p.workers|, _ => Idle), results := [], lastSeq := 0)
  }

  /**
   * Buffer conservation does not survive a reload: with the cursor back at 0 the feeder claims
   * the oldest frame that still has raw data, even when its slot already owns a picture; the
   * write-back that follows then drops the pointer to that picture.
   */
  lemma ReloadReclaims(p: Pipe, f: nat, env: nat -> bool)
    requires PipeInv(p) && p.feeder.Waiting? && Claimable(p.ring, f)
    requires forall g :: 0 < g < f ==> !Claimable(p.ring, g)
    requires p.ring.slots[SlotIndex(f)].rgb.Some?
    ensures var p1 := Claimed(Reloaded(p), true);
            && p1.feeder.Decoding? && p1.feeder.frame == f && p1.feeder.rgb.Some?
            && exists b :: Account(WriteBack(p1.ring, Job(p1.feeder.rgb, 0, 0, f), env), Rgb, b)
                           < Account(p1.ring, Rgb, b) + Is(p1.feeder.rgb, b)
  {
    var p1 := Claimed(Reloaded(p), true);
    var q := NextClaim(p.ring, 0);
    assert q == f;
    var i := SlotIndex(f);
    var s := p1.ring.slots[i];
    var b := s.rgb.value;
    var s' := s.(rgb := p1.feeder.rgb, rgbDone := true);
    assert p1.ring.slots[i := s'][i := Unclaimed(s')] == p1.ring.slots[i := Unclaimed(s')];
    SlotStepBooks(p1.ring, i, Unclaimed(s'), p1.ring.ctl, p1.ring.store, env, Rgb, b, Heap(0));
    assert Account(WriteBack(p1.ring, Job(p1.feeder.rgb, 0, 0, f), env), Rgb, b) + 1
        == Account(p1.ring, Rgb, b) + Is(p1.feeder.rgb, b);
  }

  // ---------------------------------------------------------------- traces

  /** One critical section. */
  ghost predicate StepsTo(p: Pipe, s: Step, p': Pipe, env: nat -> bool) {
    Shaped(p) && Enabled(p, s) && p' == Next(p, s, env)
  }

  /** Consecutive critical sections from any state. */
  ghost predicate Trace(ps: seq<Pipe>, ss: seq<Step>, env: nat -> bool) {
    |ps| == |ss| + 1 && forall i :: 0 <= i < |ss| ==> StepsTo(ps[i], ss[i], ps[i + 1], env)
  }

  /** From program start a trace is a run. */
  lemma TraceIsRun(ps: seq<Pipe>, ss: seq<Step>, env: nat -> bool)
    requires Trace(ps, ss, env) && Init(ps[0])
    ensures Run(ps, ss, env)
  {
    hide Init, Shaped, Enabled, Next;
    forall i | 0 <= i < |ss| ensures Shaped(ps[i]) && Enabled(ps[i], ss[i]) && ps[i + 1] == Next(ps[i], ss[i], env) {
      assert StepsTo(ps[i], ss[i], ps[i + 1], env);
    }
  }

  lemma TraceOne(p: Pipe, env: nat -> bool)
    ensures Trace([p], [], env)
  {
    hide StepsTo;
  }

  lemma TraceSnoc(ps: seq<Pipe>, ss: seq<Step>, s: Step, p: Pipe, env: nat -> bool)
    requires Trace(ps, ss, env) && StepsTo(ps[|ps| - 1], s, p, env)
    ensures Trace(ps + [p], ss + [s], env)
  {
    hide StepsTo;
  }

  lemma TraceJoin(ps: seq<Pipe>, ss: seq<Step>, qs: seq<Pipe>, ts: seq<Step>, env: nat -> bool)
    requires Trace(ps, ss, env) && Trace(qs, ts, env) && ps[|ps| - 1] == qs[0]
    ensures Trace(ps + qs[1..], ss + ts, env)
  {
    hide StepsTo;
    var rs, us := ps + qs[1..], ss + ts;
    forall i | 0 <= i < |us| ensures StepsTo(rs[i], us[i], rs[i + 1], env) {
      if i >= |ss| {
        assert us[i] == ts[i - |ss|] && rs[i] == qs[i - |ss|] && rs[i + 1] == qs[i + 1 - |ss|];
      }
    }
  }

  // ---------------------------------------------------------------- when a reload is safe

  /** The pool is drained and its threads are joined; the feeder is between two frames. */
  ghost predicate AtReload(p: Pipe) {
    p.pool.Stopped? && p.feeder.Waiting? && forall i :: 0 <= i < |p.workers| ==> p.workers[i].Exited?
  }

  /** No slot owns a picture and still has the raw data it was decoded from. */
  predicate SafeToReload(p: Pipe) {
    forall i :: 0 <= i < |p.ring.slots| ==> p.ring.slots[i].raw.None? || p.ring.slots[i].rgb.None?
  }

  lemma NobodyHolds(p: Pipe, f: nat)
    requires AtReload(p) && forall j :: 0 <= j < |p.queue.jobs| ==> p.queue.jobs[j].rgb.None?
    ensures Holders(p, f) == 0 && Holders(Reloaded(p), f) == 0
  {
    CountNone(JobFrames(p.queue.jobs), f);
    CountNone(WorkerFrames(p.workers), f);
    CountNone(WorkerFrames(Reloaded(p).workers), f);
  }

  lemma ReloadedPlaces(p: Pipe, k: Kind, b: Buf)
    requires AtReload(p)
    ensures Places(Reloaded(p), k, b) == Places(p, k, b)
  {
    CountNone(WorkerBufs(p.workers), b);
    CountNone(WorkerBufs(Reloaded(p).workers), b);
  }

  /** A safe reload starts the next pool lifetime in a legal state. */
  lemma SafeReload(p: Pipe)
    requires PipeInv(p) && AtReload(p) && SafeToReload(p)
    ensures PipeInv(Reloaded(p))
  {
    var p' := Reloaded(p);
    forall f: nat ensures Holders(p, f) == 0 && Holders(p', f) == 0 { NobodyHolds(p, f); }
    hide Holders;
    forall k, b ensures Places(p', k, b) == Allocated(p'.ring.store, k, b) { ReloadedPlaces(p, k, b); }
    hide Places;
    forall i | 0 <= i < RING_N
      ensures SlotOk(p'.ring.ctl, ClaimedUpTo(p'), Holders(p', p'.ring.slots[i].frame), i, p'.ring.slots[i])
    {
      var s := p.ring.slots[i];
      assert SlotOk(p.ring.ctl, ClaimedUpTo(p), Holders(p, s.frame), i, s);
    }
    forall v: nat ensures DriverPlaces(p', v) == DriverPlaces(p, v) {}
  }

  lemma {:induction false} TraceInv(ps: seq<Pipe>, ss: seq<Step>, env: nat -> bool, n: nat)
    requires Trace(ps, ss, env) && PipeInv(ps[0]) && n < |ps|
    ensures PipeInv(ps[n])
  {
    hide PipeInv, Shaped, Enabled, Next;
    if n > 0 {
      TraceInv(ps, ss, env, n - 1);
      assert StepsTo(ps[n - 1], ss[n - 1], ps[n], env);
      PipeInvStep(ps[n - 1], ss[n - 1], env);
    }
  }

  /** The feeder will come to frame f, whose slot can be claimed although it owns a picture. */
  ghost predicate Doomed(p: Pipe, f: nat) {
    && Shaped(p) && FixedPoint(p.ring) && p.feeder.Waiting? && p.pool.Running? && p.queue.count == 0
    && |p.workers| > 0 && p.workers[0].Idle?
    && p.lastSeq < f && Claimable(p.ring, f)
    && p.ring.slots[SlotIndex(f)].rgb.Some? && p.ring.slots[SlotIndex(f)].claims == 0
  }

  /** An earlier frame is claimed and given up because its data cannot be decoded. */
  lemma PassOver(p: Pipe, f: nat, env: nat -> bool) returns (p1: Pipe, p2: Pipe)
    requires Doomed(p, f) && NextClaim(p.ring, p.lastSeq) < f
    ensures StepsTo(p, FeederClaim(false), p1, env) && StepsTo(p1, FeederDecoded(false), p2, env)
    ensures Doomed(p2, f) && p2.lastSeq > p.lastSeq
  {
    var q := NextClaim(p.ring, p.lastSeq);
    p1 := Next(p, FeederClaim(false), env);
    assert p1.feeder.Decoding? && p1.feeder.frame == q && p1.ring.ctl == p.ring.ctl;
    p2 := Next(p1, FeederDecoded(false), env);
    assert p2.lastSeq == q;
    assert SlotIndex(q) != SlotIndex(f);
    assert p1.ring.slots[SlotIndex(f)] == p.ring.slots[SlotIndex(f)];
    MaintainEffect(Ring(p1.ring.slots[SlotIndex(q) := Unclaimed(p1.ring.slots[SlotIndex(q)])],
                        p2.ring.ctl, Put(p1.ring.store, Rgb, p1.feeder.rgb, env)), env, Rgb, Buf(0, 0), Heap(0));
  }

  /** In the ring's books a write-back replaces the picture it finds by its own. */
  lemma WriteBackReplaces(r: Ring, job: Job, env: nat -> bool, b: Buf)
    requires |r.slots| == RING_N
    requires var s := r.slots[SlotIndex(job.frame)]; s.frame == job.frame && s.claims > 0 && s.rgb == Some(b)
    ensures var r' := WriteBack(r, job, env);
            Account(r', Rgb, b) + 1 == Account(r, Rgb, b) + Is(job.rgb, b) && r'.store.alloc == r.store.alloc
  {
    var i := SlotIndex(job.frame);
    var s := r.slots[i];
    var s' := s.(rgb := job.rgb, rgbDone := true);
    assert r.slots[i := s'][i := Unclaimed(s')] == r.slots[i := Unclaimed(s')];
    SlotStepBooks(r, i, Unclaimed(s'), r.ctl, r.store, env, Rgb, b, Heap(0));
  }

  /** The write-back over a picture takes one place away from it. */
  lemma Overwritten(p: Pipe, job: Job, env: nat -> bool) returns (p': Pipe)
    requires Shaped(p) && |p.workers| > 0 && p.workers[0] == Inferring(job)
    requires var s := p.ring.slots[SlotIndex(job.frame)]; s.frame == job.frame && s.claims > 0 && s.rgb.Some?
    ensures StepsTo(p, WorkerWrite(0), p', env)
    ensures !BooksOk(p) || !BooksOk(p')
  {
    var b := p.ring.slots[SlotIndex(job.frame)].rgb.value;
    p' := Next(p, WorkerWrite(0), env);
    WriteBackReplaces(p.ring, job, env, b);
    WorkerBufsUpdate(p.workers, 0, Reporting(job.frame), b);
    hide WriteBack, Account, Count;
    assert Places(p', Rgb, b) + 1 == Places(p, Rgb, b);
    assert Allocated(p'.ring.store, Rgb, b) == Allocated(p.ring.store, Rgb, b);
  }

  /** The frame with the picture is claimed, decoded, handed to a worker and written back. */
  lemma ClaimAgain(p: Pipe, f: nat, env: nat -> bool) returns (ps: seq<Pipe>, ss: seq<Step>)
    requires Doomed(p, f) && NextClaim(p.ring, p.lastSeq) == f
    ensures Trace(ps, ss, env) && ps[0] == p && |ps| == 6
    ensures !BooksOk(ps[4]) || !BooksOk(ps[5])
  {
    var p1 := ClaimPictured(p, f, env);
    var p2 := DecodePictured(p1, env);
    var p3, p4 := HandOn(p2, env);
    var p5 := Overwritten(p4, p2.feeder.job, env);
    hide Doomed, StepsTo, Shaped, BooksOk, SlotIndex, NextClaim;
    ps := [p, p1, p2, p3, p4, p5];
    ss := [FeederClaim(true), FeederDecoded(true), FeederHand, WorkerPop(0), WorkerWrite(0)];
  }

  lemma ClaimPictured(p: Pipe, f: nat, env: nat -> bool) returns (p1: Pipe)
    requires Doomed(p, f) && NextClaim(p.ring, p.lastSeq) == f
    ensures StepsTo(p, FeederClaim(true), p1, env) && |p1.ring.slots| == RING_N
    ensures p1.feeder.Decoding? && p1.feeder.frame == f && p1.feeder.rgb.Some?
    ensures p1.pool.Running? && p1.queue == p.queue && p1.workers == p.workers && p1.lastSeq == f - 1
    ensures p1.ring.ctl == p.ring.ctl
    ensures p1.ring.slots[SlotIndex(f)] == p.ring.slots[SlotIndex(f)].(claims := 1)
  {
    var s := p.ring.slots[SlotIndex(f)];
    TakeShelved(p.ring.store, Rgb, FrameBytes(s.w, s.h) * 3, true, Rgb, Buf(0, 0));
    hide NextClaim, Take, FixedPoint, SlotIndex;
    p1 := Next(p, FeederClaim(true), env);
  }

  lemma DecodePictured(p: Pipe, env: nat -> bool) returns (p1: Pipe)
    requires Shaped(p) && p.feeder.Decoding? && p.feeder.rgb.Some? && p.feeder.frame <= p.ring.ctl.produceSeq
    ensures StepsTo(p, FeederDecoded(true), p1, env) && Shaped(p1)
    ensures p1.feeder.Handing? && p1.feeder.job.frame == p.feeder.frame && p1.feeder.job.rgb.Some?
    ensures p1.pool == p.pool && p1.queue == p.queue && p1.workers == p.workers && p1.ring == p.ring
  {
    p1 := Next(p, FeederDecoded(true), env);
  }

  lemma HandOn(p: Pipe, env: nat -> bool) returns (p1: Pipe, p2: Pipe)
    requires Shaped(p) && p.feeder.Handing? && p.pool.Running? && p.queue.count == 0
    requires |p.workers| > 0 && p.workers[0].Idle?
    ensures StepsTo(p, FeederHand, p1, env) && StepsTo(p1, WorkerPop(0), p2, env)
    ensures Shaped(p2) && p2.ring == p.ring && |p2.workers| > 0 && p2.workers[0] == Inferring(p.feeder.job)
  {
    p1 := Next(p, FeederHand, env);
    p2 := Next(p1, WorkerPop(0), env);
  }

  lemma {:induction false} UnsafeLoses(p: Pipe, f: nat, env: nat -> bool) returns (ps: seq<Pipe>, ss: seq<Step>)
    requires Doomed(p, f)
    ensures Trace(ps, ss, env) && ps[0] == p && exists n :: 0 <= n < |ps| && !BooksOk(ps[n])
    decreases f - p.lastSeq
  {
    var q := NextClaim(p.ring, p.lastSeq);
    if q == f {
      ps, ss := ClaimAgain(p, f, env);
    } else {
      var p1, p2 := PassOver(p, f, env);
      var qs, ts := UnsafeLoses(p2, f, env);
      ps, ss := TracePrepend(p, FeederClaim(false), p1, FeederDecoded(false), qs, ts, env);
    }
  }

  lemma TracePrepend(p: Pipe, s: Step, p1: Pipe, s1: Step, qs: seq<Pipe>, ts: seq<Step>, env: nat -> bool)
    returns (ps: seq<Pipe>, ss: seq<Step>)
    requires Trace(qs, ts, env) && StepsTo(p, s, p1, env) && StepsTo(p1, s1, qs[0], env)
    requires exists n :: 0 <= n < |qs| && !BooksOk(qs[n])
    ensures Trace(ps, ss, env) && ps[0] == p && exists n :: 0 <= n < |ps| && !BooksOk(ps[n])
  {
    hide StepsTo, BooksOk;
    var n :| 0 <= n < |qs| && !BooksOk(qs[n]);
    ps, ss := [p, p1] + qs, [s, s1] + ts;
    assert ps == [p, p1, qs[0]] + qs[1..];
    assert Trace([p, p1, qs[0]], [s, s1], env);
    TraceJoin([p, p1, qs[0]], [s, s1], qs, ts, env);
    assert ps[n + 2] == qs[n];
  }

  /**
   * Buffer conservation survives a reload of the pool if and only if no slot has both its raw data
   * and a picture when the pool is started again.
   */
  lemma ReloadConservesIff(p: Pipe, env: nat -> bool)
    requires PipeInv(p) && AtReload(p) && !p.ring.ctl.quiescing && |p.workers| > 0
    ensures (forall ps, ss, n :: Trace(ps, ss, env) && ps[0] == Reloaded(p) && 0 <= n < |ps| ==> BooksOk(ps[n]))
            <==> SafeToReload(p)
  {
    if SafeToReload(p) {
      SafeReload(p);
      forall ps, ss, n | Trace(ps, ss, env) && ps[0] == Reloaded(p) && 0 <= n < |ps| ensures BooksOk(ps[n]) {
        TraceInv(ps, ss, env, n);
      }
    } else {
      var i :| 0 <= i < |p.ring.slots| && p.ring.slots[i].raw.Some? && p.ring.slots[i].rgb.Some?;
      var f := p.ring.slots[i].frame;
      UnsafeIsDoomed(p, i);
      hide PipeInv, Doomed, BooksOk, AtReload;
      var ps, ss := UnsafeLoses(Reloaded(p), f, env);
    }
  }

  lemma UnsafeIsDoomed(p: Pipe, i: nat)
    requires PipeInv(p) && AtReload(p) && !p.ring.ctl.quiescing && |p.workers| > 0
    requires i < |p.ring.slots| && p.ring.slots[i].raw.Some? && p.ring.slots[i].rgb.Some?
    ensures Doomed(Reloaded(p), p.ring.slots[i].frame)
  {
    var s := p.ring.slots[i];
    assert SlotOk(p.ring.ctl, ClaimedUpTo(p), Holders(p, s.frame), i, s);
    assert s.frame != 0 && SlotIndex(s.frame) == i;
  }

  // ---------------------------------------------------------------- an unsafe reload happens

  function EmptySlots(): (slots: seq<Slot>)
    ensures |slots| == RING_N && forall i :: 0 <= i < RING_N ==> slots[i] == EMPTY_SLOT
  {
    seq(RING_N, _ => EMPTY_SLOT)
  }

  /** The ring when frame 1, of 4 by 2 pixels, is the only frame ever captured. */
  function RingOf(s: Slot, ai: bool, st: Store): Ring {
    Ring(EmptySlots()[1 := s], Control(1, 0, ai, false, false, 0, 0, 0, 0, 0), st)
  }

  /** Nothing pooled or freed; the given allocations and driver queue. */
  function StoreOf(alloc: seq<Block>, queued: multiset<Raw>): Store {
    Store(PerKind([], [], []), 0, alloc, PerKind(multiset{}, multiset{}, multiset{}), queued)
  }

  const RAW_SLOT: Slot := FrameSlot(1, 4, 2, 0, Mmap(0))
  const PICTURE: Buf := Buf(0, 24)
  const PICTURE_SLOT: Slot := RAW_SLOT.(rgb := Some(PICTURE), rgbDone := true, inferDone := true)
  const JOB: Job := Job(Some(PICTURE), 4, 2, 1)
  const OLD_JOB: Job := JOB.(rgb := None)
  const RAN: Store := StoreOf([Block(Rgb, 24)], multiset{Mmap(1)})

  /** The pipeline with everything idle but the parts given. */
  function PipeOf(r: Ring, pool: PoolPhase, q: JobQueue, f: Feeder, ws: seq<Worker>, last: nat, rs: seq<nat>): Pipe {
    Pipe(r, Streaming, 2, Empty, pool, q, f, ws, last, rs, Resting, 0, Polling, 0, 0, [], [])
  }

  function Jobs(first: Job, head: nat, tail: nat, count: nat): JobQueue {
    JobQueue([first, NO_JOB, NO_JOB, NO_JOB], head, tail, count)
  }

  const NO_JOBS: JobQueue := Jobs(NO_JOB, 0, 0, 0)
  const ALL_IDLE: seq<Worker> := [Idle, Idle, Idle]

  /** Before the first frame, with the given buffers queued in the driver. */
  function Bare(queued: multiset<Raw>): Pipe {
    PipeOf(Ring(EmptySlots(), Control(0, 0, true, false, false, 0, 0, 0, 0, 0), StoreOf([], queued)),
           Running, NO_JOBS, Waiting, ALL_IDLE, 0, [])
  }

  /** The states once the pool is stopping. */
  function StopState(pool: PoolPhase, ai: bool, ws: seq<Worker>): Pipe {
    PipeOf(RingOf(PICTURE_SLOT, ai, RAN), pool,
           if pool.Stopped? then Jobs(OLD_JOB, 0, 0, 0) else Jobs(OLD_JOB, 1, 1, 0),
           Waiting, ws, 1, [1])
  }

  const LAST: nat := 20

  /** One frame is captured, claimed, decoded and written back, and the pool is stopped. */
  function StepAt(n: nat): Step
    requires n < LAST
  {
    match n
    case 0 => StreamOn(2)
    case 1 => Dequeue(0)
    case 2 => CaptureFrame(4, 2, 0)
    case 3 => FeederClaim(true)
    case 4 => FeederDecoded(true)
    case 5 => FeederHand
    case 6 => WorkerPop(0)
    case 7 => WorkerWrite(0)
    case 8 => WorkerReport(0)
    case 9 => StopPool
    case 10 => SetAi(false)
    case 11 => WorkerExit(0)
    case 12 => WorkerExit(1)
    case 13 => WorkerExit(2)
    case _ => StopDrain
  }

  function StateAt(n: nat): Pipe
    requires n <= LAST
  {
    match n
    case 0 => Bare(multiset{}).(phase := Off, nbuffers := 0)
    case 1 => Bare(multiset{Mmap(0), Mmap(1)})
    case 2 => Bare(multiset{Mmap(1)}).(hand := Fresh(0))
    case 3 => PipeOf(RingOf(RAW_SLOT, true, StoreOf([], multiset{Mmap(1)})), Running, NO_JOBS, Waiting, ALL_IDLE, 0, [])
    case 4 => PipeOf(RingOf(RAW_SLOT.(claims := 1), true, RAN), Running, NO_JOBS,
                     Decoding(1, 4, 2, Some(PICTURE)), ALL_IDLE, 0, [])
    case 5 => PipeOf(RingOf(RAW_SLOT.(claims := 1), true, RAN), Running, NO_JOBS, Handing(JOB), ALL_IDLE, 1, [])
    case 6 => PipeOf(RingOf(RAW_SLOT.(claims := 1), true, RAN), Running, Jobs(JOB, 0, 1, 1), Waiting, ALL_IDLE, 1, [])
    case 7 => PipeOf(RingOf(RAW_SLOT.(claims := 1), true, RAN), Running, Jobs(OLD_JOB, 1, 1, 0), Waiting,
                     [Inferring(JOB), Idle, Idle], 1, [])
    case 8 => PipeOf(RingOf(PICTURE_SLOT, true, RAN), Running, Jobs(OLD_JOB, 1, 1, 0), Waiting,
                     [Reporting(1), Idle, Idle], 1, [])
    case 9 => StopState(Running, true, ALL_IDLE)
    case 10 => StopState(Stopping, true, ALL_IDLE)
    case 11 => StopState(Stopping, false, ALL_IDLE)
    case 12 => StopState(Stopping, false, [Exited, Idle, Idle])
    case 13 => StopState(Stopping, false, [Exited, Exited, Idle])
    case 14 => StopState(Stopping, false, [Exited, Exited, Exited])
    case 20 => StopState(Stopped, false, [Exited, Exited, Exited])
    case _ => StopState(Draining(n - 15), false, [Exited, Exited, Exited])
  }

  lemma RingRests(s: Slot, ai: bool, st: Store, env: nat -> bool)
    requires s.frame == 1 && s.nv12.None? && s.jpeg.None?
    ensures Maintain(RingOf(s, ai, st), env) == RingOf(s, ai, st)
  {
    var r := RingOf(s, ai, st);
    forall i | 0 <= i < |r.slots| ensures Cleaned(r.ctl, r.slots[i]) == r.slots[i] {}
    FixedPointUnchanged(r, |r.slots|, env);
  }

  lemma StreamSteps(n: nat, env: nat -> bool)
    requires n < 2
    ensures StepsTo(StateAt(n), StepAt(n), StateAt(n + 1), env)
  {
    var m: multiset<Raw> := multiset{};
    assert DriverReset(m, 0, 1) == m;
    assert DriverReset(m, 1, 1) == multiset{Mmap(0)};
    assert DriverReset(m, 2, 1) == multiset{Mmap(0), Mmap(1)};
    assert multiset{Mmap(0), Mmap(1)} - multiset{Mmap(0)} == multiset{Mmap(1)};
  }

  lemma CaptureFirst(r: Ring, env: nat -> bool)
    requires r.slots == EmptySlots() && r.ctl == Control(0, 0, true, false, false, 0, 0, 0, 0, 0)
    ensures Capture(r, 4, 2, 0, Mmap(0), env) == (RingOf(RAW_SLOT, true, r.store), true)
  {
    assert FixedPoint(r);
    CaptureAtRest(r, 4, 2, 0, Mmap(0), env);
    RingRests(RAW_SLOT, true, r.store, env);
    hide Maintain, Capture, FixedPoint;
    assert Published(r, RAW_SLOT) == RingOf(RAW_SLOT, true, r.store);
  }

  lemma CaptureStep(env: nat -> bool)
    ensures StepsTo(StateAt(2), StepAt(2), StateAt(3), env)
  {
    hide Capture;
    CaptureFirst(StateAt(2).ring, env);
  }

  lemma DecodeSteps(n: nat, env: nat -> bool)
    requires 3 <= n < 7
    ensures StepsTo(StateAt(n), StepAt(n), StateAt(n + 1), env)
  {
    var p := StateAt(n);
    match n
    case 3 =>
      assert NextClaim(p.ring, 0) == 1;
      assert InferClaim(p.ring, 1).slots == RingOf(RAW_SLOT.(claims := 1), true, RAN).slots;
      assert FirstFit([], 24) == 0;
      assert [] + [Block(Rgb, 24)] == [Block(Rgb, 24)];
    case _ =>
  }

  lemma WriteStep(env: nat -> bool)
    ensures StepsTo(StateAt(7), StepAt(7), StateAt(8), env)
  {
    var p := StateAt(7);
    RingRests(PICTURE_SLOT, true, RAN, env);
    var s := RAW_SLOT.(claims := 1, rgb := Some(PICTURE), rgbDone := true);
    assert p.ring.slots[1 := s][1 := Unclaimed(s)] == RingOf(PICTURE_SLOT, true, RAN).slots;
    assert [Inferring(JOB), Idle, Idle][0 := Reporting(1)] == [Reporting(1), Idle, Idle];
    hide Maintain;
  }

  lemma DrainSteps(n: nat, env: nat -> bool)
    requires 14 <= n < LAST
    ensures StepsTo(StateAt(n), StepAt(n), StateAt(n + 1), env)
  {
    hide Abandon;
  }

  lemma ExitSteps(n: nat, env: nat -> bool)
    requires 11 <= n < 14
    ensures StepsTo(StateAt(n), StepAt(n), StateAt(n + 1), env)
  {
    assert [Idle, Idle, Idle][0 := Exited] == [Exited, Idle, Idle];
    assert [Exited, Idle, Idle][1 := Exited] == [Exited, Exited, Idle];
    assert [Exited, Exited, Idle][2 := Exited] == [Exited, Exited, Exited];
  }

  lemma StopSteps(n: nat, env: nat -> bool)
    requires 8 <= n < 11
    ensures StepsTo(StateAt(n), StepAt(n), StateAt(n + 1), env)
  {
    hide Maintain;
    if n == 8 {
      assert [Reporting(1), Idle, Idle][0 := Idle] == [Idle, Idle, Idle] && [] + [1] == [1];
    } else if n == 10 {
      RingRests(PICTURE_SLOT, false, RAN, env);
    }
  }

  lemma RunStep(n: nat, env: nat -> bool)
    requires n < LAST
    ensures StepsTo(StateAt(n), StepAt(n), StateAt(n + 1), env)
  {
    hide *;
    if n < 2 {
      StreamSteps(n, env);
    } else if n == 2 {
      CaptureStep(env);
    } else if n < 7 {
      DecodeSteps(n, env);
    } else if n == 7 {
      WriteStep(env);
    } else if n < 11 {
      StopSteps(n, env);
    } else if n < 14 {
      ExitSteps(n, env);
    } else {
      DrainSteps(n, env);
    }
  }

  lemma {:induction false} RunUpTo(n: nat, env: nat -> bool) returns (ps: seq<Pipe>, ss: seq<Step>)
    requires n <= LAST
    ensures Trace(ps, ss, env) && |ps| == |ss| + 1 == n + 1 && ps[0] == StateAt(0) && ps[n] == StateAt(n)
  {
    hide *;
    if n == 0 {
      ps, ss := [StateAt(0)], [];
      TraceOne(StateAt(0), env);
    } else {
      var qs, ts := RunUpTo(n - 1, env);
      RunStep(n - 1, env);
      TraceSnoc(qs, ts, StepAt(n - 1), StateAt(n), env);
      ps, ss := qs + [StateAt(n)], ts + [StepAt(n - 1)];
    }
  }

  /** A run of the program that comes to an unsafe reload: the newest frame's raw data stays readable. */
  lemma UnsafeReloadReached(env: nat -> bool) returns (ps: seq<Pipe>, ss: seq<Step>)
    ensures Run(ps, ss, env)
    ensures var p := ps[|ps| - 1];
            AtReload(p) && !p.ring.ctl.quiescing && |p.workers| == 3 && !SafeToReload(p)
  {
    hide *;
    ps, ss := RunUpTo(LAST, env);
    EndsOfRun();
    TraceIsRun(ps, ss, env);
  }

  lemma EndsOfRun()
    ensures Init(StateAt(0))
    ensures var p := StateAt(LAST);
            AtReload(p) && !p.ring.ctl.quiescing && |p.workers| == 3 && !SafeToReload(p)
  {
    assert StateAt(0).ring.slots == seq(RING_N, _ => EMPTY_SLOT);
    assert StateAt(LAST).ring.slots[1] == PICTURE_SLOT;
  }

  /** So the program loses pictures: some run, a reload, and some further steps break the books. */
  lemma ReloadLosesPicture(env: nat -> bool)
    returns (ps: seq<Pipe>, ss: seq<Step>, qs: seq<Pipe>, ts: seq<Step>, n: nat)
    ensures Run(ps, ss, env) && Trace(qs, ts, env) && qs[0] == Reloaded(ps[|ps| - 1])
    ensures n < |qs| && !BooksOk(qs[n])
  {
    ps, ss := UnsafeReloadReached(env);
    var p := ps[|ps| - 1];
    RunInv(ps, ss, env, |ps| - 1);
    ReloadConservesIff(p, env);
    hide Run, Trace, BooksOk, PipeInv, SafeToReload, AtReload, Reloaded;
    qs, ts, n :| Trace(qs, ts, env) && qs[0] == Reloaded(p) && 0 <= n < |qs| && !BooksOk(qs[n]);
  }
}
