/**
 * The pipeline that runs on the frame ring: camera thread, AI feeder, inference workers,
 * render composer, recorder, pool shutdown and camera restart.  A state holds what every
 * thread owns between two critical sections; a step is one critical section, with the
 * outcome of allocations, decoding, inference and driver calls as its arguments.
 */
module Pipeline {
  import opened Common
  import opened FrameRingModel
  import opened FrameRingOps

  const QUEUE_CAP: nat := 4
  const RESULT_CAP: nat := 8
  const JPEG_CAP: nat := 64 * 1024

  /** A decoded frame on its way to a worker: it owns `rgb` and the claim on its slot. */
  datatype Job = Job(rgb: Option<Buf>, w: int, h: int, frame: nat)

  datatype JobQueue = JobQueue(jobs: seq<Job>, head: nat, tail: nat, count: nat)

  datatype Feeder =
    | Waiting
    | Decoding(frame: nat, w: int, h: int, rgb: Option<Buf>)
    | Handing(job: Job)

  datatype Worker = Idle | Inferring(job: Job) | Reporting(frame: nat) | Exited

  /** While rendering, `rgb` is the slot pointer read at the pick and `epoch` the clears so far. */
  datatype Composer =
    | Resting
    | Chosen(frame: nat, drained: bool)
    | Rendering(frame: nat, w: int, h: int, rgb: Buf, nv12: Option<Buf>, jpeg: Option<Buf>, epoch: nat)

  datatype Recorder = Polling | Encoding(nv12: Buf)

  datatype Hand = Empty | Fresh(vbuf: nat) | Refused(vbuf: nat)

  datatype Phase = Off | Streaming | Quiescing | Cleared

  datatype PoolPhase = Running | Stopping | Draining(next: nat) | Stopped

  datatype Pipe = Pipe(
    ring: Ring,
    phase: Phase, nbuffers: nat, hand: Hand,
    pool: PoolPhase, queue: JobQueue, feeder: Feeder, workers: seq<Worker>, lastSeq: nat,
    results: seq<nat>, composer: Composer, nextSeq: nat,
    recorder: Recorder, recSeq: nat,
    clears: nat, shown: seq<nat>, stolen: seq<nat>)

  datatype Step =
    | Dequeue(vbuf: nat)
    | DriverGap(n: nat)
    | ReturnBuffer
    | CaptureFrame(w: int, h: int, fmt: int)
    | CameraStop | CameraClear | StreamOff | StreamOn(n: nat)
    | FeederClaim(mallocOk: bool)
    | FeederDecoded(decodeOk: bool)
    | FeederHand
    | WorkerPop(i: nat) | WorkerExit(i: nat) | WorkerAbandon(i: nat) | WorkerWrite(i: nat) | WorkerReport(i: nat)
    | ComposerPop
    | ComposerTake(nvOk: bool, wantJpeg: bool, jpOk: bool)
    | ComposerRealloc(cap: nat)
    | ComposerCommit(ok: bool)
    | RecorderTake(sameSize: bool) | RecorderReturn
    | SetAi(on: bool) | SetRec(on: bool)
    | StopPool | StopDrain

  // ---------------------------------------------------------------- driver buffers

  /** STREAMOFF: the driver takes all its buffers back, none is queued any more. */
  function DriverReset(m: multiset<Raw>, n: nat, each: nat): multiset<Raw> {
    if n == 0 then m else DriverReset(m, n - 1, each)[Mmap(n - 1) := each]
  }

  lemma {:induction false} DriverResetAt(m: multiset<Raw>, n: nat, each: nat, v: nat)
    ensures DriverReset(m, n, each)[Mmap(v)] == if v < n then each else m[Mmap(v)]
  {
    if n > 0 {
      DriverResetAt(m, n - 1, each, v);
    }
  }

  function Queued(r: Ring, v: nat): Ring {
    r.(store := r.store.(returned := r.store.returned + multiset{Mmap(v)}))
  }

  function Unqueued(r: Ring, v: nat): Ring {
    r.(store := r.store.(returned := r.store.returned - multiset{Mmap(v)}))
  }

  // ---------------------------------------------------------------- job queue

  const NO_JOB: Job := Job(None, 0, 0, 0)

  function Enqueue(q: JobQueue, job: Job): JobQueue
    requires q.tail < |q.jobs|
  {
    JobQueue(q.jobs[q.tail := job], q.head, (q.tail + 1) % QUEUE_CAP, q.count + 1)
  }

  function Pop(q: JobQueue): (JobQueue, Job)
    requires q.head < |q.jobs| && q.count > 0
  {
    var job := q.jobs[q.head];
    (JobQueue(q.jobs[q.head := job.(rgb := None)], (q.head + 1) % QUEUE_CAP, q.tail, q.count - 1), job)
  }

  /** Array position j holds the k-th queued job for some k < count. */
  predicate Live(q: JobQueue, j: nat) {
    var k := if j >= q.head then j - q.head else j + QUEUE_CAP - q.head;
    k < q.count
  }

  ghost predicate QueueOk(q: JobQueue) {
    && |q.jobs| == QUEUE_CAP && q.head < QUEUE_CAP && q.tail < QUEUE_CAP && q.count <= QUEUE_CAP
    && q.tail == (q.head + q.count) % QUEUE_CAP
  }

  /** The array entries that still own a buffer are exactly the queued ones. */
  ghost predicate LiveIsOwned(q: JobQueue) {
    forall j :: 0 <= j < |q.jobs| ==> (q.jobs[j].rgb.Some? <==> Live(q, j))
  }

  // ---------------------------------------------------------------- client critical sections

  /** Gives up a job: drops its claim if the slot still belongs to it, and returns the buffer. */
  function Abandon(r: Ring, job: Job, env: nat -> bool): Ring
    requires |r.slots| == RING_N
  {
    var i := SlotIndex(job.frame);
    var s := r.slots[i];
    var r1 := if s.frame == job.frame && s.claims > 0 then InferUnclaim(r, i, true, env) else r;
    r1.(store := Put(r1.store, Rgb, job.rgb, env))
  }

  function WriteBack(r: Ring, job: Job, env: nat -> bool): Ring
    requires |r.slots| == RING_N
  {
    var i := SlotIndex(job.frame);
    var s := r.slots[i];
    if s.frame == job.frame && s.claims > 0 then
      InferUnclaim(WithSlot(r, i, s.(rgb := job.rgb, rgbDone := true)), i, true, env)
    else
      r.(store := Put(r.store, Rgb, job.rgb, env))
  }

  /** The next frame the feeder can claim after `last`; produceSeq + 1 when there is none. */
  function NextClaim(r: Ring, last: nat): (q: nat)
    requires |r.slots| == RING_N
    ensures q > last
    ensures q <= r.ctl.produceSeq ==> Claimable(r, q)
    ensures last <= r.ctl.produceSeq ==> q <= r.ctl.produceSeq + 1
    ensures forall f :: last < f < q ==> f > r.ctl.produceSeq || !Claimable(r, f)
    decreases r.ctl.produceSeq - last
  {
    if last >= r.ctl.produceSeq then last + 1
    else if Claimable(r, last + 1) then last + 1
    else NextClaim(r, last + 1)
  }

  function FrameBytes(w: int, h: int): nat {
    if w > 0 && h > 0 then w * h else 0
  }

  function PutBoth(st: Store, nv12: Option<Buf>, jpeg: Option<Buf>, env: nat -> bool): Store {
    Put(Put(st, Nv12, nv12, env), Jpeg, jpeg, env)
  }

  /** The composer's output buffers; the JPEG one only when somebody watches the stream. */
  function TakeBoth(st: Store, cap: nat, nvOk: bool, wantJpeg: bool, jpOk: bool): (Store, Option<Buf>, Option<Buf>) {
    var (st1, nv12) := Take(st, Nv12, cap, nvOk);
    var (st2, jpeg) := if wantJpeg then Take(st1, Jpeg, JPEG_CAP, jpOk) else (st1, None);
    (st2, nv12, jpeg)
  }

  predicate Renderable(s: Slot, frame: nat) {
    s.frame == frame && s.rgbDone && s.rgb.Some?
  }

  function RenderCommit(r: Ring, c: Composer, ok: bool, env: nat -> bool): Ring
    requires |r.slots| == RING_N && c.Rendering?
  {
    var i := SlotIndex(c.frame);
    var s := r.slots[i];
    if Renderable(s, c.frame) then
      DisplayCommit(
        if ok then WithSlot(r, i, s.(nv12 := c.nv12, jpeg := c.jpeg))
        else r.(store := PutBoth(r.store, c.nv12, c.jpeg, env)),
        i, env)
    else
      r.(store := PutBoth(r.store, c.nv12, c.jpeg, env))
  }

  // ---------------------------------------------------------------- enabledness

  ghost predicate Shaped(p: Pipe) {
    |p.ring.slots| == RING_N && QueueOk(p.queue) && p.lastSeq <= p.ring.ctl.produceSeq
  }

  ghost predicate Enabled(p: Pipe, s: Step)
    requires Shaped(p)
  {
    match s
    case Dequeue(v) => p.phase.Streaming? && p.hand.Empty? && p.ring.store.returned[Mmap(v)] > 0
    case DriverGap(_) => p.phase.Streaming?
    case ReturnBuffer => p.phase.Streaming? && !p.hand.Empty?
    case CaptureFrame(_, _, _) => p.phase.Streaming? && p.hand.Fresh?
    case CameraStop => p.phase.Streaming? && p.hand.Empty?
    case CameraClear => p.phase.Quiescing? && NoClaims(p.ring)
    case StreamOff => p.phase.Cleared?
    case StreamOn(n) => p.phase.Off? && n >= 2
    case FeederClaim(_) => p.feeder.Waiting?
    case FeederDecoded(ok) => p.feeder.Decoding? && (ok ==> p.feeder.rgb.Some?)
    case FeederHand => p.feeder.Handing? && (p.pool.Running? ==> p.queue.count < QUEUE_CAP)
    case WorkerPop(i) =>
      i < |p.workers| && p.workers[i].Idle? && (p.pool.Running? || p.pool.Stopping?) && p.queue.count > 0
    case WorkerExit(i) => i < |p.workers| && p.workers[i].Idle? && !p.pool.Running?
    case WorkerAbandon(i) => i < |p.workers| && p.workers[i].Inferring?
    case WorkerWrite(i) => i < |p.workers| && p.workers[i].Inferring?
    case WorkerReport(i) =>
      i < |p.workers| && p.workers[i].Reporting? && (p.pool.Running? ==> |p.results| < RESULT_CAP)
    case ComposerPop =>
      if p.composer.Resting? then |p.results| > 0 else p.composer.Chosen? && !p.composer.drained
    case ComposerTake(_, _, _) => p.composer.Chosen? && p.composer.drained
    case ComposerRealloc(_) => p.composer.Rendering?
    case ComposerCommit(ok) => p.composer.Rendering? && (ok ==> p.composer.nv12.Some?)
    case RecorderTake(_) => p.recorder.Polling?
    case RecorderReturn => p.recorder.Encoding?
    case SetAi(_) => true
    case SetRec(_) => true
    case StopPool => p.pool.Running?
    case StopDrain =>
      match p.pool
      case Stopping => forall i :: 0 <= i < |p.workers| ==> p.workers[i].Exited?
      case Draining(_) => true
      case _ => false
  }

  // ---------------------------------------------------------------- the steps

  function Claimed(p: Pipe, mallocOk: bool): Pipe
    requires Shaped(p)
  {
    var q := NextClaim(p.ring, p.lastSeq);
    if q > p.ring.ctl.produceSeq then p.(lastSeq := q - 1)
    else
      var s := p.ring.slots[SlotIndex(q)];
      var (st, rgb) := Take(p.ring.store, Rgb, FrameBytes(s.w, s.h) * 3, mallocOk);
      p.(ring := InferClaim(p.ring, q).(store := st), lastSeq := q - 1,
         feeder := Decoding(q, s.w, s.h, rgb))
  }

  function Decoded(p: Pipe, ok: bool, env: nat -> bool): Pipe
    requires Shaped(p) && p.feeder.Decoding?
  {
    var f := p.feeder;
    if ok then p.(lastSeq := f.frame, feeder := Handing(Job(f.rgb, f.w, f.h, f.frame)))
    else
      var r1 := p.ring.(store := Put(p.ring.store, Rgb, f.rgb, env));
      p.(lastSeq := f.frame, feeder := Waiting, ring := InferUnclaim(r1, SlotIndex(f.frame), false, env))
  }

  function Handed(p: Pipe, env: nat -> bool): Pipe
    requires Shaped(p) && p.feeder.Handing?
  {
    if p.pool.Running? then p.(queue := Enqueue(p.queue, p.feeder.job), feeder := Waiting)
    else p.(ring := Abandon(p.ring, p.feeder.job, env), feeder := Waiting)
  }

  function WithWorker(p: Pipe, i: nat, w: Worker): Pipe
    requires i < |p.workers|
  {
    p.(workers := p.workers[i := w])
  }

  function Popped(p: Pipe, i: nat): Pipe
    requires Shaped(p) && i < |p.workers| && p.queue.count > 0
  {
    var (q, job) := Pop(p.queue);
    WithWorker(p.(queue := q), i, Inferring(job))
  }

  function ComposerPopped(p: Pipe): Pipe {
    if |p.results| > 0 then p.(composer := Chosen(p.results[0], false), results := p.results[1..])
    else if p.composer.Chosen? then p.(composer := Chosen(p.composer.frame, true))
    else p
  }

  function Picked(p: Pipe, nvOk: bool, wantJpeg: bool, jpOk: bool): Pipe
    requires Shaped(p) && p.composer.Chosen?
  {
    var f := p.composer.frame;
    var s := p.ring.slots[SlotIndex(f)];
    if f <= p.nextSeq || !Renderable(s, f) then p.(composer := Resting)
    else
      var (st, nv12, jpeg) := TakeBoth(p.ring.store, FrameBytes(s.w, s.h) * 3 / 2, nvOk, wantJpeg, jpOk);
      p.(ring := p.ring.(store := st), nextSeq := f,
         composer := Rendering(f, s.w, s.h, s.rgb.value, nv12, jpeg, p.clears))
  }

  /** The JPEG encoder may move its output buffer: a new block is allocated, the old one freed. */
  function Regrown(p: Pipe, cap: nat): Pipe
    requires p.composer.Rendering?
  {
    var st := p.ring.store;
    var moved := p.composer.jpeg;
    var freed := if moved.Some? then st.freed.With(Jpeg, st.freed.jpeg + multiset{moved.value}) else st.freed;
    p.(ring := p.ring.(store := st.(alloc := st.alloc + [Block(Jpeg, cap)], freed := freed)),
       composer := p.composer.(jpeg := Some(Buf(|st.alloc|, cap))))
  }

  function Rendered(p: Pipe, ok: bool, env: nat -> bool): Pipe
    requires Shaped(p) && p.composer.Rendering?
  {
    var hit := Renderable(p.ring.slots[SlotIndex(p.composer.frame)], p.composer.frame);
    p.(ring := RenderCommit(p.ring, p.composer, ok, env), composer := Resting,
       shown := if hit then p.shown + [p.composer.frame] else p.shown)
  }

  function RecorderTook(p: Pipe, sameSize: bool, env: nat -> bool): Pipe {
    var pick := EncodePick(p.ring, p.recSeq);
    if pick.None? then p
    else
      var i := pick.value;
      var s := p.ring.slots[i];
      if !sameSize then p.(recSeq := s.frame, ring := EncodeSkip(p.ring, i, env))
      else p.(recSeq := s.frame, recorder := Encoding(s.nv12.value), stolen := p.stolen + [s.frame],
              ring := EncodeAdvance(WithSlot(p.ring, i, s.(nv12 := None)), i, env))
  }

  function DrainNext(p: Pipe, env: nat -> bool): Pipe
    requires Shaped(p)
  {
    match p.pool
    case Stopping => p.(pool := Draining(0))
    case Draining(n) =>
      if n >= |p.queue.jobs| then
        p.(pool := Stopped, queue := JobQueue(p.queue.jobs, 0, 0, 0))
      else if p.queue.jobs[n].rgb.None? then p.(pool := Draining(n + 1))
      else
        var job := p.queue.jobs[n];
        p.(pool := Draining(n + 1), ring := Abandon(p.ring, job, env),
           queue := p.queue.(jobs := p.queue.jobs[n := job.(rgb := None)]))
    case _ => p
  }

  function Next(p: Pipe, s: Step, env: nat -> bool): Pipe
    requires Shaped(p) && Enabled(p, s)
  {
    match s
    case Dequeue(v) => p.(ring := Unqueued(p.ring, v), hand := Fresh(v))
    case DriverGap(n) => p.(ring := AddDriverDropped(p.ring, n))
    case ReturnBuffer => p.(ring := Queued(p.ring, p.hand.vbuf), hand := Empty)
    case CaptureFrame(w, h, fmt) =>
      var (r, ok) := Capture(p.ring, w, h, fmt, Mmap(p.hand.vbuf), env);
      p.(ring := r, hand := if ok then Empty else Refused(p.hand.vbuf))
    case CameraStop => p.(ring := QuiesceBegin(p.ring), phase := Quiescing)
    case CameraClear => p.(ring := ClearAll(p.ring, env), phase := Cleared, clears := p.clears + 1)
    case StreamOff =>
      p.(ring := p.ring.(store := p.ring.store.(returned := DriverReset(p.ring.store.returned, p.nbuffers, 0))),
         phase := Off)
    case StreamOn(n) =>
      p.(ring := p.ring.(store := p.ring.store.(returned := DriverReset(p.ring.store.returned, n, 1))),
         phase := Streaming, nbuffers := n)
    case FeederClaim(mallocOk) => Claimed(p, mallocOk)
    case FeederDecoded(ok) => Decoded(p, ok, env)
    case FeederHand => Handed(p, env)
    case WorkerPop(i) => Popped(p, i)
    case WorkerExit(i) => WithWorker(p, i, Exited)
    case WorkerAbandon(i) =>
      WithWorker(p.(ring := Abandon(p.ring, p.workers[i].job, env)), i, Idle)
    case WorkerWrite(i) =>
      WithWorker(p.(ring := WriteBack(p.ring, p.workers[i].job, env)), i, Reporting(p.workers[i].job.frame))
    case WorkerReport(i) =>
      WithWorker(p.(results := if p.pool.Running? then p.results + [p.workers[i].frame] else p.results), i, Idle)
    case ComposerPop => ComposerPopped(p)
    case ComposerTake(nvOk, wantJpeg, jpOk) => Picked(p, nvOk, wantJpeg, jpOk)
    case ComposerRealloc(cap) => Regrown(p, cap)
    case ComposerCommit(ok) => Rendered(p, ok, env)
    case RecorderTake(sameSize) => RecorderTook(p, sameSize, env)
    case RecorderReturn =>
      p.(ring := p.ring.(store := Put(p.ring.store, Nv12, Some(p.recorder.nv12), env)), recorder := Polling)
    case SetAi(on) => p.(ring := SetAiActive(p.ring, on, env))
    case SetRec(on) => p.(ring := SetRecActive(p.ring, on, env))
    case StopPool => p.(pool := Stopping)
    case StopDrain => DrainNext(p, env)
  }
}
