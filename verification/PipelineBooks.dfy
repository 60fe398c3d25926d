/**
 * Ownership: in every interleaving each stage buffer is in exactly one place, and while the
 * camera streams each driver buffer is in exactly one place.
 */
module PipelineBooks {
  import opened Common
  import opened FrameRingModel
  import opened FrameRingOps
  import opened Pipeline
  import opened PipelineInvariant

  // ---------------------------------------------------------------- the places outside the ring

  function FeederBuf(f: Feeder): Option<Buf> {
    match f
    case Waiting => None
    case Decoding(_, _, _, rgb) => rgb
    case Handing(job) => job.rgb
  }

  function WorkerBuf(w: Worker): Option<Buf> {
    if w.Inferring? then w.job.rgb else None
  }

  function JobBufs(jobs: seq<Job>): (xs: seq<Option<Buf>>)
    ensures |xs| == |jobs|
    ensures forall i :: 0 <= i < |jobs| ==> xs[i] == jobs[i].rgb
  {
    seq(|jobs|, i requires 0 <= i < |jobs| => jobs[i].rgb)
  }

  function WorkerBufs(ws: seq<Worker>): (xs: seq<Option<Buf>>)
    ensures |xs| == |ws|
    ensures forall i :: 0 <= i < |ws| ==> xs[i] == WorkerBuf(ws[i])
  {
    seq(|ws|, i requires 0 <= i < |ws| => WorkerBuf(ws[i]))
  }

  function ComposerBuf(c: Composer, k: Kind): Option<Buf> {
    match (c, k)
    case (Rendering(_, _, _, _, nv12, _, _), Nv12) => nv12
    case (Rendering(_, _, _, _, _, jpeg, _), Jpeg) => jpeg
    case _ => None
  }

  function RecorderBuf(r: Recorder): Option<Buf> {
    if r.Encoding? then Some(r.nv12) else None
  }

  function Outside(p: Pipe, k: Kind, b: Buf): nat {
    match k
    case Rgb => Is(FeederBuf(p.feeder), b) + Count(JobBufs(p.queue.jobs), b) + Count(WorkerBufs(p.workers), b)
    case Nv12 => Is(ComposerBuf(p.composer, Nv12), b) + Is(RecorderBuf(p.recorder), b)
    case Jpeg => Is(ComposerBuf(p.composer, Jpeg), b)
  }

  /** In how many places buffer b is: slots, pool, freed blocks, and every thread's hands. */
  function Places(p: Pipe, k: Kind, b: Buf): nat {
    Account(p.ring, k, b) + Outside(p, k, b)
  }

  /** Every allocated buffer is in exactly one place, and nothing else is anywhere. */
  ghost predicate BooksOk(p: Pipe) {
    forall k, b :: Places(p, k, b) == Allocated(p.ring.store, k, b)
  }

  function HandBuf(h: Hand): Option<nat> {
    match h
    case Empty => None
    case Fresh(v) => Some(v)
    case Refused(v) => Some(v)
  }

  /** Where driver buffer v is counted: queued with the driver, in a slot, or in hand. */
  function DriverPlaces(p: Pipe, v: nat): nat {
    RawAccount(p.ring, Mmap(v)) + Is(HandBuf(p.hand), v)
  }

  ghost predicate DriverOk(p: Pipe) {
    match p.phase
    case Streaming => forall v: nat :: DriverPlaces(p, v) == if v < p.nbuffers then 1 else 0
    case Quiescing => p.hand.Empty? && forall v: nat :: DriverPlaces(p, v) == if v < p.nbuffers then 1 else 0
    case Cleared =>
      && p.hand.Empty? && (forall i :: 0 <= i < |p.ring.slots| ==> p.ring.slots[i].raw.None?)
      && (forall v: nat :: v >= p.nbuffers ==> p.ring.store.returned[Mmap(v)] == 0)
    case Off =>
      && p.hand.Empty? && (forall i :: 0 <= i < |p.ring.slots| ==> p.ring.slots[i].raw.None?)
      && (forall v: nat :: p.ring.store.returned[Mmap(v)] == 0)
  }

  // ---------------------------------------------------------------- the critical sections, on the books

  /** r' has `extra` more copies of b than r, the same raw buffers and the same allocations. */
  ghost predicate Gains(r: Ring, r': Ring, k: Kind, b: Buf, extra: nat, raw: Raw) {
    && Account(r', k, b) == Account(r, k, b) + extra
    && RawAccount(r', raw) == RawAccount(r, raw)
    && r'.store.alloc == r.store.alloc
  }

  lemma UnclaimGains(r: Ring, i: nat, s: Slot, decodeOk: bool, st: Store, env: nat -> bool, k: Kind, b: Buf, raw: Raw, extra: nat)
    requires i < |r.slots| && s.raw == r.slots[i].raw
    requires st.alloc == r.store.alloc && st.returned == r.store.returned
    requires Is(s.Stage(k), b) + Shelved(st, k, b) == Is(r.slots[i].Stage(k), b) + Shelved(r.store, k, b) + extra
    ensures Gains(r, InferUnclaim(Ring(r.slots[i := s], r.ctl, st), i, decodeOk, env), k, b, extra, raw)
  {
    var ctl := if decodeOk then r.ctl else r.ctl.(inferDropped := r.ctl.inferDropped + 1);
    assert r.slots[i := s][i := Unclaimed(s)] == r.slots[i := Unclaimed(s)];
    SlotStepBooks(r, i, Unclaimed(s), ctl, st, env, k, b, raw);
  }

  lemma RestockedAccount(r: Ring, st: Store, k: Kind, b: Buf)
    ensures Account(r.(store := st), k, b) + Shelved(r.store, k, b) == Account(r, k, b) + Shelved(st, k, b)
  {
  }

  function Rgb1(k: Kind, o: Option<Buf>, b: Buf): nat {
    if k == Rgb then Is(o, b) else 0
  }

  lemma PutGains(r: Ring, rgb: Option<Buf>, env: nat -> bool, k: Kind, b: Buf, raw: Raw)
    ensures Gains(r, r.(store := Put(r.store, Rgb, rgb, env)), k, b, Rgb1(k, rgb, b), raw)
  {
    PutShelved(r.store, Rgb, rgb, env, k, b);
  }

  lemma AbandonGains(r: Ring, job: Job, env: nat -> bool, k: Kind, b: Buf, raw: Raw)
    requires |r.slots| == RING_N
    ensures Gains(r, Abandon(r, job, env), k, b, Rgb1(k, job.rgb, b), raw)
  {
    var i := SlotIndex(job.frame);
    var s := r.slots[i];
    if s.frame == job.frame && s.claims > 0 {
      assert Ring(r.slots[i := s], r.ctl, r.store) == r;
      UnclaimGains(r, i, s, true, r.store, env, k, b, raw, 0);
      var r1 := InferUnclaim(r, i, true, env);
      PutGains(r1, job.rgb, env, k, b, raw);
    } else {
      PutGains(r, job.rgb, env, k, b, raw);
    }
  }

  /** Writing back loses nothing exactly because the slot's rgb pointer was NULL. */
  lemma WriteBackGains(r: Ring, job: Job, env: nat -> bool, k: Kind, b: Buf, raw: Raw)
    requires |r.slots| == RING_N && r.slots[SlotIndex(job.frame)].rgb.None?
    ensures Gains(r, WriteBack(r, job, env), k, b, Rgb1(k, job.rgb, b), raw)
  {
    hide Account, RawAccount, Shelved, InferUnclaim;
    var i := SlotIndex(job.frame);
    var s := r.slots[i];
    if s.frame == job.frame && s.claims > 0 {
      UnclaimGains(r, i, s.(rgb := job.rgb, rgbDone := true), true, r.store, env, k, b, raw, Rgb1(k, job.rgb, b));
    } else {
      PutGains(r, job.rgb, env, k, b, raw);
    }
  }

  lemma FailedDecodeGains(r: Ring, i: nat, rgb: Option<Buf>, env: nat -> bool, k: Kind, b: Buf, raw: Raw)
    requires i < |r.slots|
    ensures Gains(r, InferUnclaim(r.(store := Put(r.store, Rgb, rgb, env)), i, false, env), k, b, Rgb1(k, rgb, b), raw)
  {
    PutShelved(r.store, Rgb, rgb, env, k, b);
    assert r.slots[i := r.slots[i]] == r.slots;
    UnclaimGains(r, i, r.slots[i], false, Put(r.store, Rgb, rgb, env), env, k, b, raw, Rgb1(k, rgb, b));
  }

  function Both1(k: Kind, nv12: Option<Buf>, jpeg: Option<Buf>, b: Buf): nat {
    match k
    case Rgb => 0
    case Nv12 => Is(nv12, b)
    case Jpeg => Is(jpeg, b)
  }

  lemma PutBothShelved(st: Store, nv12: Option<Buf>, jpeg: Option<Buf>, env: nat -> bool, k: Kind, b: Buf)
    ensures var st' := PutBoth(st, nv12, jpeg, env);
            && Shelved(st', k, b) == Shelved(st, k, b) + Both1(k, nv12, jpeg, b)
            && st'.alloc == st.alloc && st'.returned == st.returned
  {
    PutShelved(st, Nv12, nv12, env, k, b);
    PutShelved(Put(st, Nv12, nv12, env), Jpeg, jpeg, env, k, b);
  }

  lemma DisplayGains(r: Ring, i: nat, s: Slot, st: Store, env: nat -> bool, k: Kind, b: Buf, raw: Raw, extra: nat)
    requires i < |r.slots| && s.raw == r.slots[i].raw
    requires st.alloc == r.store.alloc && st.returned == r.store.returned
    requires Is(s.Stage(k), b) + Shelved(st, k, b) == Is(r.slots[i].Stage(k), b) + Shelved(r.store, k, b) + extra
    ensures Gains(r, DisplayCommit(Ring(r.slots[i := s], r.ctl, st), i, env), k, b, extra, raw)
  {
    var s' := s.(displayDone := true);
    assert r.slots[i := s][i := s'] == r.slots[i := s'];
    var ctl := DisplayCommit(Ring(r.slots[i := s], r.ctl, st), i, env).ctl;
    SlotStepBooks(r, i, s', ctl, st, env, k, b, raw);
  }

  lemma RenderGains(r: Ring, c: Composer, ok: bool, env: nat -> bool, k: Kind, b: Buf, raw: Raw)
    requires |r.slots| == RING_N && c.Rendering?
    requires r.slots[SlotIndex(c.frame)].frame == c.frame ==>
               r.slots[SlotIndex(c.frame)].nv12.None? && r.slots[SlotIndex(c.frame)].jpeg.None?
    ensures Gains(r, RenderCommit(r, c, ok, env), k, b, Both1(k, c.nv12, c.jpeg, b), raw)
  {
    var i := SlotIndex(c.frame);
    var s := r.slots[i];
    PutBothShelved(r.store, c.nv12, c.jpeg, env, k, b);
    if Renderable(s, c.frame) {
      if ok {
        DisplayGains(r, i, s.(nv12 := c.nv12, jpeg := c.jpeg), r.store, env, k, b, raw, Both1(k, c.nv12, c.jpeg, b));
      } else {
        assert r.slots[i := s] == r.slots;
        DisplayGains(r, i, s, PutBoth(r.store, c.nv12, c.jpeg, env), env, k, b, raw, Both1(k, c.nv12, c.jpeg, b));
      }
    }
  }

  lemma PublishedGains(r: Ring, s: Slot, env: nat -> bool, k: Kind, b: Buf, raw: Raw)
    requires |r.slots| == RING_N && Reusable(r.slots[SlotIndex(r.ctl.produceSeq + 1)])
    requires s.rgb.None? && s.nv12.None? && s.jpeg.None?
    ensures var r' := Maintain(Published(r, s), env);
            && BufBalanced(r, r', k, b) && RawAccount(r', raw) == RawAccount(r, raw) + Is(s.raw, raw)
  {
    var i := SlotIndex(r.ctl.produceSeq + 1);
    hide Maintain, Account, RawAccount, Shelved, FixedPoint;
    SlotStepBooks(r, i, s, Published(r, s).ctl, r.store, env, k, b, raw);
  }

  lemma CaptureGains(r: Ring, w: int, h: int, fmt: int, raw: Raw, env: nat -> bool, k: Kind, b: Buf, raw': Raw)
    requires |r.slots| == RING_N && FixedPoint(r)
    ensures var (r', ok) := Capture(r, w, h, fmt, raw, env);
            && BufBalanced(r, r', k, b)
            && RawAccount(r', raw') == RawAccount(r, raw') + (if ok then Is(Some(raw), raw') else 0)
  {
    CaptureAtRest(r, w, h, fmt, raw, env);
    if Reusable(r.slots[SlotIndex(r.ctl.produceSeq + 1)]) {
      PublishedGains(r, FrameSlot(r.ctl.produceSeq + 1, w, h, fmt, raw), env, k, b, raw');
    }
  }

  lemma StealGains(r: Ring, i: nat, env: nat -> bool, k: Kind, b: Buf, raw: Raw)
    requires i < |r.slots|
    ensures var s := r.slots[i];
            var r' := EncodeAdvance(WithSlot(r, i, s.(nv12 := None)), i, env);
            && Account(r', k, b) + (if k == Nv12 then Is(s.nv12, b) else 0) == Account(r, k, b)
            && RawAccount(r', raw) == RawAccount(r, raw)
            && r'.store.alloc == r.store.alloc
  {
    var s := r.slots[i];
    SlotUpdateCounts(r.slots, i, s.(nv12 := None), k, b, raw);
    EncodeAdvanceBooks(WithSlot(r, i, s.(nv12 := None)), i, env, k, b, raw);
  }

  lemma ClaimGains(r: Ring, q: nat, k: Kind, b: Buf, raw: Raw)
    requires |r.slots| == RING_N
    ensures Gains(r, InferClaim(r, q), k, b, 0, raw)
  {
    var i := SlotIndex(q);
    SlotUpdateCounts(r.slots, i, r.slots[i].(claims := r.slots[i].claims + 1), k, b, raw);
  }

  // ---------------------------------------------------------------- steps, on the books

  /** Between p and p' the copies of b changed exactly by the allocations; raw buffer v not at all. */
  ghost predicate Conserves(p: Pipe, p': Pipe, k: Kind, b: Buf, v: nat) {
    && Places(p', k, b) + Allocated(p.ring.store, k, b) == Places(p, k, b) + Allocated(p'.ring.store, k, b)
    && RawAccount(p'.ring, Mmap(v)) == RawAccount(p.ring, Mmap(v))
  }

  lemma JobBufsUpdate(jobs: seq<Job>, i: nat, job: Job, b: Buf)
    requires i < |jobs|
    ensures Count(JobBufs(jobs[i := job]), b) + Is(jobs[i].rgb, b) == Count(JobBufs(jobs), b) + Is(job.rgb, b)
  {
    assert JobBufs(jobs[i := job]) == JobBufs(jobs)[i := job.rgb];
    CountUpdate(JobBufs(jobs), i, job.rgb, b);
  }

  lemma WorkerBufsUpdate(ws: seq<Worker>, i: nat, w: Worker, b: Buf)
    requires i < |ws|
    ensures Count(WorkerBufs(ws[i := w]), b) + Is(WorkerBuf(ws[i]), b) == Count(WorkerBufs(ws), b) + Is(WorkerBuf(w), b)
  {
    assert WorkerBufs(ws[i := w]) == WorkerBufs(ws)[i := WorkerBuf(w)];
    CountUpdate(WorkerBufs(ws), i, WorkerBuf(w), b);
  }

  lemma ClaimedConserves(p: Pipe, mallocOk: bool, k: Kind, b: Buf, v: nat)
    requires Shaped(p) && p.feeder.Waiting?
    ensures Conserves(p, Claimed(p, mallocOk), k, b, v)
  {
    hide Take, Account, Shelved, FrameBytes, Count;
    var q := NextClaim(p.ring, p.lastSeq);
    if q <= p.ring.ctl.produceSeq {
      var s := p.ring.slots[SlotIndex(q)];
      var cap := FrameBytes(s.w, s.h) * 3;
      var st := Take(p.ring.store, Rgb, cap, mallocOk).0;
      ClaimGains(p.ring, q, k, b, Mmap(v));
      TakeShelved(p.ring.store, Rgb, cap, mallocOk, k, b);
      RestockedAccount(InferClaim(p.ring, q), st, k, b);
      assert Claimed(p, mallocOk).ring == InferClaim(p.ring, q).(store := st);
    }
  }

  lemma DecodedConserves(p: Pipe, ok: bool, env: nat -> bool, k: Kind, b: Buf, v: nat)
    requires Shaped(p) && p.feeder.Decoding?
    ensures Conserves(p, Decoded(p, ok, env), k, b, v)
  {
    if !ok {
      FailedDecodeGains(p.ring, SlotIndex(p.feeder.frame), p.feeder.rgb, env, k, b, Mmap(v));
    }
  }

  lemma QueuedConserves(p: Pipe, k: Kind, b: Buf, v: nat)
    requires Shaped(p) && p.feeder.Handing? && p.queue.jobs[p.queue.tail].rgb.None?
    ensures Conserves(p, p.(queue := Enqueue(p.queue, p.feeder.job), feeder := Waiting), k, b, v)
  {
    JobBufsUpdate(p.queue.jobs, p.queue.tail, p.feeder.job, b);
    hide Account, RawAccount, Allocated, WorkerBufs;
  }

  lemma HandedConserves(p: Pipe, env: nat -> bool, k: Kind, b: Buf, v: nat)
    requires RingInv(p) && p.feeder.Handing? && (p.pool.Running? ==> p.queue.count < QUEUE_CAP)
    ensures Conserves(p, Handed(p, env), k, b, v)
  {
    assert p.pool.Running? ==> p.queue.jobs[p.queue.tail].rgb.None?;
    if p.pool.Running? {
      hide RingInv, Abandon, Conserves;
      QueuedConserves(p, k, b, v);
    } else {
      hide RingInv, Abandon, Enqueue, Count;
      AbandonGains(p.ring, p.feeder.job, env, k, b, Mmap(v));
    }
  }

  lemma PoppedConserves(p: Pipe, i: nat, k: Kind, b: Buf, v: nat)
    requires Shaped(p) && i < |p.workers| && p.workers[i].Idle? && p.queue.count > 0
    ensures Conserves(p, Popped(p, i), k, b, v)
  {
    var (q, job) := Pop(p.queue);
    JobBufsUpdate(p.queue.jobs, p.queue.head, job.(rgb := None), b);
    WorkerBufsUpdate(p.workers, i, Inferring(job), b);
  }

  lemma WorkerMoveConserves(p: Pipe, i: nat, w: Worker, results: seq<nat>, k: Kind, b: Buf, v: nat)
    requires i < |p.workers| && !p.workers[i].Inferring? && !w.Inferring?
    ensures Conserves(p, WithWorker(p.(results := results), i, w), k, b, v)
  {
    WorkerBufsUpdate(p.workers, i, w, b);
  }

  lemma WorkerAbandonConserves(p: Pipe, i: nat, env: nat -> bool, k: Kind, b: Buf, v: nat)
    requires Shaped(p) && i < |p.workers| && p.workers[i].Inferring?
    ensures Conserves(p, WithWorker(p.(ring := Abandon(p.ring, p.workers[i].job, env)), i, Idle), k, b, v)
  {
    AbandonGains(p.ring, p.workers[i].job, env, k, b, Mmap(v));
    WorkerBufsUpdate(p.workers, i, Idle, b);
  }

  lemma WorkerWriteConserves(p: Pipe, i: nat, env: nat -> bool, k: Kind, b: Buf, v: nat)
    requires RingInv(p) && i < |p.workers| && p.workers[i].Inferring?
    ensures var job := p.workers[i].job;
            Conserves(p, WithWorker(p.(ring := WriteBack(p.ring, job, env)), i, Reporting(job.frame)), k, b, v)
  {
    var job := p.workers[i].job;
    CountCovers(WorkerFrames(p.workers), i, job.frame);
    HeldSlot(p, job.frame);
    WriteBackGains(p.ring, job, env, k, b, Mmap(v));
    WorkerBufsUpdate(p.workers, i, Reporting(job.frame), b);
  }

  lemma TakeBothShelved(st: Store, cap: nat, nvOk: bool, wantJpeg: bool, jpOk: bool, k: Kind, b: Buf)
    ensures var (st', nv12, jpeg) := TakeBoth(st, cap, nvOk, wantJpeg, jpOk);
            && Shelved(st', k, b) + Allocated(st, k, b) + Both1(k, nv12, jpeg, b) == Shelved(st, k, b) + Allocated(st', k, b)
            && st'.returned == st.returned
  {
    var st1 := Take(st, Nv12, cap, nvOk).0;
    TakeShelved(st, Nv12, cap, nvOk, k, b);
    TakeShelved(st1, Jpeg, JPEG_CAP, jpOk, k, b);
  }

  lemma PickedOutside(p: Pipe, p': Pipe, c: Composer, k: Kind, b: Buf)
    requires p.composer.Chosen? && c.Rendering? && p' == p.(ring := p'.ring, nextSeq := p'.nextSeq, composer := c)
    ensures Outside(p', k, b) == Outside(p, k, b) + Both1(k, c.nv12, c.jpeg, b)
  {
  }

  lemma PickedConserves(p: Pipe, nvOk: bool, wantJpeg: bool, jpOk: bool, k: Kind, b: Buf, v: nat)
    requires Shaped(p) && p.composer.Chosen?
    ensures Conserves(p, Picked(p, nvOk, wantJpeg, jpOk), k, b, v)
  {
    var p' := Picked(p, nvOk, wantJpeg, jpOk);
    var s := p.ring.slots[SlotIndex(p.composer.frame)];
    if p'.composer.Rendering? {
      TakeBothShelved(p.ring.store, FrameBytes(s.w, s.h) * 3 / 2, nvOk, wantJpeg, jpOk, k, b);
      assert p'.ring == p.ring.(store := p'.ring.store);
      RestockedAccount(p.ring, p'.ring.store, k, b);
      PickedOutside(p, p', p'.composer, k, b);
    }
  }

  lemma RegrownConserves(p: Pipe, cap: nat, k: Kind, b: Buf, v: nat)
    requires p.composer.Rendering?
    ensures Conserves(p, Regrown(p, cap), k, b, v)
  {
  }

  lemma RenderedConserves(p: Pipe, ok: bool, env: nat -> bool, k: Kind, b: Buf, v: nat)
    requires RingInv(p) && p.composer.Rendering?
    ensures Conserves(p, Rendered(p, ok, env), k, b, v)
  {
    assert |p.ring.slots| == RING_N;
    hide RingInv, RenderCommit, Account, RawAccount, SlotIndex, Count, Is, Allocated;
    RenderGains(p.ring, p.composer, ok, env, k, b, Mmap(v));
  }

  lemma RecorderConserves(p: Pipe, sameSize: bool, env: nat -> bool, k: Kind, b: Buf, v: nat)
    requires p.recorder.Polling?
    ensures Conserves(p, RecorderTook(p, sameSize, env), k, b, v)
  {
    var p' := RecorderTook(p, sameSize, env);
    var pick := EncodePick(p.ring, p.recSeq);
    if pick.Some? && sameSize {
      var i := pick.value;
      StealGains(p.ring, i, env, k, b, Mmap(v));
      assert p'.ring == EncodeAdvance(WithSlot(p.ring, i, p.ring.slots[i].(nv12 := None)), i, env);
    } else if pick.Some? {
      var i := pick.value;
      EncodeAdvanceBooks(p.ring, i, env, k, b, Mmap(v));
      assert p'.ring == EncodeSkip(p.ring, i, env);
    }
  }

  lemma ReturnedConserves(p: Pipe, env: nat -> bool, k: Kind, b: Buf, v: nat)
    requires p.recorder.Encoding?
    ensures Conserves(p, p.(ring := p.ring.(store := Put(p.ring.store, Nv12, Some(p.recorder.nv12), env)),
                            recorder := Polling), k, b, v)
  {
    PutShelved(p.ring.store, Nv12, Some(p.recorder.nv12), env, k, b);
  }

  lemma DrainConserves(p: Pipe, env: nat -> bool, k: Kind, b: Buf, v: nat)
    requires Shaped(p)
    ensures Conserves(p, DrainNext(p, env), k, b, v)
  {
    hide Abandon, Account, RawAccount, Count, JobBufs, WorkerBufs;
    if p.pool.Draining? && p.pool.next < |p.queue.jobs| && p.queue.jobs[p.pool.next].rgb.Some? {
      var p' := DrainNext(p, env);
      var job := p.queue.jobs[p.pool.next];
      assert p'.ring == Abandon(p.ring, job, env);
      AbandonGains(p.ring, job, env, k, b, Mmap(v));
      JobBufsUpdate(p.queue.jobs, p.pool.next, job.(rgb := None), b);
    }
  }
}
