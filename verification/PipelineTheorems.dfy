/** What the pipeline invariant means for a reader of the frame ring's documentation. */
module PipelineTheorems {
  import opened Common
  import opened FrameRingModel
  import opened FrameRingOps
  import opened Pipeline
  import opened PipelineInvariant
  import opened PipelineBooks
  import opened PipelineSafety

  // ---------------------------------------------------------------- exactly one owner

  /** The places a stage buffer can be in. */
  datatype Place =
    | InSlot(i: nat) | InPool(i: nat) | FreedBlock
    | WithFeeder | InQueue(i: nat) | AtWorker(i: nat) | AtComposer | AtRecorder

  ghost predicate Holds(p: Pipe, pl: Place, k: Kind, b: Buf) {
    match pl
    case InSlot(i) => i < |p.ring.slots| && p.ring.slots[i].Stage(k) == Some(b)
    case InPool(i) => i < |p.ring.store.pools.At(k)| && p.ring.store.pools.At(k)[i] == b
    case FreedBlock => b in p.ring.store.freed.At(k)
    case WithFeeder => k == Rgb && FeederBuf(p.feeder) == Some(b)
    case InQueue(i) => k == Rgb && i < |p.queue.jobs| && p.queue.jobs[i].rgb == Some(b)
    case AtWorker(i) => k == Rgb && i < |p.workers| && WorkerBuf(p.workers[i]) == Some(b)
    case AtComposer => ComposerBuf(p.composer, k) == Some(b)
    case AtRecorder => k == Nv12 && RecorderBuf(p.recorder) == Some(b)
  }

  lemma PoolTwice(pool: seq<Buf>, i: nat, j: nat, b: Buf)
    requires i < j < |pool| && pool[i] == pool[j] == b
    ensures multiset(pool)[b] >= 2
  {
    assert pool == pool[..j] + pool[j..];
    assert pool[..j][i] == b && pool[j..][0] == b;
    assert b in multiset(pool[..j]) && b in multiset(pool[j..]);
  }

  /** Two different places holding the same buffer would be counted twice. */
  lemma TwoPlaces(p: Pipe, k: Kind, b: Buf, x: Place, y: Place)
    requires Holds(p, x, k, b) && Holds(p, y, k, b) && x != y
    ensures Places(p, k, b) >= 2
  {
    OnePlace(p, k, b, x);
    OnePlace(p, k, b, y);
    match (x, y)
    case (InSlot(i), InSlot(j)) => CountCoversTwo(Stages(p.ring.slots, k), if i < j then i else j, if i < j then j else i, b);
    case (InPool(i), InPool(j)) => PoolTwice(p.ring.store.pools.At(k), if i < j then i else j, if i < j then j else i, b);
    case (InQueue(i), InQueue(j)) => CountCoversTwo(JobBufs(p.queue.jobs), if i < j then i else j, if i < j then j else i, b);
    case (AtWorker(i), AtWorker(j)) => CountCoversTwo(WorkerBufs(p.workers), if i < j then i else j, if i < j then j else i, b);
    case _ =>
  }

  /** How the places of one sort contribute to the count. */
  function Share(p: Pipe, pl: Place, k: Kind, b: Buf): nat {
    match pl
    case InSlot(_) => Count(Stages(p.ring.slots, k), b)
    case InPool(_) => multiset(p.ring.store.pools.At(k))[b]
    case FreedBlock => p.ring.store.freed.At(k)[b]
    case WithFeeder => if k == Rgb then Is(FeederBuf(p.feeder), b) else 0
    case InQueue(_) => if k == Rgb then Count(JobBufs(p.queue.jobs), b) else 0
    case AtWorker(_) => if k == Rgb then Count(WorkerBufs(p.workers), b) else 0
    case AtComposer => Is(ComposerBuf(p.composer, k), b)
    case AtRecorder => if k == Nv12 then Is(RecorderBuf(p.recorder), b) else 0
  }

  lemma OnePlace(p: Pipe, k: Kind, b: Buf, pl: Place)
    requires Holds(p, pl, k, b)
    ensures Share(p, pl, k, b) >= 1
  {
    match pl
    case InSlot(i) => CountCovers(Stages(p.ring.slots, k), i, b);
    case InPool(i) => assert b in p.ring.store.pools.At(k);
    case InQueue(i) => CountCovers(JobBufs(p.queue.jobs), i, b);
    case AtWorker(i) => CountCovers(WorkerBufs(p.workers), i, b);
    case _ =>
  }

  lemma SomePlace(p: Pipe, k: Kind, b: Buf) returns (pl: Place)
    requires Places(p, k, b) >= 1
    ensures Holds(p, pl, k, b)
  {
    if Count(Stages(p.ring.slots, k), b) > 0 {
      var i := CountWitness(Stages(p.ring.slots, k), b);
      pl := InSlot(i);
    } else if multiset(p.ring.store.pools.At(k))[b] > 0 {
      assert b in multiset(p.ring.store.pools.At(k));
      var i :| 0 <= i < |p.ring.store.pools.At(k)| && p.ring.store.pools.At(k)[i] == b;
      pl := InPool(i);
    } else if p.ring.store.freed.At(k)[b] > 0 {
      pl := FreedBlock;
    } else {
      match k
      case Rgb =>
        if Count(JobBufs(p.queue.jobs), b) > 0 {
          var i := CountWitness(JobBufs(p.queue.jobs), b);
          pl := InQueue(i);
        } else if Count(WorkerBufs(p.workers), b) > 0 {
          var i := CountWitness(WorkerBufs(p.workers), b);
          pl := AtWorker(i);
        } else {
          pl := WithFeeder;
        }
      case Nv12 => pl := if RecorderBuf(p.recorder) == Some(b) then AtRecorder else AtComposer;
      case Jpeg => pl := AtComposer;
    }
  }

  /**
   * In every reachable state every stage buffer ever allocated is in exactly one place (or
   * was freed exactly once), and no place holds anything that was not allocated as such.
   */
  lemma ExactlyOneOwner(ps: seq<Pipe>, ss: seq<Step>, env: nat -> bool, n: nat, k: Kind, b: Buf)
    requires Run(ps, ss, env) && n < |ps|
    ensures Allocated(ps[n].ring.store, k, b) == 1 ==> exists pl :: Holds(ps[n], pl, k, b)
    ensures forall pl :: Holds(ps[n], pl, k, b) ==> Allocated(ps[n].ring.store, k, b) == 1
    ensures forall x, y :: Holds(ps[n], x, k, b) && Holds(ps[n], y, k, b) ==> x == y
  {
    RunInv(ps, ss, env, n);
    var p := ps[n];
    assert Places(p, k, b) == Allocated(p.ring.store, k, b);
    if Allocated(p.ring.store, k, b) == 1 {
      var pl := SomePlace(p, k, b);
    }
    forall pl | Holds(p, pl, k, b) ensures Allocated(p.ring.store, k, b) == 1 {
      OnePlace(p, k, b, pl);
    }
    forall x, y | Holds(p, x, k, b) && Holds(p, y, k, b) ensures x == y {
      if x != y {
        TwoPlaces(p, k, b, x, y);
      }
    }
  }

  /** Until the pool is drained, the array entries that own a buffer are exactly the queued jobs. */
  lemma QueueEntriesAreLive(ps: seq<Pipe>, ss: seq<Step>, env: nat -> bool, n: nat, j: nat)
    requires Run(ps, ss, env) && n < |ps| && j < QUEUE_CAP
    ensures var p := ps[n];
            |p.queue.jobs| == QUEUE_CAP
            && (p.pool.Running? || p.pool.Stopping? ==> (p.queue.jobs[j].rgb.Some? <==> Live(p.queue, j)))
  {
    RunInv(ps, ss, env, n);
    hide Live, RingInv, Next, Enabled;
    JobsAreOk(ps[n]);
  }

  lemma JobsAreOk(p: Pipe)
    requires RingInv(p)
    ensures JobsOk(p)
  {
  }

  // ---------------------------------------------------------------- slots

  /** After every critical section the ring is at rest: another release pass would change nothing. */
  lemma AlwaysAtRest(ps: seq<Pipe>, ss: seq<Step>, env: nat -> bool, n: nat, env': nat -> bool)
    requires Run(ps, ss, env) && n < |ps|
    ensures Maintain(ps[n].ring, env') == ps[n].ring
  {
    RunInv(ps, ss, env, n);
    hide Next, Enabled;
    FixedPointUnchanged(ps[n].ring, |ps[n].ring.slots|, env');
  }

  /** An occupied slot holds one of the last 32 frames, at its own index, claimed once per holder. */
  lemma SlotsInWindow(ps: seq<Pipe>, ss: seq<Step>, env: nat -> bool, n: nat, i: nat)
    requires Run(ps, ss, env) && n < |ps| && i < RING_N
    ensures var p := ps[n];
            |p.ring.slots| == RING_N
            && (p.ring.slots[i].frame != 0 ==>
                  && p.ring.slots[i].frame % RING_N == i
                  && p.ring.slots[i].frame <= p.ring.ctl.produceSeq < p.ring.slots[i].frame + RING_N
                  && p.ring.slots[i].claims == Holders(p, p.ring.slots[i].frame))
  {
    RunInv(ps, ss, env, n);
    hide Next, Enabled, Holders, ClaimedUpTo;
    var p := ps[n];
    assert SlotOk(p.ring.ctl, ClaimedUpTo(p), Holders(p, p.ring.slots[i].frame), i, p.ring.slots[i]);
  }

  // ---------------------------------------------------------------- claims

  /** The defensive branch of the worker's write-back is never taken. */
  lemma WriteBackAlwaysHits(p: Pipe, i: nat)
    requires PipeInv(p) && i < |p.workers| && p.workers[i].Inferring?
    ensures var job := p.workers[i].job;
            var s := p.ring.slots[SlotIndex(job.frame)];
            s.frame == job.frame && s.claims == 1 && s.rgb.None? && job.rgb.Some?
  {
    CountCovers(WorkerFrames(p.workers), i, p.workers[i].job.frame);
    HeldSlot(p, p.workers[i].job.frame);
  }

  /**
   * Overwriting matters: a write-back keeps all buffers accounted for if and only if it finds
   * no picture in the slot (or does not reach the slot at all).
   */
  lemma WriteBackLosesIff(r: Ring, job: Job, env: nat -> bool)
    requires |r.slots| == RING_N && job.rgb.Some?
    ensures var s := r.slots[SlotIndex(job.frame)];
            (forall b :: Account(WriteBack(r, job, env), Rgb, b) == Account(r, Rgb, b) + Is(job.rgb, b))
            <==> (s.frame != job.frame || s.claims == 0 || s.rgb.None?)
  {
    var i := SlotIndex(job.frame);
    var s := r.slots[i];
    if s.frame == job.frame && s.claims > 0 && s.rgb.Some? {
      var b := s.rgb.value;
      var s' := s.(rgb := job.rgb, rgbDone := true);
      assert r.slots[i := s'][i := Unclaimed(s')] == r.slots[i := Unclaimed(s')];
      SlotStepBooks(r, i, Unclaimed(s'), r.ctl, r.store, env, Rgb, b, Heap(0));
      assert Account(WriteBack(r, job, env), Rgb, b) + 1 == Account(r, Rgb, b) + Is(job.rgb, b);
    } else {
      forall b ensures Account(WriteBack(r, job, env), Rgb, b) == Account(r, Rgb, b) + Is(job.rgb, b) {
        if s.rgb.None? {
          WriteBackGains(r, job, env, Rgb, b, Heap(0));
        } else {
          PutShelved(r.store, Rgb, job.rgb, env, Rgb, b);
        }
      }
    }
  }

  // ---------------------------------------------------------------- capture

  /** The raw data of a slot has been consumed under the current modes. */
  predicate RawConsumed(c: Control, s: Slot) {
    if c.aiActive then s.inferDone else s.encodeDone || !c.recActive
  }

  /** Why the slot 32 frames back, claimed by `held` holders, cannot take a new frame. */
  predicate Blocked(c: Control, held: nat, s: Slot) {
    || held > 0
    || (s.raw.Some? && !RawConsumed(c, s))
    || (s.rgb.Some? && s.frame > c.displaySeq)
    || (s.frame == c.displaySeq && (s.jpeg.Some? || s.nv12.Some?))
    || (s.nv12.Some? && c.recActive && !s.encodeDone)
  }

  lemma ReusableIff(c: Control, upTo: nat, held: nat, s: Slot)
    requires SlotOk(c, upTo, held, SlotIndex(c.produceSeq + 1), s) && Cleaned(c, s) == s
    ensures !Reusable(s) <==> s.frame != 0 && Blocked(c, held, s)
    ensures s.frame != 0 ==> s.frame + RING_N == c.produceSeq + 1
  {
  }

  /**
   * Capture drops a frame exactly when the frame 32 back is still claimed, has unconsumed raw
   * data, has a picture newer than the displayed one, is the displayed frame still holding an
   * output, or has an NV12 frame that the running recording has not consumed.
   */
  lemma CaptureRefusedIff(p: Pipe, w: int, h: int, fmt: int, raw: Raw, env: nat -> bool)
    requires RingInv(p)
    ensures var s := p.ring.slots[SlotIndex(p.ring.ctl.produceSeq + 1)];
            !Capture(p.ring, w, h, fmt, raw, env).1
            <==> s.frame + RING_N == p.ring.ctl.produceSeq + 1 && s.frame != 0
                 && Blocked(p.ring.ctl, Holders(p, s.frame), s)
  {
    assert |p.ring.slots| == RING_N;
    hide RingInv, Capture, Reusable, Blocked, Holders, SlotIndex;
    CaptureTakes(p, w, h, fmt, raw, env);
    NextSlotReusable(p);
  }

  lemma CaptureTakes(p: Pipe, w: int, h: int, fmt: int, raw: Raw, env: nat -> bool)
    requires RingInv(p)
    ensures Capture(p.ring, w, h, fmt, raw, env).1 <==> Reusable(p.ring.slots[SlotIndex(p.ring.ctl.produceSeq + 1)])
  {
    CaptureAtRest(p.ring, w, h, fmt, raw, env);
    hide *;
  }

  lemma NextSlotReusable(p: Pipe)
    requires RingInv(p)
    ensures var s := p.ring.slots[SlotIndex(p.ring.ctl.produceSeq + 1)];
            && (!Reusable(s) <==> s.frame != 0 && Blocked(p.ring.ctl, Holders(p, s.frame), s))
            && (s.frame != 0 ==> s.frame + RING_N == p.ring.ctl.produceSeq + 1)
  {
    var i := SlotIndex(p.ring.ctl.produceSeq + 1);
    var s := p.ring.slots[i];
    assert SlotOk(p.ring.ctl, ClaimedUpTo(p), Holders(p, s.frame), i, s);
    ReusableIff(p.ring.ctl, ClaimedUpTo(p), Holders(p, s.frame), s);
  }

  /** The newest frame can be read until it is superseded or the restart clears the ring. */
  lemma NewestReadable(p: Pipe)
    requires RingInv(p) && p.ring.ctl.produceSeq > 0
    ensures RawNewest(p.ring).None? <==> p.ring.slots[SlotIndex(p.ring.ctl.produceSeq)].frame == 0
  {
    var i := SlotIndex(p.ring.ctl.produceSeq);
    var s := p.ring.slots[i];
    assert SlotOk(p.ring.ctl, ClaimedUpTo(p), Holders(p, s.frame), i, s);
  }

  // ---------------------------------------------------------------- rendering

  /** While the composer draws, and until the ring is cleared, its slot keeps frame and pixels. */
  lemma PixelsStable(p: Pipe)
    requires RingInv(p) && p.composer.Rendering? && p.composer.epoch == p.clears
    ensures var s := p.ring.slots[SlotIndex(p.composer.frame)];
            Renderable(s, p.composer.frame) && s.rgb == Some(p.composer.rgb)
  {
  }

  /** Frames shown and frames stolen for recording strictly increase, and no frame is miscounted. */
  lemma OutputsOrdered(ps: seq<Pipe>, ss: seq<Step>, env: nat -> bool, n: nat)
    requires Run(ps, ss, env) && n < |ps|
    ensures var p := ps[n];
            && Increasing(p.shown) && Increasing(p.stolen)
            && |p.shown| + p.ring.ctl.renderSkipped == p.ring.ctl.displaySeq
            && (p.shown != [] ==> p.shown[|p.shown| - 1] == p.ring.ctl.displaySeq)
  {
    RunInv(ps, ss, env, n);
  }

  // ---------------------------------------------------------------- driver buffers

  /** While streaming, each driver buffer is queued, in hand, or in exactly one slot. */
  lemma DriverBufferOnce(p: Pipe, v: nat)
    requires PipeInv(p) && (p.phase.Streaming? || p.phase.Quiescing?) && v < p.nbuffers
    ensures p.ring.store.returned[Mmap(v)] + Is(HandBuf(p.hand), v) <= 1
    ensures (forall i :: 0 <= i < RING_N ==> p.ring.slots[i].raw != Some(Mmap(v)))
            <==> p.ring.store.returned[Mmap(v)] + Is(HandBuf(p.hand), v) == 1
    ensures forall i, j :: 0 <= i < j < RING_N && p.ring.slots[i].raw == Some(Mmap(v))
              ==> p.ring.slots[j].raw != Some(Mmap(v))
  {
    assert DriverPlaces(p, v) == 1;
    var raws := Raws(p.ring.slots);
    if Count(raws, Mmap(v)) == 0 {
      forall i | 0 <= i < RING_N ensures p.ring.slots[i].raw != Some(Mmap(v)) {
        if p.ring.slots[i].raw == Some(Mmap(v)) { CountCovers(raws, i, Mmap(v)); }
      }
    } else {
      var i := CountWitness(raws, Mmap(v));
      assert p.ring.slots[i].raw == Some(Mmap(v));
    }
    forall i, j | 0 <= i < j < RING_N && p.ring.slots[i].raw == Some(Mmap(v))
      ensures p.ring.slots[j].raw != Some(Mmap(v))
    {
      if p.ring.slots[j].raw == Some(Mmap(v)) { CountCoversTwo(raws, i, j, Mmap(v)); }
    }
  }

  /** When the restart unmaps the driver buffers, no slot points into them and no claim is held. */
  lemma UnmapSafe(p: Pipe, f: nat)
    requires PipeInv(p) && (p.phase.Cleared? || p.phase.Off?)
    ensures forall i :: 0 <= i < RING_N ==> p.ring.slots[i].raw.None?
    ensures Holders(p, f) == 0
  {
    if Holders(p, f) > 0 {
      HeldSlot(p, f);
    }
  }
}
